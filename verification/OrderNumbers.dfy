/**
 The shared order-number counter. Any number of clients read it, draft an increment (or a reset when the
 year has changed) and write it under the version they read, each read and each write a step of its own.
 */
module OrderNumbers {
  import opened OrderNumberRendering

  /** The custom object holding the counter. */
  datatype Counter = Counter(value: nat, version: nat, modifiedYear: nat)

  datatype Client =
    | Ready(attemptsLeft: nat)
    | HasRead(attemptsLeft: nat, read: Counter)
    | Drafted(attemptsLeft: nat, read: Counter, newValue: nat)
    | Committed(value: nat, year: nat)
    | Done
    | Failed

  /** A number handed out: the counter value, the year of the write that produced it, and the year
      printed in front of it. */
  datatype Issued = Issued(value: nat, commitYear: nat, prefixYear: nat)

  datatype State = State(counter: Counter, clock: nat, clients: map<nat, Client>, issued: seq<Issued>)

  datatype Event =
    | Tick(year: nat)
    | Start(client: nat, retriesEnabled: bool)
    | Read(client: nat)
    | Draft(client: nat)
    | Write(client: nat, responseLost: bool)
    | Render(client: nat)

  const ATTEMPTS := 3

  function NewValue(read: Counter, currentYear: nat): nat {
    if currentYear > read.modifiedYear then 1 else read.value + 1
  }

  /** A conflict or an outage: try again from the read while attempts are left. */
  function Retried(attemptsLeft: nat): Client {
    if attemptsLeft > 1 then Ready(attemptsLeft - 1) else Failed
  }

  /** One step; an event that is not enabled changes nothing. */
  function Step(s: State, e: Event): State {
    match e
    case Tick(year) => if year >= s.clock then s.(clock := year) else s
    case Start(c, retriesEnabled) =>
      if c in s.clients then s
      else s.(clients := s.clients[c := Ready(if retriesEnabled then ATTEMPTS else 1)])
    case Read(c) =>
      if c in s.clients && s.clients[c].Ready? then
        s.(clients := s.clients[c := HasRead(s.clients[c].attemptsLeft, s.counter)])
      else s
    case Draft(c) =>
      if c in s.clients && s.clients[c].HasRead? then
        var k := s.clients[c];
        s.(clients := s.clients[c := Drafted(k.attemptsLeft, k.read, NewValue(k.read, s.clock))])
      else s
    case Write(c, responseLost) =>
      if c in s.clients && s.clients[c].Drafted? then
        var k := s.clients[c];
        if k.read.version == s.counter.version then
          var written := Counter(k.newValue, s.counter.version + 1, s.clock);
          var next := if responseLost then Retried(k.attemptsLeft) else Committed(written.value, written.modifiedYear);
          s.(counter := written, clients := s.clients[c := next])
        else s.(clients := s.clients[c := Retried(k.attemptsLeft)])
      else s
    case Render(c) =>
      if c in s.clients && s.clients[c].Committed? then
        var k := s.clients[c];
        s.(clients := s.clients[c := Done], issued := s.issued + [Issued(k.value, k.year, s.clock)])
      else s
  }

  function Run(s: State, events: seq<Event>): State
    decreases |events|
  {
    if events == [] then s else Run(Step(s, events[0]), events[1..])
  }

  // ----- The invariant -----

  /** A snapshot is never newer than the counter, and one of the current version is the counter. */
  predicate Coherent(read: Counter, counter: Counter) {
    read.version <= counter.version && (read.version == counter.version ==> read == counter)
  }

  /** Value v of year y was taken from the counter no later than its current value. */
  predicate Taken(value: nat, year: nat, counter: Counter) {
    year < counter.modifiedYear || (year == counter.modifiedYear && value <= counter.value)
  }

  predicate ClientOk(k: Client, s: State) {
    match k
    case HasRead(_, read) => Coherent(read, s.counter)
    case Drafted(_, read, v) =>
      Coherent(read, s.counter)
      && (v == read.value + 1 || (v == 1 && s.clock > read.modifiedYear))
    case Committed(v, y) => Taken(v, y, s.counter)
    case _ => true
  }

  predicate SameNumber(k: Client, value: nat, year: nat) {
    k == Committed(value, year)
  }

  ghost predicate Inv(s: State) {
    && s.counter.modifiedYear <= s.clock
    && (forall c :: c in s.clients ==> ClientOk(s.clients[c], s))
    && (forall c, d ::
       c in s.clients && d in s.clients && c != d && s.clients[c].Committed? ==> s.clients[d] != s.clients[c])
    && (forall i :: 0 <= i < |s.issued| ==> Taken(s.issued[i].value, s.issued[i].commitYear, s.counter))
    && (forall i, c ::
       0 <= i < |s.issued| && c in s.clients ==> !SameNumber(s.clients[c], s.issued[i].value, s.issued[i].commitYear))
    && DistinctCommits(s.issued)
  }

  ghost predicate DistinctCommits(issued: seq<Issued>) {
    forall i, j :: 0 <= i < j < |issued|
      ==> !(issued[i].value == issued[j].value && issued[i].commitYear == issued[j].commitYear)
  }

  /** No clients yet and nothing issued: any counter, last written no later than now. */
  predicate Init(s: State) {
    s.counter.modifiedYear <= s.clock && s.clients == map[] && s.issued == []
  }

  lemma StepKeepsInv(s: State, e: Event)
    requires Inv(s)
    ensures Inv(Step(s, e))
  {
  }

  lemma {:induction false} RunKeepsInv(s: State, events: seq<Event>)
    requires Inv(s)
    ensures Inv(Run(s, events))
    decreases |events|
  {
    if events != [] {
      StepKeepsInv(s, events[0]);
      RunKeepsInv(Step(s, events[0]), events[1..]);
    }
  }

  // ----- Main results -----

  ghost predicate PrefixIsCommitYear(issued: seq<Issued>) {
    forall i :: 0 <= i < |issued| ==> issued[i].prefixYear == issued[i].commitYear
  }

  ghost predicate FourDigit(issued: seq<Issued>) {
    forall i :: 0 <= i < |issued| ==> 1000 <= issued[i].prefixYear <= 9999
  }

  function Text(n: Issued): string {
    OrderNumberRendering.Render(n.prefixYear, n.value)
  }

  /** Whatever clients do, no two issued numbers share both their counter value and the year of
      their counter write: lost responses, conflicts, retries and year changes included. */
  lemma CommitsAreUnique(s: State, events: seq<Event>)
    requires Init(s)
    ensures DistinctCommits(Run(s, events).issued)
  {
    RunKeepsInv(s, events);
  }

  /** So the texts are pairwise distinct, across years, as long as every printed year is the year
      of the counter write behind it. */
  lemma OrderNumbersAreUnique(s: State, events: seq<Event>, i: nat, j: nat)
    requires Init(s)
    requires PrefixIsCommitYear(Run(s, events).issued) && FourDigit(Run(s, events).issued)
    requires i < j < |Run(s, events).issued|
    ensures Text(Run(s, events).issued[i]) != Text(Run(s, events).issued[j])
  {
    RunKeepsInv(s, events);
    var a, b := Run(s, events).issued[i], Run(s, events).issued[j];
    FourDigitYears(a.prefixYear);
    FourDigitYears(b.prefixYear);
    if Text(a) == Text(b) {
      RenderInjective(a.prefixYear, a.value, b.prefixYear, b.value);
    }
  }

  // ----- No number is skipped -----

  /** A write takes the next value, or starts again at one when the year has changed. */
  lemma StepAdvances(s: State, e: Event)
    requires Inv(s)
    ensures var c, c' := s.counter, Step(s, e).counter;
            c' == c || (c'.version == c.version + 1 && c'.modifiedYear == s.clock
                        && (c'.value == c.value + 1 || (c'.value == 1 && s.clock > c.modifiedYear)))
    ensures Step(s, e).clock >= s.clock
  {
    if e.Write? && e.client in s.clients { assert ClientOk(s.clients[e.client], s); }
  }

  lemma {:induction false} RunAdvances(s: State, events: seq<Event>)
    requires Inv(s)
    ensures var c, c' := s.counter, Run(s, events).counter;
            c'.version >= c.version && c'.modifiedYear >= c.modifiedYear
            && (c'.modifiedYear == c.modifiedYear ==> c'.value - c.value == c'.version - c.version)
    decreases |events|
  {
    if events != [] {
      StepAdvances(s, events[0]);
      StepKeepsInv(s, events[0]);
      RunAdvances(Step(s, events[0]), events[1..]);
    }
  }

  /** In every run, between any two moments of one counter year, the counter has grown by one for each accepted write:
      the values of a year are consecutive, whatever conflicts, retries and lost responses there are. */
  lemma ValuesAreConsecutive(start: State, before: seq<Event>, after: seq<Event>)
    requires Init(start)
    ensures var s, t := Run(start, before), Run(Run(start, before), after);
            t.counter.modifiedYear == s.counter.modifiedYear
            ==> t.counter.value - s.counter.value == t.counter.version - s.counter.version
  {
    RunKeepsInv(start, before);
    RunAdvances(Run(start, before), after);
  }

  /** A client that nothing disturbs gets the number after the last one of the year, or number one of a new year, under
      the current year. */
  lemma LoneClientGetsNext(s: State, c: nat)
    requires c !in s.clients
    ensures var t := Run(s, OneOrder(c));
            var v := if s.clock > s.counter.modifiedYear then 1 else s.counter.value + 1;
            t.counter == Counter(v, s.counter.version + 1, s.clock)
                && t.issued == s.issued + [Issued(v, s.clock, s.clock)]
  {
    OneOrderTakesNext(s, c);
  }

  // ----- Attempts -----

  /** The client reads and drafts, another client is faster, and the write is refused. */
  function LostRound(c: nat, rival: nat): seq<Event> {
    [Read(c), Draft(c)] + OneOrder(rival) + [Write(c, false)]
  }

  lemma LosingRound(s: State, c: nat, rival: nat)
    requires c in s.clients && s.clients[c].Ready? && rival !in s.clients
    ensures var t := Run(s, LostRound(c, rival));
            var n := s.clients[c].attemptsLeft;
            t.clients == s.clients[rival := Done][c := if n > 1 then Ready(n - 1) else Failed]
  {
    var n := s.clients[c].attemptsLeft;
    var s1 := Step(s, Read(c));
    var s2 := Step(s1, Draft(c));
    assert Run(s, [Read(c), Draft(c)]) == s2 by {
      assert [Read(c), Draft(c)][1..] == [Draft(c)];
      assert Run(s1, [Draft(c)]) == s2;
    }
    RunAppends(s, [Read(c), Draft(c)], OneOrder(rival));
    RunAppends(s, [Read(c), Draft(c)] + OneOrder(rival), [Write(c, false)]);
    OneOrderTakesNext(s2, rival);
    var s3 := Run(s2, OneOrder(rival));
    assert Run(s3, [Write(c, false)]) == Step(s3, Write(c, false));
    assert s3.clients[c].read.version != s3.counter.version;
    assert Step(s3, Write(c, false)).clients == s.clients[rival := Done][c := if n > 1 then Ready(n - 1) else Failed];
  }

  /** A client that does not see the answer to its write hands out no number for it, accepted or not: it tries again or
      gives up. */
  lemma LostResponseIsRetried(s: State, c: nat)
    requires c in s.clients && s.clients[c].Drafted?
    ensures var t := Step(s, Write(c, true));
            var n := s.clients[c].attemptsLeft;
            t.issued == s.issued && ClientIs(t, c, if n > 1 then Ready(n - 1) else Failed)
  {
  }

  predicate ClientIs(s: State, c: nat, k: Client) {
    c in s.clients && s.clients[c] == k
  }

  /** A client with retries gives up when it has lost three times, one without when it has lost once. */
  lemma GivesUpAfter(s: State, c: nat, x: nat, y: nat, z: nat)
    requires c !in s.clients && x !in s.clients && y !in s.clients && z !in s.clients
    requires c != x && c != y && c != z && x != y && x != z && y != z
    ensures var one := Run(Step(s, Start(c, true)), LostRound(c, x));
            var two := Run(one, LostRound(c, y));
            ClientIs(one, c, Ready(2)) && ClientIs(two, c, Ready(1)) && ClientIs(Run(two, LostRound(c, z)), c, Failed)
    ensures ClientIs(Run(Step(s, Start(c, false)), LostRound(c, x)), c, Failed)
  {
    LosingRound(Step(s, Start(c, true)), c, x);
    var one := Run(Step(s, Start(c, true)), LostRound(c, x));
    LosingRound(one, c, y);
    LosingRound(Run(one, LostRound(c, y)), c, z);
    LosingRound(Step(s, Start(c, false)), c, x);
  }

  // ----- The printed year must be the commit year -----

  function OneOrder(c: nat): seq<Event> {
    [Start(c, false), Read(c), Draft(c), Write(c, false), Render(c)]
  }

  function Orders(first: nat, count: nat): seq<Event>
    decreases count
  {
    if count == 0 then [] else OneOrder(first) + Orders(first + 1, count - 1)
  }

  lemma {:induction false} RunAppends(s: State, a: seq<Event>, b: seq<Event>)
    ensures Run(s, a + b) == Run(Run(s, a), b)
    decreases |a|
  {
    if a == [] {
      assert a + b == b;
    } else {
      assert (a + b)[1..] == a[1..] + b;
      RunAppends(Step(s, a[0]), a[1..], b);
    }
  }

  /** A client alone takes the next number. */
  lemma OneOrderTakesNext(s: State, c: nat)
    requires c !in s.clients
    ensures var v := NewValue(s.counter, s.clock);
            Run(s, OneOrder(c)) == State(Counter(v, s.counter.version + 1, s.clock), s.clock, s.clients[c := Done],
                                         s.issued + [Issued(v, s.clock, s.clock)])
  {
    var es := OneOrder(c);
    var s1 := Step(s, es[0]);
    var s2 := Step(s1, es[1]);
    var s3 := Step(s2, es[2]);
    var s4 := Step(s3, es[3]);
    var s5 := Step(s4, es[4]);
    assert s5.clients == s.clients[c := Done];
    assert es[1..][1..][1..][1..] == [es[4]];
    assert Run(s4, [es[4]]) == s5;
    assert Run(s3, es[1..][1..][1..]) == s5;
    assert Run(s2, es[1..][1..]) == s5;
    assert Run(s1, es[1..]) == s5;
  }

  lemma {:induction false} OrdersReach(s: State, first: nat, count: nat)
    requires forall c :: c in s.clients ==> c < first
    requires s.counter.modifiedYear == s.clock
    ensures var t := Run(s, Orders(first, count));
            s.issued <= t.issued && |t.issued| == |s.issued| + count
            && (count > 0 ==> t.issued[|t.issued| - 1] == Issued(s.counter.value + count, s.clock, s.clock))
    decreases count
  {
    if count > 0 {
      OneOrderTakesNext(s, first);
      RunAppends(s, OneOrder(first), Orders(first + 1, count - 1));
      OrdersReach(Run(s, OneOrder(first)), first + 1, count - 1);
    }
  }

  /** The hypothesis on the printed year cannot be dropped: for any counter write in one year whose
      number is printed in any later year there is a run, with a monotone clock, on which a later
      client is given the same text. */
  lemma LatePrefixCollides(writeYear: nat, printYear: nat, value: nat) returns (s: State, events: seq<Event>)
    requires writeYear < printYear && value > 0
    ensures Init(s)
    ensures var issued := Run(s, events).issued;
            |issued| == value + 1
            && issued[0] == Issued(value, writeYear, printYear)
            && issued[value] == Issued(value, printYear, printYear)
            && Text(issued[0]) == Text(issued[value])
  {
    s := State(Counter(value - 1, 0, writeYear), writeYear, map[], []);
    var late := [Start(0, false), Read(0), Draft(0), Write(0, false), Tick(printYear), Render(0)];
    var s4 := State(Counter(value, 1, writeYear), writeYear, map[0 := Committed(value, writeYear)], []);
    var s6 := State(Counter(value, 1, writeYear), printYear, map[0 := Done], [Issued(value, writeYear, printYear)]);
    LateRender(s, s4, s6, writeYear, printYear, value);
    OneOrderTakesNext(s6, 1);
    var s7 := Run(s6, OneOrder(1));
    OrdersReach(s7, 2, value - 1);
    events := late + (OneOrder(1) + Orders(2, value - 1));
    RunAppends(s, late, OneOrder(1) + Orders(2, value - 1));
    RunAppends(s6, OneOrder(1), Orders(2, value - 1));
  }

  lemma LateRender(s: State, s4: State, s6: State, writeYear: nat, printYear: nat, value: nat)
    requires writeYear < printYear && value > 0
    requires s == State(Counter(value - 1, 0, writeYear), writeYear, map[], [])
    requires s4 == State(Counter(value, 1, writeYear), writeYear, map[0 := Committed(value, writeYear)], [])
    requires s6 == State(Counter(value, 1, writeYear), printYear, map[0 := Done], [Issued(value, writeYear, printYear)])
    ensures Run(s, [Start(0, false), Read(0), Draft(0), Write(0, false), Tick(printYear), Render(0)]) == s6
  {
    var s3 := Step(Step(Step(s, Start(0, false)), Read(0)), Draft(0));
    assert s3.clients == map[0 := Drafted(1, s.counter, value)];
    assert Step(s3, Write(0, false)) == s4;
    var s5 := s4.(clock := printYear);
    assert Step(s5, Render(0)) == s6;
    var es := [Start(0, false), Read(0), Draft(0), Write(0, false), Tick(printYear), Render(0)];
    assert Run(s5, [Render(0)]) == s6;
    assert Run(s4, [Tick(printYear), Render(0)]) == s6 by {
      assert [Tick(printYear), Render(0)][1..] == [Render(0)];
    }
    assert Run(s3, [Write(0, false), Tick(printYear), Render(0)]) == s6 by {
      assert [Write(0, false), Tick(printYear), Render(0)][1..] == [Tick(printYear), Render(0)];
    }
    assert es[1..][1..][1..] == [Write(0, false), Tick(printYear), Render(0)];
    assert Run(Step(Step(s, Start(0, false)), Read(0)), es[1..][1..]) == s6;
    assert Run(Step(s, Start(0, false)), es[1..]) == s6;
  }

  // ----- The same steps on mutable state -----

  /** The remote counter, the clock, and the clients between their calls. */
  class OrderNumberService {
    var counter: Counter
    var clock: nat
    var clients: map<nat, Client>
    var issued: seq<Issued>

    ghost function View(): State
      reads this
    {
      State(counter, clock, clients, issued)
    }

    constructor (start: Counter, now: nat)
      requires start.modifiedYear <= now
      ensures Init(View()) && counter == start && clock == now
    {
      counter, clock, clients, issued := start, now, map[], [];
    }

    method Pass(year: nat)
      modifies this
      ensures View() == Step(old(View()), Tick(year))
    {
      if year >= clock {
        clock := year;
      }
    }

    method StartRequest(c: nat, retriesEnabled: bool)
      modifies this
      ensures View() == Step(old(View()), Start(c, retriesEnabled))
    {
      if c !in clients {
        clients := clients[c := Ready(if retriesEnabled then ATTEMPTS else 1)];
      }
    }

    /** _get_order_number_custom_object */
    method GetCustomObject(c: nat)
      modifies this
      ensures View() == Step(old(View()), Read(c))
    {
      if c in clients && clients[c].Ready? {
        clients := clients[c := HasRead(clients[c].attemptsLeft, counter)];
      }
    }

    /** The first half of _update_order_number_custom_object: choose the new value. */
    method ChooseValue(c: nat)
      modifies this
      ensures View() == Step(old(View()), Draft(c))
    {
      if c in clients && clients[c].HasRead? {
        var read := clients[c].read;
        var newValue := 1;
        if clock <= read.modifiedYear {
          newValue := read.value + 1;
        }
        clients := clients[c := Drafted(clients[c].attemptsLeft, read, newValue)];
      }
    }

    /** The second half: the store accepts the write only under the current version. */
    method CreateOrUpdate(c: nat, responseLost: bool)
      modifies this
      ensures View() == Step(old(View()), Write(c, responseLost))
    {
      if c in clients && clients[c].Drafted? {
        var k := clients[c];
        var raised := responseLost;
        if k.read.version == counter.version {
          counter := Counter(k.newValue, counter.version + 1, clock);
        } else {
          raised := true;
        }
        if !raised {
          clients := clients[c := Committed(counter.value, counter.modifiedYear)];
        } else if k.attemptsLeft > 1 {
          clients := clients[c := Ready(k.attemptsLeft - 1)];
        } else {
          clients := clients[c := Failed];
        }
      }
    }

    /** The rest of get_new_order_number. */
    method FormatNumber(c: nat) returns (number: string)
      modifies this
      ensures View() == Step(old(View()), Event.Render(c))
      ensures old(c in clients && clients[c].Committed?) ==>
                issued == old(issued) + [issued[|issued| - 1]] && number == Text(issued[|issued| - 1])
    {
      number := "";
      if c in clients && clients[c].Committed? {
        var k := clients[c];
        number := OrderNumberRendering.Render(clock, k.value);
        clients := clients[c := Done];
        issued := issued + [Issued(k.value, k.year, clock)];
      }
    }
  }
}
