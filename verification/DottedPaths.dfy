/** `".".join(parts)` and `path.split(".")`. */
module DottedPaths {

  function Join(parts: seq<string>): string
    requires parts != []
  {
    if |parts| == 1 then parts[0] else parts[0] + "." + Join(parts[1..])
  }

  /** The text up to the first dot. */
  function Head(s: string): (r: string)
    ensures r <= s && '.' !in r
    ensures |r| < |s| ==> s[|r|] == '.'
  {
    if s == "" || s[0] == '.' then "" else [s[0]] + Head(s[1..])
  }

  function Split(s: string): (r: seq<string>)
    ensures r != []
    decreases |s|
  {
    var h := Head(s);
    if |h| == |s| then [s] else [h] + Split(s[|h| + 1..])
  }

  predicate DotFree(parts: seq<string>) {
    forall i :: 0 <= i < |parts| ==> '.' !in parts[i]
  }

  lemma {:induction false} SplitIsDotFree(s: string)
    ensures DotFree(Split(s))
    decreases |s|
  {
    var h := Head(s);
    if |h| < |s| { SplitIsDotFree(s[|h| + 1..]); }
  }

  lemma {:induction false} HeadOfJoin(part: string, rest: string)
    requires '.' !in part
    ensures Head(part) == part
    ensures Head(part + "." + rest) == part
  {
    if part != "" {
      HeadOfJoin(part[1..], rest);
      assert (part + "." + rest)[1..] == part[1..] + "." + rest;
      assert [part[0]] + part[1..] == part;
    }
  }

  /** Joining and splitting again gives the segments back exactly when no segment holds a dot. */
  lemma {:induction false} SplitOfJoin(parts: seq<string>)
    requires parts != []
    ensures Split(Join(parts)) == parts <==> DotFree(parts)
  {
    SplitIsDotFree(Join(parts));
    if DotFree(parts) {
      SplitOfDotFreeJoin(parts);
    }
  }

  lemma {:induction false} SplitOfDotFreeJoin(parts: seq<string>)
    requires parts != [] && DotFree(parts)
    ensures Split(Join(parts)) == parts
  {
    if |parts| == 1 {
      HeadOfJoin(parts[0], "");
    } else {
      SplitOfDotFreeJoin(parts[1..]);
      HeadOfJoin(parts[0], Join(parts[1..]));
      var s := Join(parts);
      assert s[|parts[0]| + 1..] == Join(parts[1..]);
      assert [parts[0]] + parts[1..] == parts;
    }
  }

  lemma SplitFirst(s: string) returns (part: string, rest: string)
    requires |Head(s)| < |s|
    ensures s == part + "." + rest && Split(s) == [part] + Split(rest) && |rest| < |s| && '.' !in part
  {
    part, rest := Head(s), s[|Head(s)| + 1..];
    DotAt(s, |part|);
  }

  lemma SplitWhole(s: string)
    requires |Head(s)| == |s|
    ensures Split(s) == [s] && Join([s]) == s
  {
  }

  /** And the other way round, for every text. */
  lemma {:induction false} JoinOfSplit(s: string)
    ensures Join(Split(s)) == s
    decreases |s|
  {
    if |Head(s)| < |s| {
      var part, rest := SplitFirst(s);
      JoinOfSplit(rest);
      JoinCons(part, Split(rest));
    } else {
      SplitWhole(s);
    }
  }

  lemma JoinCons(part: string, parts: seq<string>)
    requires parts != []
    ensures Join([part] + parts) == part + "." + Join(parts)
  {
    assert ([part] + parts)[1..] == parts;
  }

  lemma DotAt(s: string, n: nat)
    requires n < |s| && s[n] == '.'
    ensures s[..n] + "." + s[n + 1..] == s
  {
  }

  /** The segments a list of names stands for: a name that holds dots stands for several. */
  function PathOf(names: seq<string>): seq<string> {
    if names == [] then [] else Split(names[0]) + PathOf(names[1..])
  }

  /** `joined` is the two texts with a dot between them. */
  lemma {:induction false} SplitAtDot(s: string, rest: string, joined: string)
    requires joined == s + "." + rest
    ensures Split(joined) == Split(s) + Split(rest)
    decreases |s|
  {
    if |Head(s)| == |s| {
      assert Head(s) == s;
      SplitWhole(s);
      SplitOffFirst(s, rest, joined);
    } else {
      var part, tail := SplitFirst(s);
      var later := tail + "." + rest;
      SplitAtDot(tail, rest, later);
      DotsAssociate(part, tail, rest);
      SplitOffFirst(part, later, joined);
      AppendParts(part, Split(tail), Split(rest));
    }
  }

  lemma DotsAssociate(part: string, tail: string, rest: string)
    ensures part + "." + tail + "." + rest == part + "." + (tail + "." + rest)
  {
  }

  lemma AppendParts(part: string, a: seq<string>, b: seq<string>)
    ensures [part] + (a + b) == [part] + a + b
  {
  }

  lemma SplitOffFirst(part: string, rest: string, joined: string)
    requires '.' !in part && joined == part + "." + rest
    ensures Split(joined) == [part] + Split(rest)
  {
    HeadOfJoin(part, rest);
    assert joined[|part| + 1..] == rest;
  }

  /** What splitting a joined list gives, whatever the names are. */
  lemma {:induction false} SplitOfJoinIsPath(names: seq<string>)
    requires names != []
    ensures Split(Join(names)) == PathOf(names)
  {
    if |names| == 1 {
      assert names[1..] == [];
    } else {
      SplitOfJoinIsPath(names[1..]);
      SplitAtDot(names[0], Join(names[1..]), Join(names));
    }
  }
}
