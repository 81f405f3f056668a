/** The order history page: merge the pages of every system, sort by date, cut at a date. */
module OrderHistory {
  import opened Wrappers
  import opened StableSort

  datatype HistoryOrder = HistoryOrder(number: string, datePlaced: int)

  function Merge(pages: seq<seq<HistoryOrder>>): seq<HistoryOrder> {
    if pages == [] then [] else pages[0] + Merge(pages[1..])
  }

  function Date(o: HistoryOrder): int {
    o.datePlaced
  }

  function Since(date: int): HistoryOrder -> bool {
    (o: HistoryOrder) => Date(o) >= date
  }

  /** The cutoff is absent when the request carries no number of days. */
  function History(pages: seq<seq<HistoryOrder>>, cutoff: Option<int>): seq<HistoryOrder> {
    var orders := SortDescending(Merge(pages), Date);
    match cutoff
    case None => orders
    case Some(date) => TakeWhile(orders, Since(date))
  }

  /** Cutting after sorting loses no recent order and shows no old one: the page is exactly the
      recent orders of all systems, each as often as it was reported, sorted newest first, orders
      of the same date in the order the systems reported them. */
  lemma HistoryIsRecentOrdersNewestFirst(pages: seq<seq<HistoryOrder>>, date: int)
    ensures History(pages, Some(date)) == SortDescending(Filter(Merge(pages), Since(date)), Date)
    ensures multiset(History(pages, Some(date))) == multiset(Filter(Merge(pages), Since(date)))
    ensures Descending(History(pages, Some(date)), Date)
  {
    var all := Merge(pages);
    SortedPermutation(all, Date);
    TakeWhileIsFilter(SortDescending(all, Date), Since(date));
    FilterCommutesWithSort(all, Date, Since(date));
    SortedPermutation(Filter(all, Since(date)), Date);
  }

  lemma {:induction false} MergeConcat(a: seq<seq<HistoryOrder>>, b: seq<seq<HistoryOrder>>)
    ensures Merge(a + b) == Merge(a) + Merge(b)
    ensures |a| == 1 ==> Merge(a) == a[0]
  {
    if a == [] {
      assert a + b == b;
    } else {
      assert (a + b)[1..] == a[1..] + b;
      MergeConcat(a[1..], b);
    }
  }

  lemma {:induction false} KeptBy(orders: seq<HistoryOrder>, date: int, o: HistoryOrder)
    ensures multiset(Filter(orders, Since(date)))[o] == if o.datePlaced >= date then multiset(orders)[o] else 0
  {
    if orders != [] {
      KeptBy(orders[1..], date, o);
      assert orders == [orders[0]] + orders[1..];
    }
  }

  /** What the page shows, order by order: each order placed at the cutoff or later as often as the systems report it,
      no other, and none before a newer one; without a cutoff all of them. */
  lemma HistoryShows(pages: seq<seq<HistoryOrder>>, date: int, o: HistoryOrder)
    ensures multiset(History(pages, Some(date)))[o] == if o.datePlaced >= date then multiset(Merge(pages))[o] else 0
    ensures multiset(History(pages, None)) == multiset(Merge(pages))
    ensures forall cutoff, i, j ::
              cutoff in {None, Some(date)} && 0 <= i < j < |History(pages, cutoff)|
              ==> History(pages, cutoff)[i].datePlaced >= History(pages, cutoff)[j].datePlaced
  {
    HistoryIsRecentOrdersNewestFirst(pages, date);
    SortedPermutation(Merge(pages), Date);
    KeptBy(Merge(pages), date, o);
    assert Descending(History(pages, None), Date) && Descending(History(pages, Some(date)), Date);
    forall cutoff, i, j | cutoff in {None, Some(date)} && 0 <= i < j < |History(pages, cutoff)|
      ensures History(pages, cutoff)[i].datePlaced >= History(pages, cutoff)[j].datePlaced {
      assert Date(History(pages, cutoff)[i]) >= Date(History(pages, cutoff)[j]);
    }
  }
}
