/** Reading a whole table page by page: each request asks for ids after the last one seen. */
module KeysetPagination {
  import opened Wrappers
  import opened Lexicographic

  datatype Record = Record(id: string, payload: string)

  /** An unchanging table listed by ascending id, ids unique. */
  predicate SortedById(table: seq<Record>) {
    forall i, j :: 0 <= i < j < |table| ==> Less(table[i].id, table[j].id)
  }

  function IdAfter(records: seq<Record>, lastId: string): seq<Record> {
    if records == [] then []
    else if Less(lastId, records[0].id) then [records[0]] + IdAfter(records[1..], lastId)
    else IdAfter(records[1..], lastId)
  }

  function FirstPage(records: seq<Record>, limit: nat): seq<Record> {
    if |records| <= limit then records else records[..limit]
  }

  /** The server: the records whose id passes the filter, in id order, at most `limit` of them. */
  function Query(table: seq<Record>, lastId: Option<string>, limit: nat): seq<Record> {
    match lastId
    case None => FirstPage(table, limit)
    case Some(id) => FirstPage(IdAfter(table, id), limit)
  }

  lemma {:induction false} NoneSkipped(records: seq<Record>, lastId: string)
    requires forall i :: 0 <= i < |records| ==> Less(lastId, records[i].id)
    ensures IdAfter(records, lastId) == records
  {
    if records != [] {
      NoneSkipped(records[1..], lastId);
    }
  }

  /** In a sorted table the records after the k-th one are exactly the rest of the table. */
  lemma {:induction false} AfterRecord(table: seq<Record>, k: nat)
    requires SortedById(table) && k < |table|
    ensures IdAfter(table, table[k].id) == table[k + 1..]
  {
    if k == 0 {
      LessIrreflexive(table[0].id);
      NoneSkipped(table[1..], table[0].id);
    } else {
      AfterRecord(table[1..], k - 1);
      assert table[1..][k - 1] == table[k];
      assert Less(table[0].id, table[k].id);
      if Less(table[k].id, table[0].id) {
        LessTransitive(table[k].id, table[0].id, table[k].id);
        LessIrreflexive(table[k].id);
      }
    }
  }

  predicate LastSeen(table: seq<Record>, n: nat, lastId: Option<string>) {
    n <= |table| && lastId == if n == 0 then None else Some(table[n - 1].id)
  }

  /** After n records the next request returns the records that follow them. */
  lemma NextPage(table: seq<Record>, n: nat, lastId: Option<string>, limit: nat)
    requires SortedById(table) && LastSeen(table, n, lastId)
    ensures var page := Query(table, lastId, limit);
            n + |page| <= |table| && page == table[n..n + |page|]
            && |page| == if |table| - n <= limit then |table| - n else limit
  {
    if n > 0 {
      AfterRecord(table, n - 1);
    }
    assert table[0..] == table;
  }

  /** One request for every full page, and one more that comes back short. */
  function RequestsNeeded(size: nat, pageSize: nat): (n: nat)
    requires pageSize > 0
    ensures n > 0
  {
    if size < pageSize then 1 else 1 + RequestsNeeded(size - pageSize, pageSize)
  }

  /** The loop ends for every table size, multiples of the page size included, with every record
      exactly once and in id order; it gives up exactly when one of the requests it needs fails.
      `fails(k)` says whether the k-th request fails. */
  method FetchAll(table: seq<Record>, pageSize: nat, fails: nat -> bool) returns (r: Option<seq<Record>>)
    requires SortedById(table) && pageSize > 0
    ensures r.Some? ==> r.value == table
    ensures r.None? <==> exists k :: 0 <= k < RequestsNeeded(|table|, pageSize) && fails(k)
  {
    var lastId: Option<string> := None;
    var shouldContinue := true;
    var results: seq<Record> := [];
    var requests := 0;
    while shouldContinue
      invariant LastSeen(table, |results|, lastId) && results == table[..|results|]
      invariant requests + (if shouldContinue then RequestsNeeded(|table| - |results|, pageSize) else 0)
                == RequestsNeeded(|table|, pageSize)
      invariant !shouldContinue ==> |results| == |table|
      invariant forall k :: 0 <= k < requests ==> !fails(k)
      decreases |table| - |results|, shouldContinue
    {
      if fails(requests) {
        return None;
      }
      NextPage(table, |results|, lastId, pageSize);
      var batch := Query(table, lastId, pageSize);
      results := results + batch;
      shouldContinue := |batch| == pageSize;
      if batch != [] {
        lastId := Some(batch[|batch| - 1].id);
      }
      requests := requests + 1;
    }
    return Some(results);
  }
}
