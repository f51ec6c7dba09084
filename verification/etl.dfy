/**
  The extract-transform-load loop: pages of deals are fetched from the CRM
  API at an increasing offset, cleaned, and bulk-inserted into the warehouse
  table until a page comes back empty or short. A failed fetch is fatal; a
  failed insert is logged and swallowed.
 */
module Etl {
  import opened Wrappers
  import opened JsValues
  import opened Cleaning

  /** The page size every fetch asks for. */
  const Limit: nat := 500

  /** The body of one API response: `{ success, data }`. */
  datatype Response = Response(success: JsValue, data: seq<JsValue>)

  /**
    The remote deal collection, as a finite sequence of raw records that stays
    the same for the whole run, together with the `success` field of the
    response to each zero-based fetch call. That field may be any value,
    `undefined` included; a falsy one also stands for a request that fails in
    transport, since both end the run alike.
   */
  datatype Remote = Remote(records: seq<JsValue>, success: nat -> JsValue)

  /** The zero-based indices of the bulk-insert calls that throw. */
  datatype Warehouse = Warehouse(rejectedCalls: set<nat>)

  /** The exceptions that reach the top of the run. */
  datatype Thrown =
    | ApiError(response: Response)  // thrown by the fetch's success check
    | TypeError                     // a property read on a null or undefined deal

  /** One call of the bulk insert: the rows handed over, and whether the table took them. */
  datatype InsertCall = InsertCall(rows: seq<Row>, stored: bool)

  /** The smaller of two naturals. */
  function Min(a: nat, b: nat): nat {
    if a <= b then a else b
  }

  /** The records at offsets `start` up to `start + limit`, cut at the end of the collection. */
  function Slice(records: seq<JsValue>, start: nat, limit: nat): seq<JsValue> {
    records[Min(start, |records|) .. Min(start + limit, |records|)]
  }

  /** What the API answers to the `call`-th request for `limit` deals at offset `start`. */
  function Serve(remote: Remote, call: nat, start: nat, limit: nat): Response {
    var success := remote.success(call);
    if Truthy(success) then Response(success, Slice(remote.records, start, limit))
    else Response(success, [])
  }

  /**
    `fetchDeals(start, limit)`: one request, and the success check on its
    response. A successful page is the next contiguous run of records, holds at
    most `limit` of them, and is short exactly when it reaches the end of the
    collection.
   */
  function FetchDeals(remote: Remote, call: nat, start: nat, limit: nat): (r: Result<seq<JsValue>, Thrown>)
    ensures r.Failure? <==> !Truthy(remote.success(call))
    ensures r.Failure? ==> r.error.ApiError? && r.error.response.success == remote.success(call)
    ensures r.Success? ==> |r.value| <= limit
    ensures r.Success? && start <= |remote.records| ==>
              && start + |r.value| <= |remote.records|
              && r.value == remote.records[start .. start + |r.value|]
    ensures r.Success? && 0 < limit ==> (|r.value| < limit <==> start + limit > |remote.records|)
    ensures r.Success? && start <= |remote.records| ==> |r.value| == Min(limit, |remote.records| - start)
    ensures r.Success? && start > |remote.records| ==> r.value == []
  {
    var response := Serve(remote, call, start, limit);
    if !Truthy(response.success) then Failure(ApiError(response))
    else Success(response.data)
  }

  /**
    `insertDeals(rows)` as the `call`-th insert: clean the page, then hand the
    rows to the table. Cleaning runs outside the `try`, so a nullish deal
    throws to the caller; a rejected insert is caught and only marks the call
    as not stored.
   */
  function InsertDeals(lib: Builtins, warehouse: Warehouse, call: nat, deals: seq<JsValue>)
    : (r: Result<InsertCall, Thrown>)
    ensures r.Failure? <==> !Cleanable(deals)
    ensures r.Failure? ==> r.error.TypeError?
    ensures r.Success? ==> Some(r.value.rows) == CleanPage(lib, deals)
    ensures r.Success? ==> (r.value.stored <==> call !in warehouse.rejectedCalls)
  {
    match CleanPage(lib, deals)
    case None => Failure(TypeError)
    case Some(rows) => Success(InsertCall(rows, call !in warehouse.rejectedCalls))
  }

  /** The `k`-th page of the collection when every page before it was full. */
  function Page(records: seq<JsValue>, k: nat): seq<JsValue> {
    Slice(records, k * Limit, Limit)
  }

  /** The number of fetches a run over `n` records makes when nothing fails. */
  function Rounds(n: nat): nat {
    n / Limit + 1
  }

  /** The number of non-empty pages of a collection of `n` records. */
  function NonEmptyPages(n: nat): nat {
    (n + Limit - 1) / Limit
  }

  /** Round `k`'s fetch reports a truthy `success`, and its page holds no nullish deal. */
  ghost predicate RoundOk(remote: Remote, k: nat) {
    Truthy(remote.success(k)) && Cleanable(Page(remote.records, k))
  }

  /** Rounds `0` up to `m - 1` are all ok. */
  ghost predicate AllRoundsOk(remote: Remote, m: nat) {
    m == 0 || (AllRoundsOk(remote, m - 1) && RoundOk(remote, m - 1))
  }

  /** The rows of all insert calls, in call order. */
  function Flatten(calls: seq<InsertCall>): seq<Row> {
    if |calls| == 0 then [] else Flatten(calls[..|calls| - 1]) + calls[|calls| - 1].rows
  }

  /**
    The insert calls of the first `m` rounds when none of them aborts: every
    non-empty page `k` is cleaned and handed over as insert call `k`, which the
    table keeps unless that call is rejected; an empty page inserts nothing.
   */
  function ExpectedLog(lib: Builtins, remote: Remote, warehouse: Warehouse, m: nat)
    : seq<InsertCall>
    requires AllRoundsOk(remote, m)
  {
    if m == 0 then []
    else
      var prefix := ExpectedLog(lib, remote, warehouse, m - 1);
      var page := Page(remote.records, m - 1);
      if |page| == 0 then prefix
      else prefix + [InsertCall(CleanPage(lib, page).value, m - 1 !in warehouse.rejectedCalls)]
  }

  /** Division by the page size recovers the page index. */
  lemma PageIndex(q: nat, d: nat)
    requires d < Limit
    ensures (q * Limit + d) / Limit == q
  {
  }

  /** A round reached at offset `k * Limit` is one of the rounds a clean run makes. */
  lemma ReachedRound(n: nat, k: nat)
    requires k * Limit <= n
    ensures k < Rounds(n)
  {
    PageIndex(k, 0);
  }

  /** Every round a clean run makes starts inside the collection or right at its end. */
  lemma RoundOffset(n: nat, k: nat)
    requires k < Rounds(n)
    ensures k * Limit <= n
  {
    PageIndex(n / Limit, n % Limit);
  }

  /** An empty page at round `k` means the collection holds exactly `k` full pages. */
  lemma EmptyPageEnd(records: seq<JsValue>, k: nat)
    requires k * Limit <= |records|
    requires |Page(records, k)| == 0
    ensures |records| == k * Limit
    ensures Rounds(|records|) == k + 1
    ensures NonEmptyPages(|records|) == k
  {
    PageIndex(k, 0);
    PageIndex(k, Limit - 1);
  }

  /** A short, non-empty page at round `k` is the last of `k + 1` non-empty pages. */
  lemma ShortPageEnd(records: seq<JsValue>, k: nat)
    requires k * Limit <= |records|
    requires 0 < |Page(records, k)| < Limit
    ensures k * Limit + |Page(records, k)| == |records|
    ensures Rounds(|records|) == k + 1
    ensures NonEmptyPages(|records|) == k + 1
  {
    var d := |Page(records, k)|;
    PageIndex(k, d);
    PageIndex(k + 1, d - 1);
  }

  /**
    The pagination shape: every page before the last round is full, and the
    last round's page is short (possibly empty), so the loop never stops on a
    full page and always stops on the last one.
   */
  lemma PageShapes(records: seq<JsValue>, k: nat)
    requires k < Rounds(|records|)
    ensures k + 1 < Rounds(|records|) ==> |Page(records, k)| == Limit
    ensures k + 1 == Rounds(|records|) ==> |Page(records, k)| < Limit
  {
    var n := |records|;
    PageIndex(n / Limit, n % Limit);
  }

  /** `AllRoundsOk` is the bounded quantification it abbreviates. */
  lemma {:induction false} AllRoundsOkMeans(remote: Remote, m: nat)
    ensures AllRoundsOk(remote, m) <==> forall k :: 0 <= k < m ==> RoundOk(remote, k)
  {
    if m > 0 {
      AllRoundsOkMeans(remote, m - 1);
    }
  }

  /** Appending one insert call appends its rows to the flattened log. */
  lemma FlattenSnoc(calls: seq<InsertCall>, call: InsertCall)
    ensures Flatten(calls + [call]) == Flatten(calls) + call.rows
  {
    assert (calls + [call])[..|calls|] == calls;
  }

  /**
    The rows cleaned from the records before round `k`, followed by the rows
    of page `k`, are the rows cleaned from the records up to the end of page `k`.
   */
  lemma PrefixStep(lib: Builtins, records: seq<JsValue>, k: nat, done: seq<Row>, rows: seq<Row>)
    requires k * Limit <= |records|
    requires CleanPage(lib, records[..k * Limit]) == Some(done)
    requires CleanPage(lib, Page(records, k)) == Some(rows)
    ensures k * Limit + |Page(records, k)| <= |records|
    ensures CleanPage(lib, records[..k * Limit + |Page(records, k)|]) == Some(done + rows)
  {
    var start := k * Limit;
    var page := Page(records, k);
    assert records[..start + |page|] == records[..start] + page;
    CleanPageAppend(lib, records[..start], page);
  }

  /**
    A run that does not abort makes one insert call per round as long as
    pages are full, so after all rounds it has made one call per non-empty page.
   */
  lemma {:induction false} ExpectedLogLength(lib: Builtins, remote: Remote, warehouse: Warehouse, m: nat)
    requires m <= Rounds(|remote.records|)
    requires AllRoundsOk(remote, m)
    ensures m < Rounds(|remote.records|) ==> |ExpectedLog(lib, remote, warehouse, m)| == m
    ensures m == Rounds(|remote.records|) ==>
              |ExpectedLog(lib, remote, warehouse, m)| == NonEmptyPages(|remote.records|)
  {
    if m > 0 {
      var k := m - 1;
      var records := remote.records;
      ExpectedLogLength(lib, remote, warehouse, k);
      RoundOffset(|records|, k);
      PageShapes(records, k);
      if |Page(records, k)| == 0 {
        EmptyPageEnd(records, k);
      } else if |Page(records, k)| < Limit {
        ShortPageEnd(records, k);
      }
    }
  }

  /**
    Insert call `i` of a run that does not abort carries the cleaned page `i`,
    and the table keeps it unless call `i` is rejected.
   */
  lemma {:induction false} ExpectedLogCalls(lib: Builtins, remote: Remote, warehouse: Warehouse, m: nat)
    requires m <= Rounds(|remote.records|)
    requires AllRoundsOk(remote, m)
    ensures var log := ExpectedLog(lib, remote, warehouse, m);
            forall i :: 0 <= i < |log| ==>
              && CleanPage(lib, Page(remote.records, i)) == Some(log[i].rows)
              && (log[i].stored <==> i !in warehouse.rejectedCalls)
  {
    if m > 0 {
      var k := m - 1;
      ExpectedLogCalls(lib, remote, warehouse, k);
      ExpectedLogLength(lib, remote, warehouse, k);
    }
  }

  /**
    The insert calls of a run that does not abort carry, together and in
    order, the cleaned records of every page read so far, each exactly once.
   */
  lemma {:induction false} ExpectedLogRows(lib: Builtins, remote: Remote, warehouse: Warehouse, m: nat)
    requires m <= Rounds(|remote.records|)
    requires AllRoundsOk(remote, m)
    ensures CleanPage(lib, remote.records[..Min(m * Limit, |remote.records|)])
            == Some(Flatten(ExpectedLog(lib, remote, warehouse, m)))
    ensures |Flatten(ExpectedLog(lib, remote, warehouse, m))| == Min(m * Limit, |remote.records|)
  {
    var records := remote.records;
    if m == 0 {
      assert records[..0] == [];
    } else {
      var k := m - 1;
      ExpectedLogRows(lib, remote, warehouse, k);
      RoundOffset(|records|, k);
      PageShapes(records, k);
      var prefix := ExpectedLog(lib, remote, warehouse, k);
      var page := Page(records, k);
      if |page| == 0 {
        EmptyPageEnd(records, k);
      } else {
        var call := InsertCall(CleanPage(lib, page).value, k !in warehouse.rejectedCalls);
        PrefixStep(lib, records, k, Flatten(prefix), call.rows);
        FlattenSnoc(prefix, call);
        if |page| < Limit {
          ShortPageEnd(records, k);
        }
      }
    }
  }

  /** The log of a run that completes: one call per non-empty page, carrying every record. */
  lemma CompletedLog(lib: Builtins, remote: Remote, warehouse: Warehouse, log: seq<InsertCall>)
    requires AllRoundsOk(remote, Rounds(|remote.records|))
    requires log == ExpectedLog(lib, remote, warehouse, Rounds(|remote.records|))
    ensures |log| == NonEmptyPages(|remote.records|)
    ensures CleanPage(lib, remote.records) == Some(Flatten(log))
    ensures |Flatten(log)| == |remote.records|
  {
    var m := Rounds(|remote.records|);
    ExpectedLogLength(lib, remote, warehouse, m);
    ExpectedLogRows(lib, remote, warehouse, m);
    RoundOffset(|remote.records|, m - 1);
    assert remote.records[..Min(m * Limit, |remote.records|)] == remote.records;
  }

  /** The log of a run that aborts in round `k`: one call per earlier round, and the run is not clean. */
  lemma AbortedLog(lib: Builtins, remote: Remote, warehouse: Warehouse, k: nat, log: seq<InsertCall>)
    requires k < Rounds(|remote.records|)
    requires AllRoundsOk(remote, k) && !RoundOk(remote, k)
    requires log == ExpectedLog(lib, remote, warehouse, k)
    ensures !AllRoundsOk(remote, Rounds(|remote.records|))
    ensures |log| == k
  {
    ExpectedLogLength(lib, remote, warehouse, k);
    AllRoundsOkMeans(remote, k);
    AllRoundsOkMeans(remote, Rounds(|remote.records|));
  }

  /** What a run that completes has done: every round was ok and every record was inserted. */
  lemma CompletedRun(lib: Builtins, remote: Remote, warehouse: Warehouse, log: seq<InsertCall>)
    requires AllRoundsOk(remote, Rounds(|remote.records|))
    requires log == ExpectedLog(lib, remote, warehouse, Rounds(|remote.records|))
    ensures forall k :: 0 <= k < Rounds(|remote.records|) ==> RoundOk(remote, k)
    ensures |log| == NonEmptyPages(|remote.records|)
    ensures CleanPage(lib, remote.records) == Some(Flatten(log))
    ensures forall i :: 0 <= i < |log| ==>
              && CleanPage(lib, Page(remote.records, i)) == Some(log[i].rows)
              && (log[i].stored <==> i !in warehouse.rejectedCalls)
  {
    var m := Rounds(|remote.records|);
    CompletedLog(lib, remote, warehouse, log);
    ExpectedLogCalls(lib, remote, warehouse, m);
    AllRoundsOkMeans(remote, m);
  }

  /** What a run that aborts in round `k` has done: it inserted the pages before round `k`. */
  lemma AbortedRun(lib: Builtins, remote: Remote, warehouse: Warehouse, k: nat, log: seq<InsertCall>)
    requires k < Rounds(|remote.records|)
    requires AllRoundsOk(remote, k) && !RoundOk(remote, k)
    requires log == ExpectedLog(lib, remote, warehouse, k)
    ensures !forall j :: 0 <= j < Rounds(|remote.records|) ==> RoundOk(remote, j)
    ensures !AllRoundsOk(remote, Rounds(|remote.records|))
    ensures forall j :: 0 <= j < k ==> RoundOk(remote, j)
    ensures |log| == k
    ensures forall i :: 0 <= i < |log| ==>
              && CleanPage(lib, Page(remote.records, i)) == Some(log[i].rows)
              && (log[i].stored <==> i !in warehouse.rejectedCalls)
  {
    AbortedLog(lib, remote, warehouse, k, log);
    ExpectedLogCalls(lib, remote, warehouse, k);
    AllRoundsOkMeans(remote, k);
  }

  /**
    A round that is ok and inserts a non-empty page extends the reference log
    by exactly its insert call, and advances the offset by the page length.
   */
  lemma NextRound(lib: Builtins, remote: Remote, warehouse: Warehouse, k: nat,
                  log: seq<InsertCall>, call: InsertCall)
    requires AllRoundsOk(remote, k) && log == ExpectedLog(lib, remote, warehouse, k)
    requires RoundOk(remote, k) && |Page(remote.records, k)| > 0
    requires CleanPage(lib, Page(remote.records, k)) == Some(call.rows)
    requires call.stored <==> k !in warehouse.rejectedCalls
    ensures AllRoundsOk(remote, k + 1)
    ensures log + [call] == ExpectedLog(lib, remote, warehouse, k + 1)
    ensures |Flatten(log + [call])| == |Flatten(log)| + |Page(remote.records, k)|
  {
    FlattenSnoc(log, call);
  }

  /** How one round of the loop ends. */
  datatype RoundEnd =
    | Abort                                   // an exception escaped: the run exits with status 1
    | Finish                                  // an empty page: nothing is inserted and the run completes
    | Inserted(call: InsertCall, count: nat)  // a page of `count` deals went to the insert

  /**
    One round of `runETL`: the `round`-th fetch, at offset `start`; stop on an
    empty page, otherwise clean and insert. The round aborts exactly when its
    fetch reports a falsy `success` or its page holds a nullish deal; it
    inserts exactly the cleaned page otherwise, and a rejected insert only
    clears the call's `stored` flag.
   */
  method RunRound(lib: Builtins, remote: Remote, warehouse: Warehouse, round: nat, start: nat)
    returns (end: RoundEnd)
    ensures var page := Slice(remote.records, start, Limit);
            end.Abort? <==> !Truthy(remote.success(round)) || !Cleanable(page)
    ensures var page := Slice(remote.records, start, Limit);
            end.Finish? <==> Truthy(remote.success(round)) && |page| == 0
    ensures var page := Slice(remote.records, start, Limit);
            end.Inserted? ==>
              && end.count == |page| > 0
              && CleanPage(lib, page) == Some(end.call.rows)
              && (end.call.stored <==> round !in warehouse.rejectedCalls)
  {
    var deals := FetchDeals(remote, round, start, Limit);
    if deals.Failure? {
      return Abort;
    }
    if |deals.value| == 0 {
      return Finish;
    }
    var inserted := InsertDeals(lib, warehouse, round, deals.value);
    if inserted.Failure? {
      return Abort;
    }
    return Inserted(inserted.value, |deals.value|);
  }

  /**
    `runETL`: fetch pages of `Limit` deals from offset 0, insert each non-empty
    page, advance by the page length, and stop after an empty or short page.
    Returns the process exit status, the number of fetches, the final offset
    and the insert calls in order; the offset always equals the number of
    records inserted so far. A fetch failure or a nullish deal ends the run with status 1
    at the first round where it happens; rejected inserts change nothing but
    their own `stored` flag.
   */
  method RunEtl(lib: Builtins, remote: Remote, warehouse: Warehouse)
    returns (status: int, fetches: nat, start: nat, log: seq<InsertCall>)
    ensures status == 0 || status == 1
    ensures start == |Flatten(log)|
    ensures status == 0 ==> start == |remote.records|
    ensures status == 0 <==> AllRoundsOk(remote, Rounds(|remote.records|))
    ensures status == 0 ==> fetches == Rounds(|remote.records|)
    ensures status == 0 ==> log == ExpectedLog(lib, remote, warehouse, fetches)
    ensures status == 0 ==> |log| == NonEmptyPages(|remote.records|)
    ensures status == 0 ==> CleanPage(lib, remote.records) == Some(Flatten(log))
    ensures status == 1 ==>
              && 1 <= fetches <= Rounds(|remote.records|)
              && AllRoundsOk(remote, fetches - 1)
              && !RoundOk(remote, fetches - 1)
              && log == ExpectedLog(lib, remote, warehouse, fetches - 1)
              && |log| == fetches - 1
  {
    var records := remote.records;
    start := 0;
    fetches := 0;
    log := [];
    while true
      invariant start == fetches * Limit <= |records|
      invariant AllRoundsOk(remote, fetches)
      invariant log == ExpectedLog(lib, remote, warehouse, fetches)
      invariant start == |Flatten(log)|
      decreases |records| - start
    {
      var round := fetches;
      var end := RunRound(lib, remote, warehouse, round, start);
      assert Slice(records, start, Limit) == Page(records, round);
      fetches := fetches + 1;
      match end {
        case Abort =>
          ReachedRound(|records|, round);
          AbortedLog(lib, remote, warehouse, round, log);
          status := 1;
          break;
        case Finish =>
          EmptyPageEnd(records, round);
          CompletedLog(lib, remote, warehouse, log);
          status := 0;
          break;
        case Inserted(call, count) =>
          NextRound(lib, remote, warehouse, round, log, call);
          log := log + [call];
          start := start + count;
          if count < Limit {
            ShortPageEnd(records, round);
            CompletedLog(lib, remote, warehouse, log);
            status := 0;
            break;
          }
      }
    }
  }
}
