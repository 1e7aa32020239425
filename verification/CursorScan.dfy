/**
 * The id-after-last batch loop shared by the scheduled detection and the bulk
 * apply: query the next enabled channels above the last id, process them, repeat.
 */
module CursorScan {
  import opened Lists
  import opened SortedSets

  datatype Entry<+R> = Entry(enabled: bool, row: R)

  type Table<R> = map<int, Entry<R>>

  ghost predicate PositiveIds<R>(table: Table<R>) {
    forall id <- table :: id > 0
  }

  function EnabledIds<R>(table: Table<R>): (r: set<int>) {
    set id | id in table && table[id].enabled
  }

  function Front(ids: seq<int>, n: int): (r: seq<int>)
    requires n >= 0
  {
    if |ids| > n then ids[..n] else ids
  }

  /** findEnabledChannelsAfterID: enabled channels in id order, at most one batch. */
  function FindEnabledAfter<R>(table: Table<R>, lastId: int, batchSize: int): (r: seq<int>)
    requires batchSize >= 0
  {
    Front(Ascending(if lastId > 0 then Above(EnabledIds(table), lastId) else EnabledIds(table)), batchSize)
  }

  /** Updates each listed channel's row by the given effect and leaves the others alone. */
  function Processed<R>(table: Table<R>, ids: seq<int>, effect: (int, R) -> R): (r: Table<R>) {
    map id | id in table :: if id in ids then table[id].(row := effect(id, table[id].row)) else table[id]
  }

  ghost predicate Listed<R>(table: Table<R>, ids: seq<int>) {
    forall id <- ids :: id in table
  }

  /** Folds over the listed channels, each with its row as it was before the run. */
  ghost function Tallied<R, S>(table: Table<R>, ids: seq<int>, zero: S, tally: (S, int, R) -> S): S
    requires Listed(table, ids)
  {
    if ids == [] then zero
    else
      var front, last := ids[..|ids| - 1], ids[|ids| - 1];
      assert last in ids && forall id <- front :: id in ids;
      tally(Tallied(table, front, zero, tally), last, table[last].row)
  }

  /** The context is seen cancelled once this many channels have been processed. */
  predicate Cancelled(cancelAfter: Option<int>, processed: int) {
    cancelAfter.Some? && processed >= cancelAfter.value
  }

  /** The order every complete scan follows. */
  function ScanOrder<R>(table: Table<R>): (r: seq<int>) {
    Ascending(EnabledIds(table))
  }

  /** Every enabled channel once, by ascending id. */
  lemma ScanOrderIs<R>(table: Table<R>)
    ensures forall i, j :: 0 <= i < j < |ScanOrder(table)| ==> ScanOrder(table)[i] < ScanOrder(table)[j]
    ensures forall id :: id in ScanOrder(table) <==> id in table && table[id].enabled
  {
    AscendingLists(EnabledIds(table));
  }

  /** The cursor after the first n channels of the order. */
  function CursorAt(order: seq<int>, n: nat): (r: int)
    requires n <= |order|
  {
    if n == 0 then 0 else order[n - 1]
  }

  lemma OrderFacts<R>(table: Table<R>)
    ensures Listed(table, ScanOrder(table)) && Increasing(ScanOrder(table))
  {
    AscendingLists(EnabledIds(table));
  }

  /** Processing never moves a channel in or out of the scan. */
  lemma SameIds<R>(table: Table<R>, ids: seq<int>, effect: (int, R) -> R)
    ensures EnabledIds(Processed(table, ids, effect)) == EnabledIds(table)
  {
  }

  /** A query at the cursor returns exactly the next channels of the order. */
  lemma QueryAtCursor<R>(table: Table<R>, n: nat, batchSize: int)
    requires PositiveIds(table) && n <= |ScanOrder(table)| && batchSize >= 0
    ensures FindEnabledAfter(table, CursorAt(ScanOrder(table), n), batchSize) == Front(ScanOrder(table)[n..], batchSize)
  {
    var order := ScanOrder(table);
    if n == 0 {
      assert order[0..] == order;
    } else {
      var last := order[n - 1];
      OrderFacts(table);
      assert last in order;
      AscendingTail(EnabledIds(table), n);
    }
  }

  /** One more channel: its row is still the one it started with. */
  lemma OneMore<R, S>(table: Table<R>, order: seq<int>, n: nat, effect: (int, R) -> R, zero: S, tally: (S, int, R) -> S)
    requires n < |order| && Listed(table, order) && Increasing(order)
    ensures var id, before := order[n], Processed(table, order[..n], effect);
            && id in table && id in before && before[id] == table[id]
            && Listed(table, order[..n]) && Listed(table, order[..n + 1])
            && Processed(table, order[..n + 1], effect) == before[id := table[id].(row := effect(id, table[id].row))]
            && Tallied(table, order[..n + 1], zero, tally) == tally(Tallied(table, order[..n], zero, tally), id, table[id].row)
  {
    var id := order[n];
    assert id in order;
    assert order[..n + 1] == order[..n] + [id];
    assert forall x <- order[..n + 1] :: x in order;
    assert forall x <- order[..n] :: x in order;
    assert order[..n + 1][..n] == order[..n];
  }

  /** The state of a scan that has visited the first n channels of the order. */
  ghost predicate Reached<R, S>(start: Table<R>, order: seq<int>, n: nat, table: Table<R>, visited: seq<int>, total: S,
                                effect: (int, R) -> R, zero: S, tally: (S, int, R) -> S)
  {
    && Listed(start, order) && Increasing(order)
    && n <= |order| && visited == order[..n] && Listed(start, visited)
    && table == Processed(start, visited, effect)
    && total == Tallied(start, visited, zero, tally)
  }

  lemma ReachedStart<R, S>(table: Table<R>, effect: (int, R) -> R, zero: S, tally: (S, int, R) -> S)
    ensures Reached(table, ScanOrder(table), 0, table, [], zero, effect, zero, tally)
  {
    OrderFacts(table);
    assert Processed(table, [], effect) == table;
  }

  lemma ReachedNext<R, S>(start: Table<R>, order: seq<int>, n: nat, table: Table<R>, visited: seq<int>, total: S,
                          effect: (int, R) -> R, zero: S, tally: (S, int, R) -> S)
    requires Reached(start, order, n, table, visited, total, effect, zero, tally) && n < |order|
    ensures order[n] in table
    ensures Reached(start, order, n + 1, table[order[n] := table[order[n]].(row := effect(order[n], table[order[n]].row))],
                    visited + [order[n]], tally(total, order[n], table[order[n]].row), effect, zero, tally)
  {
    OneMore(start, order, n, effect, zero, tally);
    assert order[..n + 1] == order[..n] + [order[n]];
  }

  predicate WithinLimit(cancelAfter: Option<int>, processed: int) {
    cancelAfter.Some? ==> processed <= if cancelAfter.value < 0 then 0 else cancelAfter.value
  }

  class Database<R> {
    var table: Table<R>

    /** The inner loop: processes a batch until it ends or the context is cancelled. */
    method ProcessBatch<S>(ghost start: Table<R>, ghost order: seq<int>, ghost n: nat, batch: seq<int>, before: seq<int>, subtotal: S,
                           effect: (int, R) -> R, ghost zero: S, tally: (S, int, R) -> S, cancelAfter: Option<int>)
      returns (done: nat, visited: seq<int>, total: S)
      requires Reached(start, order, n, table, before, subtotal, effect, zero, tally)
      requires n + |batch| <= |order| && batch == order[n..n + |batch|]
      requires WithinLimit(cancelAfter, |before|)
      modifies this
      ensures done <= |batch|
      ensures Reached(start, order, n + done, table, visited, total, effect, zero, tally)
      ensures done < |batch| ==> Cancelled(cancelAfter, |visited|)
      ensures WithinLimit(cancelAfter, |visited|)
    {
      done, visited, total := 0, before, subtotal;
      while done < |batch| && !Cancelled(cancelAfter, |visited|)
        invariant done <= |batch|
        invariant Reached(start, order, n + done, table, visited, total, effect, zero, tally)
        invariant WithinLimit(cancelAfter, |visited|)
      {
        var id := batch[done];
        ReachedNext(start, order, n + done, table, visited, total, effect, zero, tally);
        var row := table[id].row;
        table := table[id := table[id].(row := effect(id, row))];
        total := tally(total, id, row);
        visited := visited + [id];
        done := done + 1;
      }
    }

    /** One query and its batch; tells how far the scan got and whether to go on. */
    method NextBatch<S>(ghost start: Table<R>, ghost order: seq<int>, ghost n: nat, before: seq<int>, subtotal: S, lastId: int,
                        batchSize: int, effect: (int, R) -> R, ghost zero: S, tally: (S, int, R) -> S, cancelAfter: Option<int>)
      returns (ghost m: nat, visited: seq<int>, total: S, cursor: int, running: bool)
      requires PositiveIds(start) && order == ScanOrder(start) && batchSize >= 1
      requires Reached(start, order, n, table, before, subtotal, effect, zero, tally)
      requires lastId == CursorAt(order, n) && WithinLimit(cancelAfter, |before|)
      modifies this
      ensures n <= m && Reached(start, order, m, table, visited, total, effect, zero, tally)
      ensures running ==> n < m && cursor == CursorAt(order, m)
      ensures !running && cancelAfter.None? ==> m == |order|
      ensures WithinLimit(cancelAfter, |visited|)
    {
      QueryFromScan(start, order, n, before, effect, batchSize);
      var batch := FindEnabledAfter(table, lastId, batchSize);
      if |batch| == 0 {
        return n, before, subtotal, lastId, false;
      }
      cursor := batch[|batch| - 1];
      var done;
      done, visited, total := ProcessBatch(start, order, n, batch, before, subtotal, effect, zero, tally, cancelAfter);
      m := n + done;
      running := done == |batch| == batchSize;
    }

    /**
     * Visits the enabled channels in ascending id order, each exactly once. Without
     * cancellation or query error it visits them all.
     */
    method Scan<S>(batchSize: int, effect: (int, R) -> R, zero: S, tally: (S, int, R) -> S,
                   cancelAfter: Option<int>, queryFails: int -> bool)
      returns (visited: seq<int>, total: S)
      requires PositiveIds(table) && batchSize >= 1
      modifies this
      ensures visited <= ScanOrder(old(table)) && Listed(old(table), visited)
      ensures cancelAfter.None? && (forall q :: !queryFails(q)) ==> visited == ScanOrder(old(table))
      ensures WithinLimit(cancelAfter, |visited|)
      ensures table == Processed(old(table), visited, effect)
      ensures total == Tallied(old(table), visited, zero, tally)
    {
      ghost var start, order := table, ScanOrder(table);
      ghost var n := 0;
      ReachedStart(start, effect, zero, tally);
      visited, total := [], zero;
      var lastId, queries, running := 0, 0, true;
      while running && !Cancelled(cancelAfter, |visited|) && !queryFails(queries)
        invariant 0 <= n && Reached(start, order, n, table, visited, total, effect, zero, tally)
        invariant running ==> lastId == CursorAt(order, n)
        invariant !running && cancelAfter.None? ==> n == |order|
        invariant WithinLimit(cancelAfter, |visited|)
        decreases running, |order| - n
      {
        n, visited, total, lastId, running :=
          NextBatch(start, order, n, visited, total, lastId, batchSize, effect, zero, tally, cancelAfter);
        queries := queries + 1;
      }
    }
  }

  /** During a scan the query returns exactly the next channels of the order. */
  lemma QueryFromScan<R>(start: Table<R>, order: seq<int>, n: nat, visited: seq<int>, effect: (int, R) -> R, batchSize: int)
    requires PositiveIds(start) && order == ScanOrder(start) && n <= |order| && batchSize >= 1
    ensures var batch := FindEnabledAfter(Processed(start, visited, effect), CursorAt(order, n), batchSize);
            && n + |batch| <= |order| && batch == order[n..n + |batch|]
            && (|batch| < batchSize ==> n + |batch| == |order|)
            && (batch != [] ==> CursorAt(order, n + |batch|) == batch[|batch| - 1])
  {
    SameIds(start, visited, effect);
    QueryAtCursor(start, n, batchSize);
  }
}
