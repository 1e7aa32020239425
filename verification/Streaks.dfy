/** Check-in streaks over a set of days, each day a number. */
module Streaks {
  import opened SortedSets

  /** The n days ending with `last` are all checked in. */
  ghost predicate Run(dates: set<int>, last: int, n: int) {
    forall d :: last - n < d <= last ==> d in dates
  }

  /** A run that cannot be extended backwards. */
  ghost predicate FullRun(dates: set<int>, last: int, n: int) {
    n >= 0 && Run(dates, last, n) && last - n !in dates
  }

  /** The longest run of consecutive days. */
  ghost predicate LongestRun(dates: set<int>, best: int) {
    && best >= 0
    && (exists last :: Run(dates, last, best))
    && (forall last, n :: Run(dates, last, n) ==> n <= best)
  }

  /** A full run is at least as long as every run ending on the same day. */
  lemma FullRunIsLongest(dates: set<int>, last: int, n: int, other: int)
    requires FullRun(dates, last, n) && Run(dates, last, other)
    ensures other <= n
  {
    var gap := last - n;
    assert other > n ==> gap in dates;
  }

  /** The backward walk of nextStreaks. */
  method CurrentStreak(dates: set<int>, today: int) returns (current: int)
    ensures FullRun(dates, if today in dates then today else today - 1, current)
  {
    var start := if today in dates then today else today - 1;
    ghost var first := start;
    current := 0;
    while start in dates
      invariant current >= 0 && start == first - current
      invariant Run(dates, first, current)
      decreases set d | d in dates && d <= start
    {
      ghost var before := set d | d in dates && d <= start;
      assert start in before;
      current := current + 1;
      start := start - 1;
      assert start + 1 !in set d | d in dates && d <= start;
    }
  }

  /** Days listed in order: nothing lies strictly between neighbours, nor before the first. */
  lemma Neighbours(dates: set<int>, i: nat)
    requires i < |Ascending(dates)|
    ensures var ordered := Ascending(dates);
            && ordered[i] in dates
            && (forall d :: d in dates && d < ordered[i] ==> i > 0 && d <= ordered[i - 1])
  {
    AscendingLists(dates);
    var ordered := Ascending(dates);
    var here := ordered[i];
    assert here in ordered;
    forall d | d in dates && d < here ensures i > 0 && d <= ordered[i - 1] {
      assert d in ordered;
      var k :| 0 <= k < |ordered| && ordered[k] == d;
      assert k < i;
    }
  }

  /** Extending the run to the next listed day, or starting afresh. */
  lemma NextRun(dates: set<int>, i: nat, run: int)
    requires i < |Ascending(dates)|
    requires i > 0 ==> FullRun(dates, Ascending(dates)[i - 1], run)
    ensures var ordered := Ascending(dates);
            FullRun(dates, ordered[i], if i > 0 && ordered[i] - ordered[i - 1] == 1 then run + 1 else 1)
  {
    Neighbours(dates, i);
    var day := Ascending(dates)[i];
    if i > 0 {
      var previous := Ascending(dates)[i - 1];
      if day - previous == 1 {
        assert forall d :: previous - run < d <= previous ==> d in dates;
        assert previous - run == day - (run + 1);
      } else {
        var gap := day - 1;
        if gap in dates {
          assert gap <= previous;
          AscendingLists(dates);
          assert false;
        }
      }
    } else {
      var gap := day - 1;
      assert gap !in dates;
    }
  }

  /** best is the longest run ending on one of the first i listed days. */
  ghost predicate BestSoFar(dates: set<int>, ordered: seq<int>, i: nat, best: int) {
    && i <= |ordered| && best >= 0
    && (exists last :: Run(dates, last, best))
    && (forall k, n :: 0 <= k < i && Run(dates, ordered[k], n) ==> n <= best)
  }

  method BestStreak(dates: set<int>) returns (best: int)
    ensures LongestRun(dates, best)
  {
    var ordered := Ascending(dates);
    var run := 0;
    best := 0;
    assert Run(dates, 0, 0);
    for i := 0 to |ordered|
      invariant if i == 0 then run == 0 else FullRun(dates, ordered[i - 1], run)
      invariant BestSoFar(dates, ordered, i, best)
    {
      NextRun(dates, i, run);
      if i == 0 || ordered[i] - ordered[i - 1] == 1 {
        run := run + 1;
      } else {
        run := 1;
      }
      BestGrows(dates, ordered, i, best, run);
      if run > best {
        best := run;
      }
    }
    AllRunsListed(dates, ordered, best);
  }

  lemma BestGrows(dates: set<int>, ordered: seq<int>, i: nat, best: int, run: int)
    requires i < |ordered| && BestSoFar(dates, ordered, i, best) && FullRun(dates, ordered[i], run)
    ensures BestSoFar(dates, ordered, i + 1, if run > best then run else best)
  {
    forall k, n | 0 <= k < i + 1 && Run(dates, ordered[k], n)
      ensures n <= if run > best then run else best
    {
      if k == i {
        FullRunIsLongest(dates, ordered[i], run, n);
      }
    }
  }

  lemma AllRunsListed(dates: set<int>, ordered: seq<int>, best: int)
    requires ordered == Ascending(dates) && BestSoFar(dates, ordered, |ordered|, best)
    ensures LongestRun(dates, best)
  {
    AscendingLists(dates);
    forall last, n | Run(dates, last, n) ensures n <= best {
      if n > 0 {
        assert last in dates;
        assert last in ordered;
        var k :| 0 <= k < |ordered| && ordered[k] == last;
      }
    }
  }

  /** nextStreaks on recorded days, duplicates allowed. */
  method NextStreaks(records: seq<int>, today: int) returns (current: int, best: int)
    ensures var dates := set d | d in records;
            && FullRun(dates, if today in dates then today else today - 1, current)
            && LongestRun(dates, best)
            && 0 <= current <= best
            && (best == 0 <==> records == [])
  {
    var dates := set d | d in records;
    current := CurrentStreak(dates, today);
    best := BestStreak(dates);
    if records != [] {
      var day := records[0];
      assert day in dates;
      assert Run(dates, day, 1);
    } else {
      ghost var last :| Run(dates, last, best);
      assert best > 0 ==> last in dates;
    }
  }
}
