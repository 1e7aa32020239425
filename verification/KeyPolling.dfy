/** Choosing the next key of a multi-key channel, and the fairness of polling. */
module KeyPolling {
  import opened KeyRecords
  import opened SortedSets

  datatype Mode = Random | Polling | Other

  datatype Choice = Chosen(index: int) | NoKeys | NoneEnabled | NoneUntried

  /** The indexes below n with an enabled key, in order. */
  function EnabledIndexes(n: nat, status: map<int, int>): (r: seq<int>)
    ensures forall i :: i in r <==> 0 <= i < n && StatusAt(status, i) == Enabled
  {
    if n == 0 then []
    else if StatusAt(status, n - 1) == Enabled then EnabledIndexes(n - 1, status) + [n - 1]
    else EnabledIndexes(n - 1, status)
  }

  lemma {:induction false} EnabledIndexesAscend(n: nat, status: map<int, int>)
    ensures Increasing(EnabledIndexes(n, status))
    ensures forall k :: 0 <= k < |EnabledIndexes(n, status)| ==> EnabledIndexes(n, status)[k] < n
  {
    if n > 0 {
      EnabledIndexesAscend(n - 1, status);
      IncreasingSnoc(EnabledIndexes(n - 1, status), n - 1);
    }
  }

  lemma IncreasingSnoc(xs: seq<int>, x: int)
    requires Increasing(xs) && forall k :: 0 <= k < |xs| ==> xs[k] < x
    ensures Increasing(xs + [x])
  {
  }

  ghost predicate Indexes(eligible: set<int>, n: int) {
    forall i <- eligible :: 0 <= i < n
  }

  /** The keys a request may still try. */
  function Eligible(n: nat, status: map<int, int>, excluded: set<int>): (r: set<int>)
    ensures Indexes(r, n)
  {
    set i | i in EnabledIndexes(n, status) && i !in excluded
  }

  /** Steps forward from one index to another, round the end of the list. */
  /** The keys a call may choose: those below n without a status, or with status 1, that are not excluded. */
  lemma EligibleIff(n: nat, status: map<int, int>, excluded: set<int>, i: int)
    ensures i in Eligible(n, status, excluded) <==> 0 <= i < n && (i !in status || status[i] == 1) && i !in excluded
  {
  }

  function Distance(from: int, to: int, n: int): (r: int) {
    if to >= from then to - from else to - from + n
  }

  ghost predicate Nearest(index: int, start: int, n: int, eligible: set<int>) {
    index in eligible && forall other <- eligible :: Distance(start, index, n) <= Distance(start, other, n)
  }

  lemma WrapOnce(x: int, n: int)
    requires 0 <= x < n + n
    ensures x % n == if x < n then x else x - n
  {
    if x >= n {
      assert x == (x - n) + n * 1;
    }
  }

  lemma Wrap(start: int, i: int, n: int)
    requires 0 <= start < n && 0 <= i < n
    ensures var at := (start + i) % n; 0 <= at < n && Distance(start, at, n) == i
  {
    WrapOnce(start + i, n);
  }

  /** The polling cursor, clamped as the source does when it is out of range. */
  function Start(cursor: int, n: int): (r: int) {
    if cursor < 0 || cursor >= n then 0 else cursor
  }

  /** The channel's polling cursor and the choice that moves it. */
  class KeySelector {
    var cursor: int

    constructor (initial: int)
      ensures cursor == initial
    {
      cursor := initial;
    }

    method NextEnabledKey(n: nat, status: map<int, int>, excluded: set<int>, mode: Mode, draw: nat) returns (choice: Choice)
      modifies this
      ensures Answers(choice, n, Eligible(n, status, {}), Eligible(n, status, excluded))
      ensures choice.Chosen? ==> Picks(choice.index, mode, draw, if 0 <= old(cursor) < n then old(cursor) else 0, n, Eligible(n, status, excluded))
      ensures cursor == if choice.Chosen? && mode == Polling then (choice.index + 1) % n else old(cursor)
      ensures choice.Chosen? && mode == Polling ==>
                HandsOut(if 0 <= old(cursor) < n then old(cursor) else 0, choice.index, cursor, n, Eligible(n, status, excluded))
    {
      ghost var start := Start(cursor, n);
      choice := Choose(n, status, excluded, mode, draw, Start(cursor, n));
      if choice.Chosen? && mode == Polling {
        cursor := (choice.index + 1) % n;
        NearestUnique(choice.index, Next(start, n, Eligible(n, status, excluded)), start, n, Eligible(n, status, excluded));
      }
    }
  }

  /** Each error has its own cause, and there is a choice exactly when a key is eligible. */
  ghost predicate Answers(choice: Choice, n: nat, enabled: set<int>, eligible: set<int>) {
    && (choice == NoKeys <==> n == 0)
    && (choice == NoneEnabled <==> n > 0 && enabled == {})
    && (choice.Chosen? <==> eligible != {})
  }

  /** The key of the mode: one drawn from the ascending list, the nearest from the cursor, or the first. */
  ghost predicate Picks(index: int, mode: Mode, draw: nat, start: int, n: int, eligible: set<int>) {
    && index in eligible
    && match mode
       case Random => |Ascending(eligible)| > 0 && index == Ascending(eligible)[draw % |Ascending(eligible)|]
       case Polling => Nearest(index, start, n, eligible)
       case Other => IsMinimum(index, eligible)
  }

  method Choose(n: nat, status: map<int, int>, excluded: set<int>, mode: Mode, draw: nat, start: int) returns (choice: Choice)
    requires n > 0 ==> 0 <= start < n
    ensures Answers(choice, n, Eligible(n, status, {}), Eligible(n, status, excluded))
    ensures choice.Chosen? ==> Picks(choice.index, mode, draw, start, n, Eligible(n, status, excluded))
  {
    if n == 0 {
      return NoKeys;
    }
    var enabled := EnabledIndexes(n, status);
    EnabledIndexesAscend(n, status);
    EligibleOf(n, status, {}, enabled);
    if enabled == [] {
      EligibleOf(n, status, excluded, enabled);
      return NoneEnabled;
    }
    var remaining := Untried(enabled, excluded);
    EligibleOf(n, status, excluded, remaining);
    if remaining == [] {
      return NoneUntried;
    }
    ghost var eligible := Eligible(n, status, excluded);
    var index := Select(n, enabled, remaining, excluded, mode, draw, start, eligible);
    choice := Chosen(index);
  }

  /** The switch over the modes. */
  method Select(n: nat, enabled: seq<int>, remaining: seq<int>, excluded: set<int>, mode: Mode, draw: nat, start: int,
                ghost eligible: set<int>) returns (index: int)
    requires 0 <= start < n && remaining != [] && remaining == Ascending(eligible) && Increasing(remaining)
    requires (forall i :: i in remaining <==> i in eligible) && Indexes(eligible, n)
    requires forall i :: i in eligible <==> i in enabled && i !in excluded
    ensures Picks(index, mode, draw, start, n, eligible)
  {
    FirstIsMinimum(remaining, eligible);
    match mode
    case Random =>
      index := remaining[draw % |remaining|];
      assert index in remaining;
    case Other =>
      index := remaining[0];
    case Polling =>
      index := Poll(n, enabled, excluded, start, eligible);
  }

  lemma FirstIsMinimum(list: seq<int>, s: set<int>)
    requires list != [] && Increasing(list) && forall i :: i in list <==> i in s
    ensures IsMinimum(list[0], s)
  {
    var first := list[0];
    assert first in list;
    forall x <- s ensures first <= x {
      assert x in list;
    }
  }

  /** An increasing list of the eligible indexes is the listing of that set. */
  lemma EligibleOf(n: nat, status: map<int, int>, excluded: set<int>, list: seq<int>)
    requires Increasing(list) && forall i :: i in list <==> i in EnabledIndexes(n, status) && i !in excluded
    ensures list == Ascending(Eligible(n, status, excluded)) && |list| == |Eligible(n, status, excluded)|
    ensures forall i :: i in list <==> i in Eligible(n, status, excluded)
    ensures list == [] <==> Eligible(n, status, excluded) == {}
  {
    AscendingLists(Eligible(n, status, excluded));
    IncreasingUnique(list, Ascending(Eligible(n, status, excluded)));
  }

  /** The loop that leaves out the excluded indexes, keeping the order. */
  method Untried(enabled: seq<int>, excluded: set<int>) returns (remaining: seq<int>)
    requires Increasing(enabled)
    ensures forall i :: i in remaining <==> i in enabled && i !in excluded
    ensures Increasing(remaining)
  {
    remaining := [];
    for k := 0 to |enabled|
      invariant forall i :: i in remaining <==> i in enabled[..k] && i !in excluded
      invariant Increasing(remaining)
      invariant k < |enabled| ==> forall i :: 0 <= i < |remaining| ==> remaining[i] < enabled[k]
    {
      if enabled[k] !in excluded {
        IncreasingSnoc(remaining, enabled[k]);
        remaining := remaining + [enabled[k]];
      }
    }
  }

  /** The polling loop: the first eligible index from the cursor on. */
  method Poll(n: nat, enabled: seq<int>, excluded: set<int>, start: int, ghost eligible: set<int>) returns (index: int)
    requires 0 <= start < n && eligible != {}
    requires forall i :: i in eligible <==> i in enabled && i !in excluded
    requires forall i <- eligible :: 0 <= i < n
    ensures Nearest(index, start, n, eligible)
  {
    for i := 0 to n
      invariant forall other <- eligible :: Distance(start, other, n) >= i
    {
      Wrap(start, i, n);
      index := (start + i) % n;
      if index !in excluded && index in enabled {
        return;
      }
      assert index !in eligible;
      forall other <- eligible ensures Distance(start, other, n) >= i + 1 {
        SameDistance(start, index, other, n);
      }
    }
    assert forall other <- eligible :: false;
    assert false;
  }

  lemma SameDistance(start: int, a: int, b: int, n: int)
    requires 0 <= start < n && 0 <= a < n && 0 <= b < n
    ensures Distance(start, a, n) == Distance(start, b, n) ==> a == b
  {
  }

  // ---- Fairness ----

  /** The nearest index exists and is unique. */
  lemma {:induction false} NearestExists(start: int, n: int, eligible: set<int>) returns (index: int)
    requires 0 <= start < n && eligible != {} && Indexes(eligible, n)
    ensures Nearest(index, start, n, eligible)
    decreases |eligible|
  {
    var some: int := SomeElement(eligible);
    if eligible == {some} {
      index := some;
    } else {
      var rest := NearestExists(start, n, eligible - {some});
      index := if Distance(start, some, n) < Distance(start, rest, n) then some else rest;
      forall other <- eligible ensures Distance(start, index, n) <= Distance(start, other, n) {
        assert other == some || other in eligible - {some};
      }
    }
  }

  ghost function Next(start: int, n: int, eligible: set<int>): (r: int)
    requires 0 <= start < n && eligible != {} && Indexes(eligible, n)
    ensures Nearest(r, start, n, eligible)
  {
    assert exists i :: Nearest(i, start, n, eligible) by { var i := NearestExists(start, n, eligible); }
    var i :| Nearest(i, start, n, eligible);
    i
  }

  lemma NearestUnique(a: int, b: int, start: int, n: int, eligible: set<int>)
    requires 0 <= start < n && Indexes(eligible, n) && Nearest(a, start, n, eligible) && Nearest(b, start, n, eligible)
    ensures a == b
  {
    SameDistance(start, a, b, n);
  }

  /** The cursor after a choice. */
  function After(index: int, n: int): (r: int)
    requires 0 <= index < n
    ensures r == (index + 1) % n && 0 <= r < n
  {
    if index + 1 < n then index + 1 else 0
  }

  lemma Advance(start: int, index: int, other: int, n: int)
    requires 0 <= start < n && 0 <= index < n && 0 <= other < n && Distance(start, index, n) < Distance(start, other, n)
    ensures Distance(After(index, n), other, n) == Distance(start, other, n) - Distance(start, index, n) - 1
  {
  }

  /** How many other keys polling hands out before this one. */
  ghost function Turn(start: int, n: int, eligible: set<int>, key: int): (r: nat)
    requires 0 <= start < n && Indexes(eligible, n) && key in eligible
    decreases Distance(start, key, n)
  {
    var next := Next(start, n, eligible);
    if next == key then 0
    else
      SameDistance(start, next, key, n);
      Advance(start, next, key, n);
      1 + Turn(After(next, n), n, eligible, key)
  }

  /** A call of the polling mode hands out the next key and leaves the cursor just after it. */
  ghost predicate HandsOut(start: int, index: int, cursor: int, n: int, eligible: set<int>) {
    0 <= start < n && eligible != {} && Indexes(eligible, n) && index == Next(start, n, eligible) && cursor == After(index, n)
  }

  /** The keys handed out by successive calls while the eligible keys stay the same. */
  ghost function Handed(start: int, n: int, eligible: set<int>, calls: nat): (r: seq<int>)
    requires 0 <= start < n && eligible != {} && Indexes(eligible, n)
    ensures |r| == calls
    decreases calls
  {
    if calls == 0 then []
    else
      var next := Next(start, n, eligible);
      [next] + Handed(After(next, n), n, eligible, calls - 1)
  }

  /** The turn of a key is the number of the first call that returns it. */
  lemma {:induction false} TurnIsFirst(start: int, n: int, eligible: set<int>, key: int, calls: nat)
    requires 0 <= start < n && Indexes(eligible, n) && key in eligible && Turn(start, n, eligible, key) < calls
    ensures var turn := Turn(start, n, eligible, key);
            Handed(start, n, eligible, calls)[turn] == key && key !in Handed(start, n, eligible, calls)[..turn]
    decreases calls
  {
    var next := Next(start, n, eligible);
    if next != key {
      var turn, rest := Turn(start, n, eligible, key), Handed(After(next, n), n, eligible, calls - 1);
      TurnIsFirst(After(next, n), n, eligible, key, calls - 1);
      assert ([next] + rest)[..turn] == [next] + rest[..turn - 1];
    }
  }

  /** The eligible keys between the cursor and this one. */
  ghost function Between(start: int, n: int, eligible: set<int>, key: int): set<int> {
    set other | other in eligible && Distance(start, other, n) < Distance(start, key, n)
  }

  lemma BetweenStep(start: int, n: int, eligible: set<int>, key: int, next: int)
    requires 0 <= start < n && Indexes(eligible, n) && key in eligible && next != key && Nearest(next, start, n, eligible)
    ensures next !in Between(After(next, n), n, eligible, key)
    ensures Between(start, n, eligible, key) == Between(After(next, n), n, eligible, key) + {next}
  {
    SameDistance(start, next, key, n);
    Advance(start, next, key, n);
    forall other <- eligible
      ensures other in Between(start, n, eligible, key) <==> other == next || other in Between(After(next, n), n, eligible, key)
    {
      if other != next {
        SameDistance(start, next, other, n);
        Advance(start, next, other, n);
      }
    }
    assert Distance(After(next, n), next, n) == n - 1;
    assert Distance(After(next, n), key, n) <= n - 1;
  }

  /** A key waits exactly for the eligible keys between the cursor and itself, each handed out once. */
  lemma {:induction false} TurnCounts(start: int, n: int, eligible: set<int>, key: int)
    requires 0 <= start < n && Indexes(eligible, n) && key in eligible
    ensures Turn(start, n, eligible, key) == |Between(start, n, eligible, key)|
    decreases Distance(start, key, n)
  {
    var next := Next(start, n, eligible);
    if next == key {
      assert Between(start, n, eligible, key) == {};
    } else {
      SameDistance(start, next, key, n);
      Advance(start, next, key, n);
      TurnCounts(After(next, n), n, eligible, key);
      BetweenStep(start, n, eligible, key, next);
    }
  }

  lemma BetweenOthers(start: int, n: int, eligible: set<int>, key: int)
    requires 0 <= start < n && Indexes(eligible, n) && key in eligible
    ensures Between(start, n, eligible, key) <= eligible - {key}
    ensures start == After(key, n) ==> Between(start, n, eligible, key) == eligible - {key}
  {
    if start == After(key, n) {
      forall other <- eligible - {key} ensures Distance(start, other, n) < Distance(start, key, n) {
        SameDistance(start, other, key, n);
      }
    }
  }

  /** With a fixed set of eligible keys no key waits longer than one round ... */
  lemma WaitIsBounded(start: int, n: int, eligible: set<int>, key: int)
    requires 0 <= start < n && Indexes(eligible, n) && key in eligible
    ensures Turn(start, n, eligible, key) < |eligible|
  {
    TurnCounts(start, n, eligible, key);
    BetweenOthers(start, n, eligible, key);
    SubsetSize(Between(start, n, eligible, key), eligible - {key});
  }

  /** ... and a key just handed out comes again after every other key has had its turn. */
  lemma RoundRobin(n: int, eligible: set<int>, key: int)
    requires Indexes(eligible, n) && key in eligible
    ensures Turn(After(key, n), n, eligible, key) == |eligible| - 1
  {
    TurnCounts(After(key, n), n, eligible, key);
    BetweenOthers(After(key, n), n, eligible, key);
  }

  lemma {:induction false} SubsetSize(a: set<int>, b: set<int>)
    requires a <= b
    ensures |a| <= |b|
  {
    if a != {} {
      var x: int := SomeElement(a);
      SubsetSize(a - {x}, b - {x});
    }
  }
}
