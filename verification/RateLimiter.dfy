/** The in-memory sliding-window rate limiter and its expiry sweep. */
module RateLimiter {
  import opened SortedSets

  /** One queue of grant times per key, oldest first. */
  type Store = map<string, seq<int>>

  /** Queues are created with one entry and never emptied. */
  ghost predicate NoEmptyQueue(store: Store) {
    forall key <- store :: store[key] != []
  }

  predicate Grants(store: Store, key: string, max: int, duration: int, now: int)
    requires key in store ==> store[key] != []
  {
    key !in store || |store[key]| < max || now - store[key][0] >= duration
  }

  function AfterRequest(store: Store, key: string, max: int, duration: int, now: int): (r: Store)
    requires key in store ==> store[key] != []
  {
    if !Grants(store, key, max, duration, now) then store
    else if key !in store then store[key := [now]]
    else if |store[key]| < max then store[key := store[key] + [now]]
    else store[key := store[key][1..] + [now]]
  }

  predicate Expired(queue: seq<int>, now: int, expiration: int) {
    queue == [] || now - queue[|queue| - 1] > expiration
  }

  function Swept(store: Store, now: int, expiration: int): (r: Store) {
    map key | key in store && !Expired(store[key], now, expiration) :: store[key]
  }

  class InMemoryRateLimiter {
    var store: Store
    /** Whole seconds of the configured expiration. */
    const expiration: int

    constructor (expiration: int)
      ensures store == map[] && this.expiration == expiration
    {
      store := map[];
      this.expiration := expiration;
    }

    method Request(key: string, max: int, duration: int, now: int) returns (ok: bool)
      requires NoEmptyQueue(store) && max >= 0
      modifies this
      ensures ok == Grants(old(store), key, max, duration, now)
      ensures store == AfterRequest(old(store), key, max, duration, now)
      ensures NoEmptyQueue(store)
    {
      if key in store {
        var queue := store[key];
        if |queue| < max {
          store := store[key := queue + [now]];
          return true;
        } else if now - queue[0] >= duration {
          store := store[key := queue[1..] + [now]];
          return true;
        } else {
          return false;
        }
      }
      store := store[key := [now]];
      return true;
    }

    /** One round of clearExpiredItems, visiting the keys in any order. */
    method Sweep(now: int)
      requires NoEmptyQueue(store)
      modifies this
      ensures store == Swept(old(store), now, expiration)
      ensures NoEmptyQueue(store)
    {
      var todo := store.Keys;
      while todo != {}
        invariant todo <= old(store).Keys
        invariant store == map key | key in old(store) && (key in todo || !Expired(old(store)[key], now, expiration)) :: old(store)[key]
        decreases todo
      {
        ghost var witnessed := SomeElement(todo);
        var key :| key in todo;
        var queue := store[key];
        if |queue| == 0 || now - queue[|queue| - 1] > expiration {
          store := store - {key};
        }
        todo := todo - {key};
      }
    }
  }

  // ---- Runs against a full log of grants ----

  datatype Op =
    | Request(key: string, max: int, duration: int, now: int)
    | Sweep(now: int)

  datatype Grant = Grant(key: string, at: int)

  /** The limiter's decisions over a run. */
  ghost function Decisions(store: Store, ops: seq<Op>, expiration: int): seq<bool>
    requires NoEmptyQueue(store)
    decreases |ops|
  {
    if ops == [] then []
    else match ops[0]
      case Request(key, max, duration, now) =>
        [Grants(store, key, max, duration, now)] +
        Decisions(AfterRequest(store, key, max, duration, now), ops[1..], expiration)
      case Sweep(now) => Decisions(Swept(store, now, expiration), ops[1..], expiration)
  }

  /** Grant times of one key, in order. */
  ghost function TimesOf(log: seq<Grant>, key: string): seq<int> {
    if log == [] then []
    else
      var front, last := TimesOf(log[..|log| - 1], key), log[|log| - 1];
      if last.key == key then front + [last.at] else front
  }

  /** How many of the times are younger than the duration. */
  ghost function Recent(times: seq<int>, now: int, duration: int): int {
    if times == [] then 0
    else Recent(times[..|times| - 1], now, duration) + if now - times[|times| - 1] < duration then 1 else 0
  }

  /** The textbook rule on the full log; a limit of zero is served as one. */
  ghost predicate Allowed(log: seq<Grant>, key: string, max: int, duration: int, now: int) {
    Recent(TimesOf(log, key), now, duration) < Effective(max)
  }

  ghost function Logged(log: seq<Grant>, key: string, max: int, duration: int, now: int): seq<Grant> {
    if Allowed(log, key, max, duration, now) then log + [Grant(key, now)] else log
  }

  /** The specification's decisions over a run: sweeps do nothing. */
  ghost function SpecDecisions(log: seq<Grant>, ops: seq<Op>): seq<bool>
    decreases |ops|
  {
    if ops == [] then []
    else match ops[0]
      case Request(key, max, duration, now) =>
        [Allowed(log, key, max, duration, now)] + SpecDecisions(Logged(log, key, max, duration, now), ops[1..])
      case Sweep(_) => SpecDecisions(log, ops[1..])
  }

  ghost function SpecLog(log: seq<Grant>, ops: seq<Op>): seq<Grant>
    decreases |ops|
  {
    if ops == [] then log
    else match ops[0]
      case Request(key, max, duration, now) => SpecLog(Logged(log, key, max, duration, now), ops[1..])
      case Sweep(_) => SpecLog(log, ops[1..])
  }

  /** A run with a non-decreasing clock whose keys keep their limit and window. */
  ghost predicate Steady(ops: seq<Op>, clock: int, limit: string -> int, window: string -> int)
    decreases |ops|
  {
    ops == [] ||
    (&& ops[0].now >= clock
     && (ops[0].Request? ==> ops[0].max == limit(ops[0].key) >= 0 && ops[0].duration == window(ops[0].key))
     && Steady(ops[1..], ops[0].now, limit, window))
  }

  // ---- Counting ----

  lemma {:induction false} RecentConcat(xs: seq<int>, ys: seq<int>, now: int, duration: int)
    ensures Recent(xs + ys, now, duration) == Recent(xs, now, duration) + Recent(ys, now, duration)
  {
    if ys == [] {
      assert xs + ys == xs;
    } else {
      assert (xs + ys)[..|xs + ys| - 1] == xs + ys[..|ys| - 1];
      RecentConcat(xs, ys[..|ys| - 1], now, duration);
    }
  }

  lemma {:induction false} RecentBounds(times: seq<int>, now: int, duration: int)
    ensures 0 <= Recent(times, now, duration) <= |times|
    ensures (forall i :: 0 <= i < |times| ==> now - times[i] >= duration) ==> Recent(times, now, duration) == 0
    ensures (forall i :: 0 <= i < |times| ==> now - times[i] < duration) ==> Recent(times, now, duration) == |times|
  {
    if times != [] {
      RecentBounds(times[..|times| - 1], now, duration);
    }
  }

  // ---- The queue holds what the log still needs ----

  ghost predicate Ordered(times: seq<int>, clock: int) {
    && (forall i, j :: 0 <= i < j < |times| ==> times[i] <= times[j])
    && (forall i :: 0 <= i < |times| ==> times[i] <= clock)
  }

  ghost predicate Aged(times: seq<int>, clock: int, duration: int) {
    forall i :: 0 <= i < |times| ==> clock - times[i] >= duration
  }

  /** A limit of zero is served as a limit of one. */
  function Effective(max: int): (r: int) {
    if max == 0 then 1 else max
  }

  /** A key's grant times split into what was dropped and the queue; what was dropped no longer counts. */
  ghost predicate QueueAgrees(older: seq<int>, queue: seq<int>, clock: int, max: int, duration: int) {
    && Ordered(older + queue, clock)
    && 1 <= |queue| <= Effective(max)
    && (|queue| < max ==> Aged(older, clock, duration))
  }

  ghost predicate KeyAgrees(store: Store, times: seq<int>, clock: int, key: string, max: int, duration: int) {
    if key in store then
      |store[key]| <= |times| && times[|times| - |store[key]|..] == store[key]
      && QueueAgrees(times[..|times| - |store[key]|], store[key], clock, max, duration)
    else Ordered(times, clock) && Aged(times, clock, duration)
  }

  lemma KeyAgreesFromQueue(store: Store, times: seq<int>, clock: int, key: string, max: int, duration: int, older: seq<int>)
    requires key in store && times == older + store[key] && QueueAgrees(older, store[key], clock, max, duration)
    ensures KeyAgrees(store, times, clock, key, max, duration)
  {
  }

  lemma RoomInQueue(older: seq<int>, queue: seq<int>, clock: int, max: int, duration: int, now: int)
    requires QueueAgrees(older, queue, clock, max, duration) && clock <= now && |queue| < max
    ensures Recent(older + queue, now, duration) < max
    ensures QueueAgrees(older, queue + [now], now, max, duration)
  {
    RecentConcat(older, queue, now, duration);
    RecentBounds(older, now, duration);
    RecentBounds(queue, now, duration);
    assert older + (queue + [now]) == (older + queue) + [now];
  }

  lemma OldestExpired(older: seq<int>, queue: seq<int>, clock: int, max: int, duration: int, now: int)
    requires QueueAgrees(older, queue, clock, max, duration) && clock <= now
    requires |queue| >= max && now - queue[0] >= duration
    ensures Recent(older + queue, now, duration) < Effective(max)
    ensures QueueAgrees(older + [queue[0]], queue[1..] + [now], now, max, duration)
  {
    var oldest, younger := older + [queue[0]], queue[1..];
    assert older + queue == oldest + younger;
    RecentConcat(oldest, younger, now, duration);
    assert forall i :: 0 <= i < |oldest| ==> oldest[i] <= queue[0] by {
      assert (oldest + younger)[|older|] == queue[0];
      assert forall i :: 0 <= i < |oldest| ==> oldest[i] == (oldest + younger)[i];
    }
    RecentBounds(oldest, now, duration);
    RecentBounds(younger, now, duration);
    assert oldest + (younger + [now]) == (oldest + younger) + [now];
  }

  lemma OldestStillYoung(older: seq<int>, queue: seq<int>, clock: int, max: int, duration: int, now: int)
    requires QueueAgrees(older, queue, clock, max, duration)
    requires |queue| >= max && now - queue[0] < duration
    ensures Recent(older + queue, now, duration) >= Effective(max)
  {
    RecentConcat(older, queue, now, duration);
    RecentBounds(older, now, duration);
    assert forall i :: 0 <= i < |queue| ==> queue[i] == (older + queue)[|older| + i];
    RecentBounds(queue, now, duration);
  }

  /** What one request must achieve on its key: decide as the log does, and go on agreeing. */
  ghost predicate Served(store: Store, times: seq<int>, key: string, max: int, duration: int, now: int)
    requires key in store ==> store[key] != []
  {
    var ok := Grants(store, key, max, duration, now);
    && (ok <==> Recent(times, now, duration) < Effective(max))
    && KeyAgrees(AfterRequest(store, key, max, duration, now), if ok then times + [now] else times, now, key, max, duration)
  }

  lemma ServedAbsent(store: Store, times: seq<int>, clock: int, key: string, max: int, duration: int, now: int)
    requires key !in store && Ordered(times, clock) && Aged(times, clock, duration) && clock <= now && max >= 0
    ensures Served(store, times, key, max, duration, now)
  {
    RecentBounds(times, now, duration);
    KeyAgreesFromQueue(store[key := [now]], times + [now], now, key, max, duration, times);
  }

  lemma ServedWithRoom(store: Store, older: seq<int>, clock: int, key: string, max: int, duration: int, now: int)
    requires key in store && QueueAgrees(older, store[key], clock, max, duration) && clock <= now && |store[key]| < max
    ensures Served(store, older + store[key], key, max, duration, now)
  {
    var queue := store[key];
    RoomInQueue(older, queue, clock, max, duration, now);
    assert (older + queue) + [now] == older + (queue + [now]);
    KeyAgreesFromQueue(store[key := queue + [now]], (older + queue) + [now], now, key, max, duration, older);
  }

  lemma ServedByExpiry(store: Store, older: seq<int>, clock: int, key: string, max: int, duration: int, now: int)
    requires key in store && QueueAgrees(older, store[key], clock, max, duration) && clock <= now
    requires |store[key]| >= max && now - store[key][0] >= duration
    ensures Served(store, older + store[key], key, max, duration, now)
  {
    var queue := store[key];
    OldestExpired(older, queue, clock, max, duration, now);
    assert (older + queue) + [now] == (older + [queue[0]]) + (queue[1..] + [now]);
    KeyAgreesFromQueue(store[key := queue[1..] + [now]], (older + queue) + [now], now, key, max, duration, older + [queue[0]]);
  }

  lemma ServedByRefusal(store: Store, older: seq<int>, clock: int, key: string, max: int, duration: int, now: int)
    requires key in store && QueueAgrees(older, store[key], clock, max, duration) && clock <= now
    requires |store[key]| >= max && now - store[key][0] < duration
    ensures Served(store, older + store[key], key, max, duration, now)
  {
    OldestStillYoung(older, store[key], clock, max, duration, now);
    KeyAgreesFromQueue(store, older + store[key], now, key, max, duration, older);
  }

  lemma RequestAgrees(store: Store, times: seq<int>, clock: int, key: string, max: int, duration: int, now: int)
    requires KeyAgrees(store, times, clock, key, max, duration) && clock <= now && max >= 0
    ensures Served(store, times, key, max, duration, now)
  {
    if key !in store {
      ServedAbsent(store, times, clock, key, max, duration, now);
    } else {
      var older := times[..|times| - |store[key]|];
      assert times == older + store[key];
      if |store[key]| < max {
        ServedWithRoom(store, older, clock, key, max, duration, now);
      } else if now - store[key][0] >= duration {
        ServedByExpiry(store, older, clock, key, max, duration, now);
      } else {
        ServedByRefusal(store, older, clock, key, max, duration, now);
      }
    }
  }

  /** The newest grant bounds the age of all. */
  lemma NewestAged(times: seq<int>, clock: int, now: int, duration: int)
    requires Ordered(times, clock) && times != [] && now - times[|times| - 1] >= duration
    ensures Aged(times, now, duration)
  {
  }

  lemma KeptAgrees(store: Store, after: Store, times: seq<int>, clock: int, now: int, key: string, max: int, duration: int)
    requires KeyAgrees(store, times, clock, key, max, duration) && clock <= now
    requires key in store && key in after && after[key] == store[key]
    ensures KeyAgrees(after, times, now, key, max, duration)
  {
    var older := times[..|times| - |store[key]|];
    assert times == older + store[key];
    KeyAgreesFromQueue(after, times, now, key, max, duration, older);
  }

  /** A sweep forgets only keys whose every grant is past the window. */
  lemma SweepAgrees(store: Store, times: seq<int>, clock: int, key: string, max: int, duration: int, now: int, expiration: int)
    requires KeyAgrees(store, times, clock, key, max, duration) && clock <= now && duration <= expiration + 1
    ensures KeyAgrees(Swept(store, now, expiration), times, now, key, max, duration)
  {
    if key in store {
      var queue := store[key];
      if Expired(queue, now, expiration) {
        assert times == times[..|times| - |queue|] + queue;
        assert queue[|queue| - 1] == times[|times| - 1];
        NewestAged(times, clock, now, duration);
      } else {
        KeptAgrees(store, Swept(store, now, expiration), times, clock, now, key, max, duration);
      }
    }
  }

  lemma TimesOfSnoc(log: seq<Grant>, grant: Grant, key: string)
    ensures TimesOf(log + [grant], key) == if grant.key == key then TimesOf(log, key) + [grant.at] else TimesOf(log, key)
  {
    assert (log + [grant])[..|log|] == log;
  }

  ghost predicate Agrees(store: Store, log: seq<Grant>, clock: int, limit: string -> int, window: string -> int) {
    forall key :: KeyAgrees(store, TimesOf(log, key), clock, key, limit(key), window(key))
  }

  /** Another key's queue and times are untouched, and time only helps. */
  lemma OtherKeyAgrees(store: Store, after: Store, times: seq<int>, clock: int, now: int, key: string, max: int, duration: int)
    requires KeyAgrees(store, times, clock, key, max, duration) && clock <= now
    requires key in store <==> key in after
    requires key in store ==> store[key] == after[key]
    ensures KeyAgrees(after, times, now, key, max, duration)
  {
  }

  lemma AgreesAfterRequest(store: Store, log: seq<Grant>, clock: int, limit: string -> int, window: string -> int, key: string, now: int)
    requires Agrees(store, log, clock, limit, window) && NoEmptyQueue(store) && clock <= now && limit(key) >= 0
    ensures Grants(store, key, limit(key), window(key), now) <==> Allowed(log, key, limit(key), window(key), now)
    ensures Agrees(AfterRequest(store, key, limit(key), window(key), now), Logged(log, key, limit(key), window(key), now), now, limit, window)
  {
    var after, next := AfterRequest(store, key, limit(key), window(key), now), Logged(log, key, limit(key), window(key), now);
    RequestAgrees(store, TimesOf(log, key), clock, key, limit(key), window(key), now);
    TimesOfSnoc(log, Grant(key, now), key);
    forall other ensures KeyAgrees(after, TimesOf(next, other), now, other, limit(other), window(other)) {
      if other != key {
        TimesOfSnoc(log, Grant(key, now), other);
        OtherKeyAgrees(store, after, TimesOf(log, other), clock, now, other, limit(other), window(other));
      }
    }
  }

  lemma AgreesAfterSweep(store: Store, log: seq<Grant>, clock: int, limit: string -> int, window: string -> int, now: int, expiration: int)
    requires Agrees(store, log, clock, limit, window) && clock <= now
    requires forall key :: window(key) <= expiration + 1
    ensures Agrees(Swept(store, now, expiration), log, now, limit, window)
  {
    forall key ensures KeyAgrees(Swept(store, now, expiration), TimesOf(log, key), now, key, limit(key), window(key)) {
      assert KeyAgrees(store, TimesOf(log, key), clock, key, limit(key), window(key));
      SweepAgrees(store, TimesOf(log, key), clock, key, limit(key), window(key), now, expiration);
    }
  }

  /** The cleaner runs only when it was started. */
  ghost predicate SweptOnly(ops: seq<Op>, sweeping: bool) {
    forall i :: 0 <= i < |ops| ==> ops[i].Sweep? ==> sweeping
  }

  /** From any agreeing state the limiter and the log make the same decisions, sweeps or not. */
  lemma {:induction false} RunAgrees(store: Store, log: seq<Grant>, clock: int, ops: seq<Op>, expiration: int, sweeping: bool,
                                     limit: string -> int, window: string -> int)
    requires NoEmptyQueue(store) && Agrees(store, log, clock, limit, window) && Steady(ops, clock, limit, window)
    requires SweptOnly(ops, sweeping) && (sweeping ==> forall key :: window(key) <= expiration + 1)
    ensures Decisions(store, ops, expiration) == SpecDecisions(log, ops)
    decreases |ops|
  {
    if ops != [] {
      match ops[0] {
        case Request(key, max, duration, now) =>
          AgreesAfterRequest(store, log, clock, limit, window, key, now);
          RunAgrees(AfterRequest(store, key, max, duration, now), Logged(log, key, max, duration, now), now, ops[1..], expiration, sweeping, limit, window);
        case Sweep(now) =>
          AgreesAfterSweep(store, log, clock, limit, window, now, expiration);
          RunAgrees(Swept(store, now, expiration), log, now, ops[1..], expiration, sweeping, limit, window);
      }
    }
  }

  /** Every decision of every steady run is the sliding-window decision on the full log of grants. */
  lemma LimiterRefinesLog(ops: seq<Op>, clock: int, expiration: int, sweeping: bool, limit: string -> int, window: string -> int)
    requires Steady(ops, clock, limit, window)
    requires SweptOnly(ops, sweeping) && (sweeping ==> forall key :: window(key) <= expiration + 1)
    ensures Decisions(map[], ops, expiration) == SpecDecisions([], ops)
  {
    RunAgrees(map[], [], clock, ops, expiration, sweeping, limit, window);
  }

  // ---- No window holds more grants than the limit ----

  ghost function CountIn(times: seq<int>, from: int, until: int): int {
    if times == [] then 0
    else CountIn(times[..|times| - 1], from, until) + if from <= times[|times| - 1] < until then 1 else 0
  }

  lemma {:induction false} WindowIsRecent(times: seq<int>, from: int, duration: int, now: int)
    requires now < from + duration
    ensures CountIn(times, from, from + duration) <= Recent(times, now, duration)
  {
    if times != [] {
      WindowIsRecent(times[..|times| - 1], from, duration, now);
    }
  }

  ghost predicate Bounded(log: seq<Grant>, key: string, from: int, limit: string -> int, window: string -> int) {
    CountIn(TimesOf(log, key), from, from + window(key)) <= Effective(limit(key))
  }

  lemma CountInSnoc(times: seq<int>, at: int, from: int, until: int)
    ensures CountIn(times + [at], from, until) == CountIn(times, from, until) + if from <= at < until then 1 else 0
  {
    assert (times + [at])[..|times|] == times;
  }

  /** Granting a request the log allows fills no window beyond the limit. */
  lemma GrantFits(times: seq<int>, from: int, duration: int, now: int, limit: int)
    requires Recent(times, now, duration) < limit && CountIn(times, from, from + duration) <= limit
    ensures CountIn(times + [now], from, from + duration) <= limit
  {
    CountInSnoc(times, now, from, from + duration);
    if now < from + duration {
      WindowIsRecent(times, from, duration, now);
    }
  }

  lemma BoundedAfterRequest(log: seq<Grant>, limit: string -> int, window: string -> int, key: string, now: int, other: string, from: int)
    requires Bounded(log, other, from, limit, window)
    ensures Bounded(Logged(log, key, limit(key), window(key), now), other, from, limit, window)
  {
    TimesOfSnoc(log, Grant(key, now), other);
    if other == key && Allowed(log, key, limit(key), window(key), now) {
      GrantFits(TimesOf(log, key), from, window(key), now, Effective(limit(key)));
    }
  }

  /** Over every steady run, no key is granted more than its limit in any stretch as long as its window. */
  lemma {:induction false} GrantsStayBounded(log: seq<Grant>, ops: seq<Op>, clock: int, limit: string -> int, window: string -> int)
    requires Steady(ops, clock, limit, window)
    requires forall key, from :: Bounded(log, key, from, limit, window)
    ensures forall key, from :: Bounded(SpecLog(log, ops), key, from, limit, window)
    decreases |ops|
  {
    if ops != [] {
      match ops[0] {
        case Request(key, max, duration, now) =>
          forall other, from ensures Bounded(Logged(log, key, max, duration, now), other, from, limit, window) {
            BoundedAfterRequest(log, limit, window, key, now, other, from);
          }
          GrantsStayBounded(Logged(log, key, max, duration, now), ops[1..], now, limit, window);
        case Sweep(now) =>
          GrantsStayBounded(log, ops[1..], now, limit, window);
      }
    }
  }

  /** The grants that a list of decisions on a run stands for. */
  ghost function GrantedLog(log: seq<Grant>, ops: seq<Op>, decisions: seq<bool>): seq<Grant>
    decreases |ops|
  {
    if ops == [] || decisions == [] then log
    else match ops[0]
      case Request(key, max, duration, now) =>
        GrantedLog(if decisions[0] then log + [Grant(key, now)] else log, ops[1..], decisions[1..])
      case Sweep(_) => GrantedLog(log, ops[1..], decisions)
  }

  lemma {:induction false} SpecLogIsGranted(log: seq<Grant>, ops: seq<Op>)
    ensures GrantedLog(log, ops, SpecDecisions(log, ops)) == SpecLog(log, ops)
    decreases |ops|
  {
    if ops != [] {
      match ops[0]
      case Request(key, max, duration, now) =>
        var next := Logged(log, key, max, duration, now);
        SpecLogIsGranted(next, ops[1..]);
        assert SpecDecisions(log, ops)[1..] == SpecDecisions(next, ops[1..]);
      case Sweep(_) =>
        SpecLogIsGranted(log, ops[1..]);
        if SpecDecisions(log, ops) == [] {
          NoRequests(log, ops);
        }
    }
  }

  lemma {:induction false} NoRequests(log: seq<Grant>, ops: seq<Op>)
    requires SpecDecisions(log, ops) == []
    ensures SpecLog(log, ops) == log
    decreases |ops|
  {
    if ops != [] {
      NoRequests(log, ops[1..]);
    }
  }

  /** So in every steady run the limiter itself never grants a key more than its limit within its window. */
  lemma LimiterStaysBounded(ops: seq<Op>, clock: int, expiration: int, sweeping: bool, limit: string -> int, window: string -> int,
                            key: string, from: int)
    requires Steady(ops, clock, limit, window) && SweptOnly(ops, sweeping)
    requires (sweeping ==> forall key :: window(key) <= expiration + 1) && forall key :: limit(key) >= 0
    ensures Bounded(GrantedLog([], ops, Decisions(map[], ops, expiration)), key, from, limit, window)
  {
    LimiterRefinesLog(ops, clock, expiration, sweeping, limit, window);
    SpecLogIsGranted([], ops);
    forall other, start ensures Bounded([], other, start, limit, window) {
      assert TimesOf([], other) == [] && limit(other) >= 0;
    }
    GrantsStayBounded([], ops, clock, limit, window);
  }

  // ---- One decision, in terms of the requests granted before it ----

  /** The grants of a key after this time, by their position in the log. */
  ghost function GrantsAfter(log: seq<Grant>, key: string, time: int): set<int> {
    set i | 0 <= i < |log| && log[i].key == key && log[i].at > time
  }

  lemma GrantsAfterSnoc(log: seq<Grant>, front: seq<Grant>, last: Grant, key: string, time: int)
    requires log == front + [last]
    ensures |GrantsAfter(log, key, time)| == |GrantsAfter(front, key, time)| + if last.key == key && last.at > time then 1 else 0
  {
    var before, after := GrantsAfter(front, key, time), GrantsAfter(log, key, time);
    assert log[|front|] == last && forall i :: 0 <= i < |front| ==> log[i] == front[i];
    if last.key == key && last.at > time {
      assert after == before + {|front|};
    } else {
      assert after == before;
    }
  }

  lemma RecentSnoc(times: seq<int>, at: int, now: int, duration: int)
    ensures Recent(times + [at], now, duration) == Recent(times, now, duration) + if at > now - duration then 1 else 0
  {
    assert (times + [at])[..|times|] == times;
  }

  lemma {:induction false} RecentIsGrants(log: seq<Grant>, key: string, now: int, duration: int)
    ensures Recent(TimesOf(log, key), now, duration) == |GrantsAfter(log, key, now - duration)|
  {
    if log == [] {
      assert GrantsAfter(log, key, now - duration) == {};
    } else {
      var front, last := log[..|log| - 1], log[|log| - 1];
      assert log == front + [last];
      RecentIsGrants(front, key, now, duration);
      GrantsAfterSnoc(log, front, last, key, now - duration);
      RecentSnoc(TimesOf(front, key), last.at, now, duration);
    }
  }

  lemma {:induction false} LastDecision(log: seq<Grant>, before: seq<Op>, last: Op)
    requires last.Request?
    ensures SpecDecisions(log, before + [last]) == SpecDecisions(log, before) + [Allowed(SpecLog(log, before), last.key, last.max, last.duration, last.now)]
    decreases |before|
  {
    var ops := before + [last];
    if before == [] {
      assert ops[1..] == [];
    } else {
      assert ops[1..] == before[1..] + [last];
      match before[0]
      case Request(key, max, duration, now) => LastDecision(Logged(log, key, max, duration, now), before[1..], last);
      case Sweep(_) => LastDecision(log, before[1..], last);
    }
  }

  lemma {:induction false} SteadyFront(before: seq<Op>, last: Op, clock: int, limit: string -> int, window: string -> int)
    requires Steady(before + [last], clock, limit, window)
    ensures Steady(before, clock, limit, window) && (last.Request? ==> last.max >= 0)
    decreases |before|
  {
    var ops := before + [last];
    if before == [] {
      assert ops[0] == last;
    } else {
      assert ops[0] == before[0] && ops[1..] == before[1..] + [last];
      SteadyFront(before[1..], last, before[0].now, limit, window);
    }
  }

  ghost predicate GrantedLast(decisions: seq<bool>, granted: seq<Grant>, last: Op)
    requires last.Request?
  {
    && |decisions| > 0
    && (decisions[|decisions| - 1] <==> |GrantsAfter(granted, last.key, last.now - last.duration)| < if last.max == 0 then 1 else last.max)
  }

  lemma LastIsAllowed(front: seq<bool>, log: seq<Grant>, last: Op)
    requires last.Request?
    ensures GrantedLast(front + [Allowed(log, last.key, last.max, last.duration, last.now)], log, last)
  {
    RecentIsGrants(log, last.key, last.now, last.duration);
  }

  lemma SweptFront(before: seq<Op>, last: Op, sweeping: bool)
    requires SweptOnly(before + [last], sweeping)
    ensures SweptOnly(before, sweeping)
  {
    assert forall i :: 0 <= i < |before| ==> (before + [last])[i] == before[i];
  }

  /** A request is granted exactly when fewer than its limit were granted to its key less than a window ago; a limit of zero acts as one. */
  lemma LimiterDecides(before: seq<Op>, last: Op, ops: seq<Op>, clock: int, expiration: int, sweeping: bool, limit: string -> int, window: string -> int)
    requires ops == before + [last] && last.Request? && Steady(ops, clock, limit, window) && SweptOnly(ops, sweeping)
    requires sweeping ==> forall key :: window(key) <= expiration + 1
    ensures GrantedLast(Decisions(map[], ops, expiration), GrantedLog([], before, Decisions(map[], before, expiration)), last)
  {
    SteadyFront(before, last, clock, limit, window);
    SweptFront(before, last, sweeping);
    LimiterRefinesLog(ops, clock, expiration, sweeping, limit, window);
    LimiterRefinesLog(before, clock, expiration, sweeping, limit, window);
    LastDecision([], before, last);
    SpecLogIsGranted([], before);
    LastIsAllowed(SpecDecisions([], before), SpecLog([], before), last);
  }

  // ---- An expiration shorter than the window breaks the rule ----

  ghost function Zeros(n: nat): seq<int> {
    seq(n, _ => 0)
  }

  ghost function Yes(n: nat): seq<bool> {
    seq(n, _ => true)
  }

  ghost function Burst(key: string, max: int, duration: int, n: nat): seq<Op> {
    seq(n, _ => Request(key, max, duration, 0))
  }

  ghost function BurstLog(key: string, n: nat): seq<Grant> {
    seq(n, _ => Grant(key, 0))
  }

  lemma FirstRequest(store: Store, log: seq<Grant>, key: string, max: int, duration: int, now: int, rest: seq<Op>, expiration: int)
    requires NoEmptyQueue(store)
    ensures var ops := [Request(key, max, duration, now)] + rest;
            && Decisions(store, ops, expiration) ==
               [Grants(store, key, max, duration, now)] + Decisions(AfterRequest(store, key, max, duration, now), rest, expiration)
            && SpecDecisions(log, ops) ==
               [Allowed(log, key, max, duration, now)] + SpecDecisions(Logged(log, key, max, duration, now), rest)
  {
    var ops := [Request(key, max, duration, now)] + rest;
    assert ops[0] == Request(key, max, duration, now) && ops[1..] == rest;
  }

  lemma FirstSweep(store: Store, log: seq<Grant>, now: int, rest: seq<Op>, expiration: int)
    requires NoEmptyQueue(store)
    ensures Decisions(store, [Sweep(now)] + rest, expiration) == Decisions(Swept(store, now, expiration), rest, expiration)
    ensures SpecDecisions(log, [Sweep(now)] + rest) == SpecDecisions(log, rest)
  {
    var ops := [Sweep(now)] + rest;
    assert ops[0] == Sweep(now) && ops[1..] == rest;
  }

  lemma {:induction false} BurstTimes(key: string, n: nat)
    ensures TimesOf(BurstLog(key, n), key) == Zeros(n)
  {
    if n > 0 {
      BurstTimes(key, n - 1);
      assert BurstLog(key, n)[..n - 1] == BurstLog(key, n - 1);
      assert Zeros(n - 1) + [0] == Zeros(n);
    }
  }

  /** One request of the burst: granted by both sides, which stay in step. */
  lemma BurstStep(key: string, max: int, duration: int, k: nat)
    requires 1 <= k < max
    ensures Grants(map[key := Zeros(k)], key, max, duration, 0)
    ensures AfterRequest(map[key := Zeros(k)], key, max, duration, 0) == map[key := Zeros(k + 1)]
    ensures Allowed(BurstLog(key, k), key, max, duration, 0)
    ensures Logged(BurstLog(key, k), key, max, duration, 0) == BurstLog(key, k + 1)
  {
    assert Zeros(k) + [0] == Zeros(k + 1);
    BurstTimes(key, k);
    RecentBounds(Zeros(k), 0, duration);
    assert BurstLog(key, k) + [Grant(key, 0)] == BurstLog(key, k + 1);
  }

  lemma BurstQueueStep(key: string, max: int, duration: int, k: nat, rest: seq<Op>, expiration: int)
    requires 1 <= k < max
    ensures Decisions(map[key := Zeros(k)], [Request(key, max, duration, 0)] + rest, expiration) ==
            [true] + Decisions(map[key := Zeros(k + 1)], rest, expiration)
  {
    FirstRequest(map[key := Zeros(k)], [], key, max, duration, 0, rest, expiration);
    BurstStep(key, max, duration, k);
  }

  /** A burst at time zero fills the queue from k entries to m. */
  lemma {:induction false} BurstFillsQueue(key: string, max: int, duration: int, k: nat, m: nat, tail: seq<Op>, expiration: int)
    requires 1 <= k <= m <= Effective(max) && max >= 0
    ensures Decisions(map[key := Zeros(k)], Burst(key, max, duration, m - k) + tail, expiration) ==
            Yes(m - k) + Decisions(map[key := Zeros(m)], tail, expiration)
    decreases m - k
  {
    if k == m {
      assert Burst(key, max, duration, 0) + tail == tail;
      assert Yes(0) + Decisions(map[key := Zeros(m)], tail, expiration) == Decisions(map[key := Zeros(m)], tail, expiration);
    } else {
      var rest := Burst(key, max, duration, m - k - 1) + tail;
      assert Burst(key, max, duration, m - k) + tail == [Request(key, max, duration, 0)] + rest;
      BurstQueueStep(key, max, duration, k, rest, expiration);
      BurstFillsQueue(key, max, duration, k + 1, m, tail, expiration);
      YesGrows(m - k, Decisions(map[key := Zeros(m)], tail, expiration));
    }
  }

  /** The same burst in the log. */
  lemma {:induction false} BurstFillsLog(key: string, max: int, duration: int, k: nat, m: nat, tail: seq<Op>)
    requires 1 <= k <= m <= Effective(max) && max >= 0
    ensures SpecDecisions(BurstLog(key, k), Burst(key, max, duration, m - k) + tail) ==
            Yes(m - k) + SpecDecisions(BurstLog(key, m), tail)
    decreases m - k
  {
    if k == m {
      assert Burst(key, max, duration, 0) + tail == tail;
      assert Yes(0) + SpecDecisions(BurstLog(key, m), tail) == SpecDecisions(BurstLog(key, m), tail);
    } else {
      var rest := Burst(key, max, duration, m - k - 1) + tail;
      assert Burst(key, max, duration, m - k) + tail == [Request(key, max, duration, 0)] + rest;
      FirstRequest(map[], BurstLog(key, k), key, max, duration, 0, rest, 0);
      BurstStep(key, max, duration, k);
      BurstFillsLog(key, max, duration, k + 1, m, tail);
      YesGrows(m - k, SpecDecisions(BurstLog(key, m), tail));
    }
  }

  lemma YesGrows(n: nat, tail: seq<bool>)
    requires n > 0
    ensures [true] + (Yes(n - 1) + tail) == Yes(n) + tail
  {
  }

  /** A full queue swept before its window ends: the limiter grants what the log refuses. */
  lemma SweptTooEarly(key: string, max: int, duration: int, expiration: int)
    requires max >= 0 && expiration >= 0 && duration > expiration + 1
    ensures var tail := [Sweep(expiration + 1)] + ([Request(key, max, duration, expiration + 1)] + []);
            && Decisions(map[key := Zeros(Effective(max))], tail, expiration) == [true]
            && SpecDecisions(BurstLog(key, Effective(max)), tail) == [false]
  {
    var at := expiration + 1;
    var full, log := map[key := Zeros(Effective(max))], BurstLog(key, Effective(max));
    FirstSweep(full, log, at, [Request(key, max, duration, at)] + [], expiration);
    assert Swept(full, at, expiration) == map[];
    FirstRequest(map[], log, key, max, duration, at, [], expiration);
    BurstTimes(key, Effective(max));
    RecentBounds(Zeros(Effective(max)), at, duration);
  }

  /** The run that shows it: a full burst, one sweep, one more request. */
  lemma RefinementFails(key: string, max: int, duration: int, expiration: int) returns (ops: seq<Op>)
    requires max >= 0 && expiration >= 0 && duration > expiration + 1
    ensures Uniform(ops, 0, max, duration)
    ensures Decisions(map[], ops, expiration) != SpecDecisions([], ops)
  {
    var tail := [Sweep(expiration + 1)] + ([Request(key, max, duration, expiration + 1)] + []);
    var full := Effective(max);
    var later := Burst(key, max, duration, full - 1) + tail;
    ops := [Request(key, max, duration, 0)] + later;
    FirstRequest(map[], [], key, max, duration, 0, later, expiration);
    FirstOfBurst(key, max, duration);
    BurstFillsQueue(key, max, duration, 1, full, tail, expiration);
    BurstFillsLog(key, max, duration, 1, full, tail);
    SweptTooEarly(key, max, duration, expiration);
    LastDiffers(full - 1);
    BurstIsSteady(key, max, duration, full - 1, tail);
  }

  lemma FirstOfBurst(key: string, max: int, duration: int)
    requires max >= 0
    ensures Grants(map[], key, max, duration, 0) && AfterRequest(map[], key, max, duration, 0) == map[key := Zeros(1)]
    ensures Allowed([], key, max, duration, 0) && Logged([], key, max, duration, 0) == BurstLog(key, 1)
  {
    assert Zeros(1) == [0];
  }

  lemma LastDiffers(n: nat)
    ensures [true] + (Yes(n) + [true]) != [true] + (Yes(n) + [false])
  {
    assert ([true] + (Yes(n) + [true]))[n + 1] != ([true] + (Yes(n) + [false]))[n + 1];
  }

  lemma {:induction false} BurstIsSteady(key: string, max: int, duration: int, n: nat, tail: seq<Op>)
    requires Uniform(tail, 0, max, duration) && max >= 0
    ensures Uniform([Request(key, max, duration, 0)] + (Burst(key, max, duration, n) + tail), 0, max, duration)
  {
    var ops := Burst(key, max, duration, n) + tail;
    if n == 0 {
      assert ops == tail;
    } else {
      assert ops == [Request(key, max, duration, 0)] + (Burst(key, max, duration, n - 1) + tail);
      BurstIsSteady(key, max, duration, n - 1, tail);
    }
    assert ([Request(key, max, duration, 0)] + ops)[1..] == ops;
  }

  /** A steady run in which all keys share one limit and window. */
  ghost predicate Uniform(ops: seq<Op>, clock: int, max: int, duration: int) {
    Steady(ops, clock, _ => max, _ => duration)
  }

  ghost predicate AlwaysRefines(max: int, duration: int, expiration: int, sweeping: bool) {
    forall ops, clock :: Uniform(ops, clock, max, duration) && SweptOnly(ops, sweeping) ==>
      Decisions(map[], ops, expiration) == SpecDecisions([], ops)
  }

  /** For one limit and window, the limiter is the sliding-window rule exactly when nothing is swept or entries outlive the window. */
  lemma RefinesIff(max: int, duration: int, expiration: int, sweeping: bool)
    requires max >= 0 && expiration >= 0
    ensures AlwaysRefines(max, duration, expiration, sweeping) <==> !sweeping || duration <= expiration + 1
  {
    if !sweeping || duration <= expiration + 1 {
      forall ops, clock | Uniform(ops, clock, max, duration) && SweptOnly(ops, sweeping)
        ensures Decisions(map[], ops, expiration) == SpecDecisions([], ops)
      {
        LimiterRefinesLog(ops, clock, expiration, sweeping, _ => max, _ => duration);
      }
    } else {
      var ops := RefinementFails("", max, duration, expiration);
      assert SweptOnly(ops, sweeping);
    }
  }
}
