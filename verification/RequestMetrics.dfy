/** The ring of five-minute request counters and the success rate read from it. */
module RequestMetrics {
  import opened Lists

  const BucketSeconds := 300
  const Buckets := 12
  const MinSamples := 15

  datatype Bucket = Bucket(start: int, total: int, success: int)

  datatype Event = Event(at: int, success: bool)

  /** The number of the five-minute slot a time falls in. */
  function Slot(at: int): (r: int) {
    at / BucketSeconds
  }

  // ---- The full history ----

  ghost function CountIn(log: seq<Event>, slot: int): int {
    if log == [] then 0
    else CountIn(log[..|log| - 1], slot) + if Slot(log[|log| - 1].at) == slot then 1 else 0
  }

  ghost function SuccessIn(log: seq<Event>, slot: int): int {
    if log == [] then 0
    else SuccessIn(log[..|log| - 1], slot) + if Slot(log[|log| - 1].at) == slot && log[|log| - 1].success then 1 else 0
  }

  /** Totals over the w slots ending with the given one. */
  ghost function CountOver(log: seq<Event>, slot: int, w: nat): int {
    if w == 0 then 0 else CountOver(log, slot, w - 1) + CountIn(log, slot - (w - 1))
  }

  ghost function SuccessOver(log: seq<Event>, slot: int, w: nat): int {
    if w == 0 then 0 else SuccessOver(log, slot, w - 1) + SuccessIn(log, slot - (w - 1))
  }

  /** math.Round on a non-negative value. */
  function RoundHalfUp(x: real): (r: int)
    requires x >= 0.0
    ensures r as real - 0.5 <= x < r as real + 0.5
  {
    (x + 0.5).Floor
  }

  /** Success percentage to one decimal. */
  function Rate(success: int, total: int): (r: real)
    requires 0 <= success && 0 < total
  {
    RoundHalfUp(success as real / total as real * 1000.0) as real / 10.0
  }

  // ---- The ring agrees with the history ----

  /** A slot's counts as the ring reports them: zero unless the bucket carries that slot's start. */
  ghost predicate BucketAgrees(bucket: Bucket, log: seq<Event>, slot: int) {
    if bucket.start == slot * BucketSeconds
    then bucket.total == CountIn(log, slot) && bucket.success == SuccessIn(log, slot)
    else CountIn(log, slot) == 0 && SuccessIn(log, slot) == 0
  }

  /** The last twelve slots up to the newest are all readable, and no bucket is ahead of it. */
  ghost predicate RingAgrees(ring: seq<Bucket>, log: seq<Event>, newest: int) {
    && |ring| == Buckets
    && newest >= 0
    && (forall i :: 0 <= i < |log| ==> 0 <= Slot(log[i].at) <= newest)
    && (forall i :: 0 <= i < Buckets ==> ring[i].start <= newest * BucketSeconds)
    && (forall slot :: newest - Buckets < slot <= newest && slot >= 0 ==> BucketAgrees(ring[slot % Buckets], log, slot))
  }

  lemma CountSnoc(log: seq<Event>, e: Event, slot: int)
    ensures CountIn(log + [e], slot) == CountIn(log, slot) + if Slot(e.at) == slot then 1 else 0
    ensures SuccessIn(log + [e], slot) == SuccessIn(log, slot) + if Slot(e.at) == slot && e.success then 1 else 0
  {
    assert (log + [e])[..|log|] == log;
  }

  lemma {:induction false} CountBounds(log: seq<Event>, slot: int)
    ensures 0 <= SuccessIn(log, slot) <= CountIn(log, slot)
    ensures (forall i :: 0 <= i < |log| ==> Slot(log[i].at) != slot) ==> CountIn(log, slot) == 0
  {
    if log != [] {
      CountBounds(log[..|log| - 1], slot);
    }
  }

  /** Slots less than a ring apart use different buckets. */
  lemma BucketsDiffer(a: int, b: int)
    requires 0 <= a && 0 <= b && a != b && -Buckets < a - b < Buckets
    ensures a % Buckets != b % Buckets
  {
  }

  /** Any slot from the last twelve on, even a future one, reads exactly its history. */
  lemma RingReadsHistory(ring: seq<Bucket>, log: seq<Event>, newest: int, slot: int)
    requires RingAgrees(ring, log, newest) && newest - Buckets < slot && slot >= 0
    ensures BucketAgrees(ring[slot % Buckets], log, slot)
  {
    CountBounds(log, slot);
    if slot <= newest {
      assert BucketAgrees(ring[slot % Buckets], log, slot);
    }
  }

  /** The bucket after one more event of its slot, reset first when it still belongs to an older slot. */
  function Counted(bucket: Bucket, start: int, success: bool): (r: Bucket) {
    var current := if bucket.start != start then Bucket(start, 0, 0) else bucket;
    Bucket(start, current.total + 1, current.success + if success then 1 else 0)
  }

  function Max(a: int, b: int): (r: int) {
    if a > b then a else b
  }

  /** Counting an event keeps the ring in step with the history unless it is an hour or more late. */
  lemma ObserveKeepsRing(ring: seq<Bucket>, log: seq<Event>, newest: int, e: Event)
    requires RingAgrees(ring, log, newest) && e.at >= 0 && Slot(e.at) > newest - Buckets
    ensures var slot := Slot(e.at);
            RingAgrees(ring[slot % Buckets := Counted(ring[slot % Buckets], slot * BucketSeconds, e.success)], log + [e], Max(newest, slot))
  {
    var slot, next := Slot(e.at), Max(newest, Slot(e.at));
    var after := ring[slot % Buckets := Counted(ring[slot % Buckets], slot * BucketSeconds, e.success)];
    forall other | next - Buckets < other <= next && other >= 0
      ensures BucketAgrees(after[other % Buckets], log + [e], other)
    {
      CountSnoc(log, e, other);
      RingReadsHistory(ring, log, newest, other);
      if other != slot {
        BucketsDiffer(other, slot);
      }
    }
  }

  /** The readable slot that shares a bucket with an event a full ring or more behind the newest. */
  function Victim(newest: int, slot: int): (r: int)
    requires slot <= newest - Buckets
    ensures newest - Buckets < r <= newest && r > slot && r % Buckets == slot % Buckets
  {
    newest - (newest - slot) % Buckets
  }

  /** Such a late event keeps the ring in step exactly when the slot it overwrites is empty. */
  lemma LateObserveIff(ring: seq<Bucket>, log: seq<Event>, newest: int, e: Event)
    requires RingAgrees(ring, log, newest) && e.at >= 0 && Slot(e.at) <= newest - Buckets
    ensures var slot := Slot(e.at);
            RingAgrees(ring[slot % Buckets := Counted(ring[slot % Buckets], slot * BucketSeconds, e.success)], log + [e], newest)
            <==> CountIn(log, Victim(newest, slot)) == 0
  {
    var slot, victim := Slot(e.at), Victim(newest, Slot(e.at));
    var after := ring[slot % Buckets := Counted(ring[slot % Buckets], slot * BucketSeconds, e.success)];
    CountSnoc(log, e, victim);
    CountBounds(log, victim);
    if CountIn(log, victim) != 0 {
      assert !BucketAgrees(after[victim % Buckets], log + [e], victim);
    } else {
      forall other | newest - Buckets < other <= newest && other >= 0
        ensures BucketAgrees(after[other % Buckets], log + [e], other)
      {
        CountSnoc(log, e, other);
        assert BucketAgrees(ring[other % Buckets], log, other);
        if other != victim {
          BucketsDiffer(other, victim);
        }
      }
    }
  }

  /** An event in this slot leaves the ring in step with the history. */
  ghost predicate KeepsRing(log: seq<Event>, newest: int, slot: int) {
    slot > newest - Buckets || CountIn(log, Victim(newest, slot)) == 0
  }

  /** Counting an event keeps the ring in step exactly then. */
  lemma ObserveIff(ring: seq<Bucket>, log: seq<Event>, newest: int, e: Event)
    requires RingAgrees(ring, log, newest) && e.at >= 0
    ensures var slot := Slot(e.at);
            RingAgrees(ring[slot % Buckets := Counted(ring[slot % Buckets], slot * BucketSeconds, e.success)], log + [e], Max(newest, slot))
            <==> KeepsRing(log, newest, slot)
  {
    if Slot(e.at) > newest - Buckets {
      ObserveKeepsRing(ring, log, newest, e);
    } else {
      LateObserveIff(ring, log, newest, e);
    }
  }

  class Metrics {
    const buckets: array<Bucket>
    /** Every event observed so far, and the newest slot among them. */
    ghost var log: seq<Event>
    ghost var newest: int

    /** Twelve buckets, none with more successes than events. */
    ghost predicate Shaped()
      reads this, buckets
    {
      buckets.Length == Buckets && forall i :: 0 <= i < Buckets ==> 0 <= buckets[i].success <= buckets[i].total
    }

    ghost predicate Valid()
      reads this, buckets
    {
      RingAgrees(buckets[..], log, newest)
    }

    constructor ()
      ensures Shaped() && Valid() && fresh(buckets) && log == [] && newest == 0
    {
      buckets := new Bucket[Buckets](_ => Bucket(0, 0, 0));
      log, newest := [], 0;
    }

    /**
     * ObserveRequestOutcome; the time is read before the lock, so it may lag behind.
     * The ring stays in step with the history unless the event is a full ring late
     * and overwrites a slot with events.
     */
    method ObserveRequestOutcome(success: bool, now: int)
      requires Shaped() && now >= 0
      modifies this, buckets
      ensures Shaped()
      ensures log == old(log) + [Event(now, success)] && newest == Max(old(newest), Slot(now))
      ensures var slot := Slot(now);
              buckets[..] == old(buckets[..])[slot % Buckets := Counted(old(buckets[slot % Buckets]), slot * BucketSeconds, success)]
      ensures old(Valid()) ==> (Valid() <==> KeepsRing(old(log), old(newest), Slot(now)))
    {
      if Valid() {
        ObserveIff(buckets[..], log, newest, Event(now, success));
      }
      Count(success, now);
      log, newest := log + [Event(now, success)], Max(newest, Slot(now));
    }

    method Count(success: bool, now: int)
      requires Shaped() && now >= 0
      modifies buckets
      ensures Shaped()
      ensures var slot := Slot(now);
              buckets[..] == old(buckets[..])[slot % Buckets := Counted(old(buckets[slot % Buckets]), slot * BucketSeconds, success)]
    {
      var start := now - now % BucketSeconds;
      StartOfSlot(now);
      var index := start / BucketSeconds % Buckets;
      if buckets[index].start != start {
        buckets[index] := Bucket(start, 0, 0);
      }
      buckets[index] := buckets[index].(total := buckets[index].total + 1);
      if success {
        buckets[index] := buckets[index].(success := buckets[index].success + 1);
      }
      assert buckets[..] == old(buckets[..])[index := Counted(old(buckets[index]), start, success)];
    }

    /**
     * GetRequestSuccessRate: the rate over the smallest recent window with enough
     * samples, and nothing when a whole hour has too few. The clock is read before
     * the lock: a query behind the newest slot still answers from the history as
     * long as that window lies within the hour before the newest slot.
     */
    method GetRequestSuccessRate(now: int) returns (rate: Option<real>)
      requires Shaped() && now >= (Buckets - 1) * BucketSeconds
      ensures Valid() && Slot(now) >= newest ==> IsRate(log, Slot(now), rate) && AnswersFrom(log, now - now % 300, rate)
      ensures Valid() ==> forall w :: 1 <= w <= Readable(newest, Slot(now)) && Least(log, Slot(now), w) ==>
                            rate.Some? && IsRateOver(log, Slot(now), w, rate.value)
    {
      var currentStart := now - now % BucketSeconds;
      StartOfSlot(now);
      ghost var readable := if Valid() then Readable(newest, Slot(now)) else -1;
      var total, success := 0, 0;
      for i := 0 to Buckets
        invariant i <= readable ==> total == CountOver(log, Slot(now), i) && success == SuccessOver(log, Slot(now), i)
        invariant 0 <= success <= total < MinSamples
        invariant TooFew(log, Slot(now), i, readable)
      {
        var start := currentStart - i * BucketSeconds;
        var index := start / BucketSeconds % Buckets;
        var bucket := buckets[index];
        if i < readable {
          RingReadsHistory(buckets[..], log, newest, Slot(now) - i);
          OverStep(log, Slot(now), i);
        }
        if bucket.start != start {
          TooFewGrows(log, Slot(now), i, readable);
          continue;
        }
        total := total + bucket.total;
        success := success + bucket.success;
        if total < MinSamples {
          TooFewGrows(log, Slot(now), i, readable);
          continue;
        }
        if i < readable {
          RateFound(log, Slot(now), i + 1);
          LeastUnique(log, Slot(now), i + 1);
        }
        rate := Some(Rate(success, total));
        if readable == Buckets {
          RateAnswers(log, now, rate);
        }
        return;
      }
      rate := None;
      if readable == Buckets {
        RateAnswers(log, now, rate);
      }
    }
  }

  /** How many slots back from this one the ring still reads right. */
  function Readable(newest: int, slot: int): (r: int) {
    if slot >= newest then Buckets else slot - newest + Buckets
  }

  /** The least window with enough samples. */
  ghost predicate Least(log: seq<Event>, slot: int, w: nat) {
    CountOver(log, slot, w) >= MinSamples && forall v :: 0 <= v < w ==> CountOver(log, slot, v) < MinSamples
  }

  /** No readable window of up to this many slots has enough. */
  ghost predicate TooFew(log: seq<Event>, slot: int, upTo: int, readable: int) {
    forall v :: 0 <= v <= upTo && v <= readable ==> CountOver(log, slot, v) < MinSamples
  }

  lemma TooFewGrows(log: seq<Event>, slot: int, i: nat, readable: int)
    requires TooFew(log, slot, i, readable) && (i < readable ==> CountOver(log, slot, i + 1) < MinSamples)
    ensures TooFew(log, slot, i + 1, readable)
  {
  }

  lemma LeastUnique(log: seq<Event>, slot: int, w: nat)
    requires Least(log, slot, w)
    ensures forall v: nat :: Least(log, slot, v) ==> v == w
  {
  }

  /** No rate exactly when the whole ring has too few samples; otherwise the rate of the least window with enough. */
  ghost predicate IsRate(log: seq<Event>, slot: int, rate: Option<real>) {
    && (rate.None? <==> CountOver(log, slot, Buckets) < MinSamples)
    && (rate.Some? ==> exists w :: 1 <= w <= Buckets && IsRateOver(log, slot, w, rate.value))
  }

  /** The percentage to one decimal: a whole number of tenths, nearest to the true one, halves up. */
  ghost predicate IsPercentage(rate: real, success: int, total: int) {
    exists tenths :: IsTenths(rate, tenths, success, total)
  }

  ghost predicate IsTenths(rate: real, tenths: int, success: int, total: int) {
    rate == tenths as real / 10.0 && (2 * tenths - 1) * total <= 2000 * success < (2 * tenths + 1) * total
  }

  lemma {:induction false} RealProduct(a: int, b: nat)
    ensures (a * b) as real == a as real * b as real
  {
    if b > 0 {
      RealProduct(a, b - 1);
      assert a * b == a * (b - 1) + a;
    }
  }

  lemma ScaledOrder(a: real, b: real, factor: real)
    requires factor > 0.0
    ensures a <= b ==> a * factor <= b * factor
    ensures a < b ==> a * factor < b * factor
  {
  }

  lemma ScaledBounds(a: real, x: real, b: real, total: real, scaled: real)
    requires a <= x < b && total > 0.0 && x * total == scaled
    ensures a * total <= scaled < b * total
  {
    ScaledOrder(a, x, total);
    ScaledOrder(x, b, total);
  }

  lemma RateIsPercentage(success: int, total: int)
    requires 0 <= success && 0 < total
    ensures IsPercentage(Rate(success, total), success, total)
  {
    var share := success as real / total as real;
    var k := RoundHalfUp(share * 1000.0);
    assert share * 2000.0 * total as real == (2000 * success) as real;
    ScaledBounds((2 * k - 1) as real, share * 2000.0, (2 * k + 1) as real, total as real, (2000 * success) as real);
    RealProduct(2 * k - 1, total);
    RealProduct(2 * k + 1, total);
    assert IsTenths(Rate(success, total), k, success, total);
  }

  /** The rate of the w most recent slots, w being the least number with enough samples. */
  ghost predicate IsRateOver(log: seq<Event>, slot: int, w: nat, rate: real) {
    Least(log, slot, w) && IsPercentage(rate, SuccessOver(log, slot, w), CountOver(log, slot, w))
  }

  lemma RateFound(log: seq<Event>, slot: int, w: nat)
    requires 1 <= w <= Buckets && Least(log, slot, w)
    ensures 0 <= SuccessOver(log, slot, w)
    ensures IsRateOver(log, slot, w, Rate(SuccessOver(log, slot, w), CountOver(log, slot, w)))
    ensures CountOver(log, slot, Buckets) >= MinSamples
  {
    OverBounds(log, slot, w);
    OverGrows(log, slot, w, Buckets);
    RateIsPercentage(SuccessOver(log, slot, w), CountOver(log, slot, w));
  }

  lemma StartOfSlot(now: int)
    requires now >= 0
    ensures now - now % BucketSeconds == Slot(now) * BucketSeconds
    ensures (now - now % BucketSeconds) / BucketSeconds == Slot(now)
  {
  }

  lemma OverStep(log: seq<Event>, slot: int, w: nat)
    ensures CountOver(log, slot, w + 1) == CountOver(log, slot, w) + CountIn(log, slot - w)
    ensures SuccessOver(log, slot, w + 1) == SuccessOver(log, slot, w) + SuccessIn(log, slot - w)
  {
  }

  lemma {:induction false} OverBounds(log: seq<Event>, slot: int, w: nat)
    ensures 0 <= SuccessOver(log, slot, w) <= CountOver(log, slot, w)
  {
    if w > 0 {
      OverBounds(log, slot, w - 1);
      CountBounds(log, slot - (w - 1));
    }
  }

  lemma {:induction false} OverGrows(log: seq<Event>, slot: int, v: nat, w: nat)
    requires v <= w
    ensures CountOver(log, slot, v) <= CountOver(log, slot, w)
  {
    if v < w {
      OverGrows(log, slot, v, w - 1);
      CountBounds(log, slot - (w - 1));
    }
  }

  // ---- The answer in terms of the events ----

  /** The events, by their position in the history, from one time up to another. */
  ghost function EventsIn(log: seq<Event>, from: int, until: int): set<int> {
    set i | 0 <= i < |log| && from <= log[i].at < until
  }

  ghost function SuccessesIn(log: seq<Event>, from: int, until: int): set<int> {
    set i | 0 <= i < |log| && from <= log[i].at < until && log[i].success
  }

  lemma EventsSnoc(log: seq<Event>, front: seq<Event>, last: Event, from: int, until: int)
    requires log == front + [last]
    ensures |EventsIn(log, from, until)| == |EventsIn(front, from, until)| + if from <= last.at < until then 1 else 0
  {
    var before, after := EventsIn(front, from, until), EventsIn(log, from, until);
    assert log[|front|] == last && forall i :: 0 <= i < |front| ==> log[i] == front[i];
    if from <= last.at < until {
      assert after == before + {|front|};
    } else {
      assert after == before;
    }
  }

  lemma SuccessesSnoc(log: seq<Event>, front: seq<Event>, last: Event, from: int, until: int)
    requires log == front + [last]
    ensures |SuccessesIn(log, from, until)| == |SuccessesIn(front, from, until)| + if from <= last.at < until && last.success then 1 else 0
  {
    var before, after := SuccessesIn(front, from, until), SuccessesIn(log, from, until);
    assert log[|front|] == last && forall i :: 0 <= i < |front| ==> log[i] == front[i];
    if from <= last.at < until && last.success {
      assert after == before + {|front|};
    } else {
      assert after == before;
    }
  }

  lemma SlotIs(at: int, slot: int)
    ensures Slot(at) == slot <==> slot * 300 <= at < slot * 300 + 300
  {
  }

  lemma {:induction false} CountInIs(log: seq<Event>, slot: int, from: int)
    requires from == slot * 300
    ensures CountIn(log, slot) == |EventsIn(log, from, from + 300)|
    ensures SuccessIn(log, slot) == |SuccessesIn(log, from, from + 300)|
  {
    if log == [] {
      assert EventsIn(log, from, from + 300) == {} && SuccessesIn(log, from, from + 300) == {};
    } else {
      var front, last := log[..|log| - 1], log[|log| - 1];
      assert log == front + [last];
      CountInIs(front, slot, from);
      SlotIs(last.at, slot);
      EventsSnoc(log, front, last, from, from + 300);
      SuccessesSnoc(log, front, last, from, from + 300);
    }
  }

  /** Before this slot, one more slot's events. */
  lemma EventsSplit(log: seq<Event>, from: int, middle: int, until: int)
    requires from <= middle <= until
    ensures |EventsIn(log, from, until)| == |EventsIn(log, from, middle)| + |EventsIn(log, middle, until)|
    ensures |SuccessesIn(log, from, until)| == |SuccessesIn(log, from, middle)| + |SuccessesIn(log, middle, until)|
  {
    assert EventsIn(log, from, until) == EventsIn(log, from, middle) + EventsIn(log, middle, until);
    assert SuccessesIn(log, from, until) == SuccessesIn(log, from, middle) + SuccessesIn(log, middle, until);
  }

  lemma {:induction false} CountOverIs(log: seq<Event>, slot: int, w: nat, from: int, until: int)
    requires from == (slot - w + 1) * 300 && until == slot * 300 + 300
    ensures CountOver(log, slot, w) == |EventsIn(log, from, until)| && SuccessOver(log, slot, w) == |SuccessesIn(log, from, until)|
  {
    if w == 0 {
      assert EventsIn(log, from, until) == {} && SuccessesIn(log, from, until) == {};
    } else {
      CountOverIs(log, slot, w - 1, from + 300, until);
      CountInIs(log, slot - (w - 1), from);
      EventsSplit(log, from, from + 300, until);
    }
  }

  /** Fifteen events or more in the last w five-minute stretches, the current one starting at `start` included. */
  ghost predicate Enough(log: seq<Event>, start: int, w: int) {
    |EventsIn(log, start - 300 * (w - 1), start + 300)| >= 15
  }

  /** No rate when the last twelve stretches have too few events, otherwise the success percentage of as many as are needed. */
  ghost predicate AnswersFrom(log: seq<Event>, start: int, rate: Option<real>) {
    && (rate.None? <==> !Enough(log, start, 12))
    && (rate.Some? ==> exists w :: AnswersOver(log, start, w, rate.value))
  }

  ghost predicate AnswersOver(log: seq<Event>, start: int, w: int, rate: real) {
    && 1 <= w <= 12 && Enough(log, start, w) && (forall v :: 1 <= v < w ==> !Enough(log, start, v))
    && IsPercentage(rate, |SuccessesIn(log, start - 300 * (w - 1), start + 300)|, |EventsIn(log, start - 300 * (w - 1), start + 300)|)
  }

  lemma EnoughIff(log: seq<Event>, slot: int, w: nat)
    requires w >= 1
    ensures CountOver(log, slot, w) >= 15 <==> Enough(log, slot * 300, w)
  {
    CountOverIs(log, slot, w, (slot - w + 1) * 300, slot * 300 + 300);
  }

  lemma OverAnswers(log: seq<Event>, slot: int, w: nat, rate: real)
    requires 1 <= w <= Buckets && IsRateOver(log, slot, w, rate)
    ensures AnswersOver(log, slot * 300, w, rate)
  {
    CountOverIs(log, slot, w, (slot - w + 1) * 300, slot * 300 + 300);
    EnoughIff(log, slot, w);
    forall v | 1 <= v < w ensures !Enough(log, slot * 300, v) {
      EnoughIff(log, slot, v);
      assert CountOver(log, slot, v) < MinSamples;
    }
  }

  lemma RateAnswers(log: seq<Event>, now: int, rate: Option<real>)
    requires now >= 0 && IsRate(log, Slot(now), rate)
    ensures AnswersFrom(log, now - now % 300, rate)
  {
    var slot := Slot(now);
    assert now - now % 300 == slot * 300;
    EnoughIff(log, slot, 12);
    if rate.Some? {
      var w :| 1 <= w <= Buckets && IsRateOver(log, slot, w, rate.value);
      OverAnswers(log, slot, w, rate.value);
    }
  }
}
