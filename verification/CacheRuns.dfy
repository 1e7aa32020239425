/**
 * Creations and closes of body storages interleaved at the grain of the code:
 * no lock is held between the availability test and the counter updates, and
 * each counter is updated by its own atomic addition.
 */
module CacheRuns {
  import opened CacheAccounting

  /** How far a storage has come: tested, then one phase per counter update of its creation and its first Close. */
  datatype Phase = Admitted | Filed | Sized | Open | Unfiled | Closed | Dropped

  /**
   * One storage and the bytes written to it; a direct one is streamed to disk under
   * a declared length, and fails for good when it does not fit the request limit.
   */
  datatype Item = Item(kind: Kind, size: int, streamed: bool, direct: bool, fits: bool, phase: Phase)

  datatype World = World(stats: Stats, items: seq<Item>)

  datatype Op =
    | TestDeclared(contentLength: int, length: int, maxBytes: int)
    | TestBytes(size: int, streamed: bool)
    | Advance(i: int)
    | DiskFails(i: int)

  function Next(item: Item): (r: Item) {
    match item.phase
    case Admitted => item.(phase := if item.fits then Filed else Dropped)
    case Filed => item.(phase := Sized)
    case Sized => item.(phase := Open)
    case Open => item.(phase := Unfiled)
    case Unfiled => item.(phase := Closed)
    case Closed => item
    case Dropped => item
  }

  /** The atomic addition that moves a storage to its next phase, with the clamp of the disk counters. */
  function Counted(s: Stats, item: Item): (r: Stats) {
    match item.phase
    case Admitted =>
      if !item.fits then s
      else if item.kind.Disk? then s.(diskFiles := s.diskFiles + 1)
      else s.(memBuffers := s.memBuffers + 1)
    case Filed =>
      if item.kind.Disk? then s.(diskBytes := s.diskBytes + item.size) else s.(memBytes := s.memBytes + item.size)
    case Sized =>
      if !item.streamed then s
      else if item.kind.Disk? then s.(diskHits := s.diskHits + 1)
      else s.(memHits := s.memHits + 1)
    case Open =>
      if item.kind.Disk? then s.(diskFiles := Clamp(s.diskFiles - 1)) else s.(memBuffers := s.memBuffers - 1)
    case Unfiled =>
      if item.kind.Disk? then s.(diskBytes := Clamp(s.diskBytes - item.size)) else s.(memBytes := s.memBytes - item.size)
    case Closed => s
    case Dropped => s
  }

  /** A failed write: a direct creation is refused, another falls back to memory. */
  function Failed(item: Item): (r: Item) {
    if !(item.kind.Disk? && item.phase.Admitted?) then item
    else if item.direct then item.(phase := Dropped)
    else item.(kind := Memory)
  }

  function DeclaredItem(length: int, maxBytes: int): (r: Item) {
    Item(Disk, length, true, true, length <= maxBytes, Admitted)
  }

  function BytesItem(cfg: Config, s: Stats, size: int, streamed: bool): (r: Item) {
    Item(KindFor(cfg, s, size, true), size, streamed, false, true, Admitted)
  }

  /** A declared length that is not sent to disk leads to reading the body and testing its size instead. */
  function Step(w: World, op: Op, cfg: Config): (r: World) {
    match op
    case TestDeclared(contentLength, length, maxBytes) =>
      if length < 0 || !StreamsToDisk(cfg, w.stats, contentLength) then w
      else w.(items := w.items + [DeclaredItem(length, maxBytes)])
    case TestBytes(size, streamed) =>
      if size < 0 then w else w.(items := w.items + [BytesItem(cfg, w.stats, size, streamed)])
    case Advance(i) =>
      if !(0 <= i < |w.items|) then w
      else World(Counted(w.stats, w.items[i]), w.items[i := Next(w.items[i])])
    case DiskFails(i) =>
      if !(0 <= i < |w.items|) then w else w.(items := w.items[i := Failed(w.items[i])])
  }

  function Run(w: World, ops: seq<Op>, cfg: Config): (r: World)
    decreases |ops|
  {
    if ops == [] then w else Run(Step(w, ops[0], cfg), ops[1..], cfg)
  }

  // ---- What each storage has in the counters ----

  function DiskFilesOf(item: Item): (r: int) {
    if item.kind.Disk? && item.phase in {Filed, Sized, Open} then 1 else 0
  }

  function DiskBytesOf(item: Item): (r: int) {
    if item.kind.Disk? && item.phase in {Sized, Open, Unfiled} then item.size else 0
  }

  function MemBuffersOf(item: Item): (r: int) {
    if item.kind.Memory? && item.phase in {Filed, Sized, Open} then 1 else 0
  }

  function MemBytesOf(item: Item): (r: int) {
    if item.kind.Memory? && item.phase in {Sized, Open, Unfiled} then item.size else 0
  }

  function DiskHitsOf(item: Item): (r: int) {
    if item.kind.Disk? && item.streamed && item.phase in {Open, Unfiled, Closed} then 1 else 0
  }

  function MemHitsOf(item: Item): (r: int) {
    if item.kind.Memory? && item.streamed && item.phase in {Open, Unfiled, Closed} then 1 else 0
  }

  /** Bytes on their way into the disk counter. */
  function InFlight(item: Item): (r: int) {
    if item.kind.Disk? && (item.phase.Filed? || (item.phase.Admitted? && item.fits)) then item.size else 0
  }

  function Total(items: seq<Item>, f: Item -> int): (r: int) {
    if items == [] then 0 else Total(items[..|items| - 1], f) + f(items[|items| - 1])
  }

  lemma TotalSnoc(items: seq<Item>, item: Item, f: Item -> int)
    ensures Total(items + [item], f) == Total(items, f) + f(item)
  {
    var all := items + [item];
    assert all[..|all| - 1] == items;
  }

  lemma {:induction false} TotalUpdate(items: seq<Item>, i: nat, item: Item, f: Item -> int)
    requires i < |items|
    ensures Total(items[i := item], f) == Total(items, f) - f(items[i]) + f(item)
  {
    var front, changed := items[..|items| - 1], items[i := item];
    if i == |front| {
      assert changed[..|front|] == front;
    } else {
      assert changed[..|front|] == front[i := item];
      TotalUpdate(front, i, item, f);
    }
  }

  ghost predicate NonNegativeSizes(items: seq<Item>) {
    forall i :: 0 <= i < |items| ==> items[i].size >= 0
  }

  /** A total of non-negative shares holds every one of them. */
  lemma {:induction false} TotalHolds(items: seq<Item>, i: nat, f: Item -> int)
    requires i < |items| && forall item <- items :: f(item) >= 0
    ensures Total(items, f) >= f(items[i])
  {
    var front := items[..|items| - 1];
    assert items[|items| - 1] in items;
    TotalNonNegative(front, f);
    if i < |front| {
      TotalHolds(front, i, f);
    }
  }

  lemma {:induction false} TotalNonNegative(items: seq<Item>, f: Item -> int)
    requires forall item <- items :: f(item) >= 0
    ensures Total(items, f) >= 0
  {
    if items != [] {
      assert items[|items| - 1] in items;
      TotalNonNegative(items[..|items| - 1], f);
    }
  }

  function StatsOf(items: seq<Item>): (r: Stats) {
    Stats(Total(items, DiskFilesOf), Total(items, DiskBytesOf), Total(items, MemBuffersOf), Total(items, MemBytesOf),
          Total(items, DiskHitsOf), Total(items, MemHitsOf))
  }

  /** The counters are the number and total size of the storages that stand counted, per kind. */
  ghost predicate Balanced(w: World) {
    NonNegativeSizes(w.items) && w.stats == StatsOf(w.items)
  }

  lemma StatsSnoc(items: seq<Item>, item: Item)
    requires item.phase == Admitted
    ensures StatsOf(items + [item]) == StatsOf(items)
  {
    TotalSnoc(items, item, DiskFilesOf);
    TotalSnoc(items, item, DiskBytesOf);
    TotalSnoc(items, item, MemBuffersOf);
    TotalSnoc(items, item, MemBytesOf);
    TotalSnoc(items, item, DiskHitsOf);
    TotalSnoc(items, item, MemHitsOf);
  }

  /** The counters once one storage's shares are exchanged for others. */
  function Exchanged(s: Stats, before: Item, after: Item): (r: Stats) {
    Stats(s.diskFiles - DiskFilesOf(before) + DiskFilesOf(after), s.diskBytes - DiskBytesOf(before) + DiskBytesOf(after),
          s.memBuffers - MemBuffersOf(before) + MemBuffersOf(after), s.memBytes - MemBytesOf(before) + MemBytesOf(after),
          s.diskHits - DiskHitsOf(before) + DiskHitsOf(after), s.memHits - MemHitsOf(before) + MemHitsOf(after))
  }

  lemma StatsUpdate(items: seq<Item>, i: nat, item: Item)
    requires i < |items|
    ensures StatsOf(items[i := item]) == Exchanged(StatsOf(items), items[i], item)
  {
    TotalUpdate(items, i, item, DiskFilesOf);
    TotalUpdate(items, i, item, DiskBytesOf);
    TotalUpdate(items, i, item, MemBuffersOf);
    TotalUpdate(items, i, item, MemBytesOf);
    TotalUpdate(items, i, item, DiskHitsOf);
    TotalUpdate(items, i, item, MemHitsOf);
  }

  lemma SharesHeld(items: seq<Item>, i: nat)
    requires i < |items| && NonNegativeSizes(items)
    ensures Total(items, DiskFilesOf) >= DiskFilesOf(items[i]) && Total(items, DiskBytesOf) >= DiskBytesOf(items[i])
  {
    TotalHolds(items, i, DiskFilesOf);
    TotalHolds(items, i, DiskBytesOf);
  }

  /** The value a disk counter has after the decrement of a Close and before the clamp. */
  ghost predicate ClampIdle(s: Stats, item: Item) {
    item.kind.Disk? ==>
      && (item.phase.Open? ==> s.diskFiles - 1 >= 0)
      && (item.phase.Unfiled? ==> s.diskBytes - item.size >= 0)
  }

  lemma AdvanceExchanges(s: Stats, item: Item)
    requires ClampIdle(s, item)
    ensures Counted(s, item) == Exchanged(s, item, Next(item))
  {
  }

  lemma AdvanceKeepsBalance(w: World, i: nat)
    requires Balanced(w) && i < |w.items|
    ensures ClampIdle(w.stats, w.items[i])
    ensures StatsOf(w.items[i := Next(w.items[i])]) == Counted(w.stats, w.items[i])
  {
    SharesHeld(w.items, i);
    AdvanceExchanges(w.stats, w.items[i]);
    StatsUpdate(w.items, i, Next(w.items[i]));
  }

  lemma FailKeepsBalance(w: World, i: nat)
    requires Balanced(w) && i < |w.items|
    ensures StatsOf(w.items[i := Failed(w.items[i])]) == w.stats
  {
    StatsUpdate(w.items, i, Failed(w.items[i]));
  }

  /** Every step keeps the books, and the clamp at zero never changes a value. */
  lemma StepKeepsBalance(w: World, op: Op, cfg: Config)
    requires Balanced(w)
    ensures Balanced(Step(w, op, cfg))
    ensures op.Advance? && 0 <= op.i < |w.items| ==> ClampIdle(w.stats, w.items[op.i])
  {
    match op
    case TestDeclared(contentLength, length, maxBytes) =>
      StatsSnoc(w.items, DeclaredItem(length, maxBytes));
    case TestBytes(size, streamed) =>
      StatsSnoc(w.items, BytesItem(cfg, w.stats, size, streamed));
    case Advance(i) =>
      if 0 <= i < |w.items| {
        AdvanceKeepsBalance(w, i);
      }
    case DiskFails(i) =>
      if 0 <= i < |w.items| {
        FailKeepsBalance(w, i);
      }
  }

  /** In every interleaving the counters describe exactly the storages that stand counted. */
  lemma {:induction false} RunKeepsBalance(w: World, ops: seq<Op>, cfg: Config)
    requires Balanced(w)
    ensures Balanced(Run(w, ops, cfg))
    decreases |ops|
  {
    if ops != [] {
      StepKeepsBalance(w, ops[0], cfg);
      RunKeepsBalance(Step(w, ops[0], cfg), ops[1..], cfg);
    }
  }

  /** A storage nobody is creating or closing at the moment. */
  predicate Settled(item: Item) {
    item.phase in {Admitted, Open, Closed, Dropped}
  }

  function OpenCount(items: seq<Item>, kind: Kind): (r: int) {
    Total(items, (item: Item) => if item.phase.Open? && item.kind == kind then 1 else 0)
  }

  function OpenBytes(items: seq<Item>, kind: Kind): (r: int) {
    Total(items, (item: Item) => if item.phase.Open? && item.kind == kind then item.size else 0)
  }

  lemma {:induction false} TotalsAgree(items: seq<Item>, f: Item -> int, g: Item -> int)
    requires forall item <- items :: f(item) == g(item)
    ensures Total(items, f) == Total(items, g)
  {
    if items != [] {
      assert items[|items| - 1] in items;
      TotalsAgree(items[..|items| - 1], f, g);
    }
  }

  /** Whenever no counter update is under way, the counters are the number and size of the open storages. */
  lemma QuietBalance(w: World)
    requires Balanced(w) && forall item <- w.items :: Settled(item)
    ensures w.stats.diskFiles == OpenCount(w.items, Disk) && w.stats.diskBytes == OpenBytes(w.items, Disk)
    ensures w.stats.memBuffers == OpenCount(w.items, Memory) && w.stats.memBytes == OpenBytes(w.items, Memory)
  {
    TotalsAgree(w.items, DiskFilesOf, (item: Item) => if item.phase.Open? && item.kind == Disk then 1 else 0);
    TotalsAgree(w.items, DiskBytesOf, (item: Item) => if item.phase.Open? && item.kind == Disk then item.size else 0);
    TotalsAgree(w.items, MemBuffersOf, (item: Item) => if item.phase.Open? && item.kind == Memory then 1 else 0);
    TotalsAgree(w.items, MemBytesOf, (item: Item) => if item.phase.Open? && item.kind == Memory then item.size else 0);
  }

  /** A creation with nothing in between counts as the single-call contracts say. */
  lemma AloneCounts(s: Stats, item: Item)
    requires item.phase == Admitted && item.fits
    ensures var filed := Next(item); var sized := Next(filed);
            Counted(Counted(Counted(s, item), filed), sized) == CountedIn(s, item.kind, item.size, item.streamed)
  {
  }

  // ---- The disk limit ----

  /** What the disk counter holds, plus what is on its way into it. */
  function Reserved(w: World): (r: int) {
    w.stats.diskBytes + Total(w.items, InFlight)
  }

  /** The storage an operation sends to disk. */
  predicate Admits(w: World, op: Op, cfg: Config) {
    match op
    case TestDeclared(contentLength, length, _) => length >= 0 && StreamsToDisk(cfg, w.stats, contentLength)
    case TestBytes(size, _) => size >= 0 && KindFor(cfg, w.stats, size, true).Disk?
    case Advance(_) => false
    case DiskFails(_) => false
  }

  /** The length an admission was tested for. */
  function Tested(op: Op): (r: int)
    requires op.TestDeclared? || op.TestBytes?
  {
    if op.TestDeclared? then op.contentLength else op.size
  }

  /** The bytes an admission will bring into the disk counter. */
  function Brings(op: Op): (r: int)
    requires op.TestDeclared? || op.TestBytes?
  {
    if op.TestBytes? then op.size else if op.length <= op.maxBytes then op.length else 0
  }

  /** A streamed body no longer than its declared length. */
  predicate HonestLength(op: Op) {
    op.TestDeclared? ==> op.length <= op.contentLength
  }

  lemma AdmitReserves(w: World, op: Op, cfg: Config)
    requires Admits(w, op, cfg)
    ensures Reserved(Step(w, op, cfg)) == Reserved(w) + Brings(op)
    ensures w.stats.diskBytes + Tested(op) <= cfg.maxBytes
    ensures HonestLength(op) ==> Brings(op) <= Tested(op)
  {
    match op
    case TestDeclared(contentLength, length, maxBytes) =>
      TotalSnoc(w.items, DeclaredItem(length, maxBytes), InFlight);
    case TestBytes(size, streamed) =>
      TotalSnoc(w.items, BytesItem(cfg, w.stats, size, streamed), InFlight);
  }

  lemma AdvanceReserved(w: World, i: nat, cfg: Config)
    requires Balanced(w) && i < |w.items|
    ensures Reserved(Step(w, Advance(i), cfg)) <= Reserved(w)
    ensures w.items[i].phase in {Admitted, Filed} ==> Reserved(Step(w, Advance(i), cfg)) == Reserved(w)
  {
    AdvanceKeepsBalance(w, i);
    TotalUpdate(w.items, i, Next(w.items[i]), InFlight);
  }

  /** Only admissions add to what is reserved. */
  lemma OtherStepsRelease(w: World, op: Op, cfg: Config)
    requires Balanced(w) && !Admits(w, op, cfg)
    ensures Reserved(Step(w, op, cfg)) <= Reserved(w)
  {
    match op
    case TestDeclared(_, _, _) =>
    case TestBytes(size, streamed) =>
      TotalSnoc(w.items, BytesItem(cfg, w.stats, size, streamed), InFlight);
    case Advance(i) =>
      if 0 <= i < |w.items| {
        AdvanceReserved(w, i, cfg);
      }
    case DiskFails(i) =>
      if 0 <= i < |w.items| {
        TotalUpdate(w.items, i, Failed(w.items[i]), InFlight);
      }
  }

  lemma UsageIsReserved(w: World)
    requires Balanced(w)
    ensures 0 <= w.stats.diskBytes <= Reserved(w)
  {
    TotalNonNegative(w.items, InFlight);
    TotalNonNegative(w.items, DiskBytesOf);
  }

  /** Every admission of the run finds at most this many bytes on their way. */
  ghost predicate CrowdedBy(w: World, ops: seq<Op>, cfg: Config, crowd: int)
    decreases |ops|
  {
    ops == [] ||
    (&& (Admits(w, ops[0], cfg) ==> Total(w.items, InFlight) <= crowd)
     && CrowdedBy(Step(w, ops[0], cfg), ops[1..], cfg, crowd))
  }

  /** With honest lengths usage outgrows the limit by no more than the bytes on their way at some admission. */
  lemma {:induction false} OvershootBound(w: World, ops: seq<Op>, cfg: Config, crowd: int)
    requires Balanced(w) && Reserved(w) <= cfg.maxBytes + crowd
    requires CrowdedBy(w, ops, cfg, crowd) && forall op <- ops :: HonestLength(op)
    ensures Run(w, ops, cfg).stats.diskBytes <= Reserved(Run(w, ops, cfg)) <= cfg.maxBytes + crowd
    decreases |ops|
  {
    if ops == [] {
      UsageIsReserved(w);
    } else {
      var op, next := ops[0], Step(w, ops[0], cfg);
      StepKeepsBalance(w, op, cfg);
      assert HonestLength(op);
      if Admits(w, op, cfg) {
        AdmitReserves(w, op, cfg);
      } else {
        OtherStepsRelease(w, op, cfg);
      }
      OvershootBound(next, ops[1..], cfg, crowd);
    }
  }

  /** Every admission of the run leaves room for all that is on its way. */
  ghost predicate LeavesRoom(w: World, ops: seq<Op>, cfg: Config)
    decreases |ops|
  {
    ops == [] ||
    (&& (Admits(w, ops[0], cfg) ==> Reserved(w) + Brings(ops[0]) <= cfg.maxBytes)
     && LeavesRoom(Step(w, ops[0], cfg), ops[1..], cfg))
  }

  predicate NoTests(ops: seq<Op>) {
    forall i :: 0 <= i < |ops| ==> ops[i].Advance? || ops[i].DiskFails?
  }

  lemma {:induction false} ReservedBounds(w: World, ops: seq<Op>, cfg: Config)
    requires Balanced(w) && NoTests(ops)
    ensures Run(w, ops, cfg).stats.diskBytes <= Reserved(w)
    decreases |ops|
  {
    if ops == [] {
      UsageIsReserved(w);
    } else {
      StepKeepsBalance(w, ops[0], cfg);
      OtherStepsRelease(w, ops[0], cfg);
      ReservedBounds(Step(w, ops[0], cfg), ops[1..], cfg);
    }
  }

  function UpdatesLeft(item: Item): (r: int) {
    if InFlight(item) == 0 then 0 else if item.phase.Admitted? then 2 else 1
  }

  lemma {:induction false} SomeInFlight(items: seq<Item>) returns (i: nat)
    requires Total(items, InFlight) != 0
    ensures i < |items| && InFlight(items[i]) != 0
  {
    var front := items[..|items| - 1];
    if InFlight(items[|front|]) != 0 {
      i := |front|;
    } else {
      i := SomeInFlight(front);
    }
  }

  /** Letting every creation finish brings all the reserved bytes into the counter. */
  lemma {:induction false} ReservedIsReached(w: World, cfg: Config) returns (ops: seq<Op>)
    requires Balanced(w)
    ensures NoTests(ops) && Run(w, ops, cfg).stats.diskBytes == Reserved(w)
    decreases Total(w.items, UpdatesLeft)
  {
    if Total(w.items, InFlight) == 0 {
      ops := [];
    } else {
      var i := SomeInFlight(w.items);
      var next := Step(w, Advance(i), cfg);
      StepKeepsBalance(w, Advance(i), cfg);
      AdvanceReserved(w, i, cfg);
      TotalUpdate(w.items, i, Next(w.items[i]), UpdatesLeft);
      TotalNonNegative(w.items, UpdatesLeft);
      var rest := ReservedIsReached(next, cfg);
      ops := [Advance(i)] + rest;
      assert ops[1..] == rest;
    }
  }

  /** However the creations and closes under way go on, usage keeps to the limit. */
  ghost predicate Safe(w: World, cfg: Config) {
    forall ops :: NoTests(ops) ==> Run(w, ops, cfg).stats.diskBytes <= cfg.maxBytes
  }

  /** That holds in a state exactly when the reserved bytes keep to the limit. */
  lemma SafeIff(w: World, cfg: Config)
    requires Balanced(w)
    ensures Safe(w, cfg) <==> Reserved(w) <= cfg.maxBytes
  {
    var finish := ReservedIsReached(w, cfg);
    forall ops | NoTests(ops) ensures Run(w, ops, cfg).stats.diskBytes <= Reserved(w) {
      ReservedBounds(w, ops, cfg);
    }
    assert NoTests(finish);
  }

  /** It holds in every state of the run. */
  ghost predicate AlwaysSafe(w: World, ops: seq<Op>, cfg: Config)
    decreases |ops|
  {
    Safe(w, cfg) && (ops != [] ==> AlwaysSafe(Step(w, ops[0], cfg), ops[1..], cfg))
  }

  /**
   * At every point of a run usage is sure to keep to the limit, however what is
   * under way goes on, exactly when every admission leaves room for the bytes on their way.
   */
  lemma {:induction false} AlwaysSafeIff(w: World, ops: seq<Op>, cfg: Config)
    requires Balanced(w) && Safe(w, cfg)
    ensures AlwaysSafe(w, ops, cfg) <==> LeavesRoom(w, ops, cfg)
    decreases |ops|
  {
    if ops != [] {
      var op, next := ops[0], Step(w, ops[0], cfg);
      StepKeepsBalance(w, op, cfg);
      SafeIff(w, cfg);
      SafeIff(next, cfg);
      if Admits(w, op, cfg) {
        AdmitReserves(w, op, cfg);
      } else {
        OtherStepsRelease(w, op, cfg);
      }
      if Safe(next, cfg) {
        AlwaysSafeIff(next, ops[1..], cfg);
      }
    }
  }

  /** Usage itself is within the limit in every state of the run. */
  ghost predicate UsageWithin(w: World, ops: seq<Op>, cfg: Config)
    decreases |ops|
  {
    w.stats.diskBytes <= cfg.maxBytes && (ops != [] ==> UsageWithin(Step(w, ops[0], cfg), ops[1..], cfg))
  }

  lemma {:induction false} SafeUsage(w: World, ops: seq<Op>, cfg: Config)
    requires Balanced(w) && AlwaysSafe(w, ops, cfg)
    ensures UsageWithin(w, ops, cfg)
    decreases |ops|
  {
    SafeIff(w, cfg);
    UsageIsReserved(w);
    if ops != [] {
      StepKeepsBalance(w, ops[0], cfg);
      SafeUsage(Step(w, ops[0], cfg), ops[1..], cfg);
    }
  }

  /** So admissions that leave room keep usage within the limit ... */
  lemma RoomKeepsUsage(w: World, ops: seq<Op>, cfg: Config)
    requires Balanced(w) && Safe(w, cfg) && LeavesRoom(w, ops, cfg)
    ensures UsageWithin(w, ops, cfg)
  {
    AlwaysSafeIff(w, ops, cfg);
    SafeUsage(w, ops, cfg);
  }

  lemma {:induction false} QuietRoom(w: World, ops: seq<Op>, cfg: Config)
    requires NoTests(ops)
    ensures LeavesRoom(w, ops, cfg)
    decreases |ops|
  {
    if ops != [] {
      QuietRoom(Step(w, ops[0], cfg), ops[1..], cfg);
    }
  }

  lemma UsageStep(w: World, op: Op, rest: seq<Op>, cfg: Config)
    requires w.stats.diskBytes <= cfg.maxBytes && UsageWithin(Step(w, op, cfg), rest, cfg)
    ensures UsageWithin(w, [op] + rest, cfg)
  {
    assert ([op] + rest)[1..] == rest;
  }

  lemma NoRoomStep(w: World, op: Op, rest: seq<Op>, cfg: Config)
    requires !LeavesRoom(Step(w, op, cfg), rest, cfg) || (Admits(w, op, cfg) && Reserved(w) + Brings(op) > cfg.maxBytes)
    ensures !LeavesRoom(w, [op] + rest, cfg)
  {
    assert ([op] + rest)[1..] == rest;
  }

  /** Two bodies that fit alone, both admitted before either is counted. */
  lemma TwoAdmitted(cfg: Config, n: int, test: Op, empty: World) returns (one: World, two: World)
    requires cfg.enabled && 0 < n && cfg.threshold <= n <= cfg.maxBytes && test == TestBytes(n, false) && empty == World(NoStats, [])
    ensures one == Step(empty, test, cfg) && two == Step(one, test, cfg) && Admits(one, test, cfg)
    ensures Balanced(two) && one.stats == two.stats == NoStats && Reserved(one) == n && Reserved(two) == 2 * n
    ensures |two.items| == 2 && InFlight(two.items[1]) == n && Failed(two.items[1]) == two.items[1].(kind := Memory)
  {
    one := Step(empty, test, cfg);
    two := Step(one, test, cfg);
    AdmitReserves(empty, test, cfg);
    AdmitReserves(one, test, cfg);
    StepKeepsBalance(empty, test, cfg);
    StepKeepsBalance(one, test, cfg);
  }

  /** ... but a run may keep within it by luck: of two writes that are too much together one fails, and the other is counted. */
  lemma LuckyRun(cfg: Config, n: int) returns (ops: seq<Op>)
    requires cfg.enabled && 0 < n && cfg.threshold <= n <= cfg.maxBytes < 2 * n
    ensures UsageWithin(World(NoStats, []), ops, cfg) && !LeavesRoom(World(NoStats, []), ops, cfg)
    ensures Run(World(NoStats, []), ops, cfg).stats.diskBytes == n
  {
    var test, fail, empty := TestBytes(n, false), DiskFails(1), World(NoStats, []);
    var one, two := TwoAdmitted(cfg, n, test, empty);
    var three := Step(two, fail, cfg);
    StepKeepsBalance(two, fail, cfg);
    TotalUpdate(two.items, 1, Failed(two.items[1]), InFlight);
    SafeIff(three, cfg);
    var finish := ReservedIsReached(three, cfg);
    QuietRoom(three, finish, cfg);
    RoomKeepsUsage(three, finish, cfg);
    UsageStep(two, fail, finish, cfg);
    UsageStep(one, test, [fail] + finish, cfg);
    UsageStep(empty, test, [test] + ([fail] + finish), cfg);
    NoRoomStep(one, test, [fail] + finish, cfg);
    NoRoomStep(empty, test, [test] + ([fail] + finish), cfg);
    ops := [test] + ([test] + ([fail] + finish));
    RunSteps(empty, test, [test] + ([fail] + finish), cfg);
    RunSteps(one, test, [fail] + finish, cfg);
    RunSteps(two, fail, finish, cfg);
  }

  lemma RunSteps(w: World, op: Op, rest: seq<Op>, cfg: Config)
    ensures Run(w, [op] + rest, cfg) == Run(Step(w, op, cfg), rest, cfg)
  {
    assert ([op] + rest)[1..] == rest;
  }

  lemma HonestTests(ops: seq<Op>, n: int, rest: seq<Op>)
    requires NoTests(rest) && ops == [TestBytes(n, false)] + ([TestBytes(n, false)] + rest)
    ensures forall op <- ops :: HonestLength(op)
  {
    forall op <- ops ensures HonestLength(op) {
      var i :| 0 <= i < |ops| && ops[i] == op;
      assert i >= 2 ==> op == rest[i - 2];
    }
  }

  /** Two requests that fit alone are both admitted before either is counted, and together outgrow the limit. */
  lemma TwoOutgrow(cfg: Config, n: int) returns (ops: seq<Op>)
    requires cfg.enabled && 0 < n && cfg.threshold <= n <= cfg.maxBytes < 2 * n
    ensures forall op <- ops :: HonestLength(op)
    ensures Run(World(NoStats, []), ops, cfg).stats.diskBytes > cfg.maxBytes
  {
    var test, empty := TestBytes(n, false), World(NoStats, []);
    var one, two := TwoAdmitted(cfg, n, test, empty);
    var finish := ReservedIsReached(two, cfg);
    ops := [test] + ([test] + finish);
    HonestTests(ops, n, finish);
    RunSteps(empty, test, [test] + finish, cfg);
    RunSteps(one, test, finish, cfg);
  }
}
