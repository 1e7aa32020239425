/** Replayable request bodies: a memory storage and a disk storage behind one interface. */
module BodyStorage {
  import opened Lists
  import opened CacheAccounting

  datatype Error = StorageClosed | EndOfFile | NegativeSeek | FileClosed

  datatype Whence = FromStart | FromCurrent | FromEnd

  /** A cursor over fixed bytes. */
  datatype Cursor = Cursor(position: int, closed: bool)

  datatype Outcome =
    | Got(bytes: seq<int>, end: Option<Error>)
    | At(position: int)
    | Failed(error: Error)
    | Ok

  // ---- Standard library cursors ----

  function Taken(data: seq<int>, position: int, n: int): (r: seq<int>)
    requires 0 <= position < |data| && n >= 0
  {
    if position + n <= |data| then data[position..position + n] else data[position..]
  }

  /** bytes.Reader.Read: at the end it reports end of file even for an empty buffer. */
  function BufferRead(data: seq<int>, position: int, n: int): (r: Outcome)
    requires position >= 0 && n >= 0
  {
    if position >= |data| then Got([], Some(EndOfFile)) else Got(Taken(data, position, n), None)
  }

  /** os.File.Read: an empty buffer is answered at once, wherever the offset is. */
  function FileRead(data: seq<int>, position: int, n: int): (r: Outcome)
    requires position >= 0 && n >= 0
  {
    if n == 0 then Got([], None)
    else if position >= |data| then Got([], Some(EndOfFile))
    else Got(Taken(data, position, n), None)
  }

  /** The target of a seek; both cursors refuse a negative one and otherwise may pass the end. */
  function SeekTarget(data: seq<int>, position: int, offset: int, whence: Whence): (r: int) {
    match whence
    case FromStart => offset
    case FromCurrent => position + offset
    case FromEnd => |data| + offset
  }

  function SeekOutcome(data: seq<int>, position: int, offset: int, whence: Whence): (r: Outcome) {
    var target := SeekTarget(data, position, offset, whence);
    if target < 0 then Failed(NegativeSeek) else At(target)
  }

  function SeekPosition(data: seq<int>, position: int, offset: int, whence: Whence): (r: int) {
    var target := SeekTarget(data, position, offset, whence);
    if target < 0 then position else target
  }

  class BufferReader {
    const data: seq<int>
    var position: int

    constructor (data: seq<int>)
      ensures this.data == data && position == 0
    {
      this.data := data;
      position := 0;
    }

    method Read(n: int) returns (r: Outcome)
      requires position >= 0 && n >= 0
      modifies this
      ensures r == BufferRead(data, old(position), n) && position == old(position) + |r.bytes|
    {
      if position >= |data| {
        return Got([], Some(EndOfFile));
      }
      r := Got(Taken(data, position, n), None);
      position := position + |r.bytes|;
    }

    method Seek(offset: int, whence: Whence) returns (r: Outcome)
      requires position >= 0
      modifies this
      ensures r == SeekOutcome(data, old(position), offset, whence)
      ensures position == SeekPosition(data, old(position), offset, whence) >= 0
    {
      r := SeekOutcome(data, position, offset, whence);
      position := SeekPosition(data, position, offset, whence);
    }
  }

  /** An open descriptor of the cache file. */
  class FileHandle {
    const data: seq<int>
    var position: int
    var closed: bool

    constructor (data: seq<int>)
      ensures this.data == data && position == 0 && !closed
    {
      this.data := data;
      position, closed := 0, false;
    }

    method Read(n: int) returns (r: Outcome)
      requires position >= 0 && n >= 0
      modifies this
      ensures r == if old(closed) then Failed(FileClosed) else FileRead(data, old(position), n)
      ensures position == old(position) + if r.Got? then |r.bytes| else 0
      ensures closed == old(closed)
    {
      if closed {
        return Failed(FileClosed);
      }
      r := FileRead(data, position, n);
      position := position + |r.bytes|;
    }

    method Seek(offset: int, whence: Whence) returns (r: Outcome)
      requires position >= 0
      modifies this
      ensures r == if old(closed) then Failed(FileClosed) else SeekOutcome(data, old(position), offset, whence)
      ensures position == (if old(closed) then old(position) else SeekPosition(data, old(position), offset, whence)) >= 0
      ensures closed == old(closed)
    {
      if closed {
        return Failed(FileClosed);
      }
      r := SeekOutcome(data, position, offset, whence);
      position := SeekPosition(data, position, offset, whence);
    }

    method Close() returns (r: Outcome)
      modifies this
      ensures r == (if old(closed) then Failed(FileClosed) else Ok) && closed && position == old(position)
    {
      r := if closed then Failed(FileClosed) else Ok;
      closed := true;
    }

    /** io.ReadFull into a buffer of the given size. */
    method ReadFull(n: int) returns (bytes: seq<int>, full: bool)
      requires !closed && 0 <= position <= |data| && n >= 0
      modifies this
      ensures full <==> old(position) + n <= |data|
      ensures full ==> bytes == data[old(position)..old(position) + n]
      ensures !closed && 0 <= position <= |data|
    {
      bytes := [];
      var more := true;
      while |bytes| < n && more
        invariant !closed && position == old(position) + |bytes| <= |data|
        invariant bytes == data[old(position)..position] && |bytes| <= n
        invariant !more ==> position == |data| && |bytes| < n
        decreases more, |data| - position
      {
        var r := Read(n - |bytes|);
        bytes := bytes + r.bytes;
        more := r.end.None?;
      }
      full := |bytes| >= n;
    }
  }

  // ---- The storage interface ----

  /** A stored body, the storage's own cursor, and the independent readers handed out. */
  datatype Body = Body(data: seq<int>, main: Cursor, readers: seq<Cursor>)

  datatype Op =
    | Read(n: int)
    | Seek(offset: int, whence: Whence)
    | Bytes
    | NewReader
    | Close
    | ReaderRead(i: int, n: int)
    | ReaderClose(i: int)

  predicate Sensible(body: Body, op: Op) {
    match op
    case Read(n) => n >= 0
    case ReaderRead(i, n) => 0 <= i < |body.readers| && n >= 0
    case ReaderClose(i) => 0 <= i < |body.readers|
    case _ => true
  }

  ghost predicate WellPlaced(body: Body) {
    body.main.position >= 0 && forall i :: 0 <= i < |body.readers| ==> body.readers[i].position >= 0
  }

  function CursorRead(kind: Kind, data: seq<int>, position: int, n: int): (r: Outcome)
    requires position >= 0 && n >= 0
    ensures r.Got?
  {
    if kind.Memory? then BufferRead(data, position, n) else FileRead(data, position, n)
  }

  /** What a reader answers: a memory reader ignores its own Close, a file descriptor does not. */
  function ReaderOutcome(kind: Kind, data: seq<int>, reader: Cursor, n: int): (r: Outcome)
    requires reader.position >= 0 && n >= 0
  {
    if kind.Disk? && reader.closed then Failed(FileClosed) else CursorRead(kind, data, reader.position, n)
  }

  function OutcomeOf(kind: Kind, body: Body, op: Op): (r: Outcome)
    requires WellPlaced(body) && Sensible(body, op)
  {
    match op
    case Read(n) => if body.main.closed then Failed(StorageClosed) else CursorRead(kind, body.data, body.main.position, n)
    case Seek(offset, whence) =>
      if body.main.closed then Failed(StorageClosed) else SeekOutcome(body.data, body.main.position, offset, whence)
    case Bytes => if body.main.closed then Failed(StorageClosed) else Got(body.data, None)
    case NewReader => if body.main.closed then Failed(StorageClosed) else Ok
    case Close => Ok
    case ReaderRead(i, n) => ReaderOutcome(kind, body.data, body.readers[i], n)
    case ReaderClose(i) => if kind.Disk? && body.readers[i].closed then Failed(FileClosed) else Ok
  }

  function Advanced(cursor: Cursor, outcome: Outcome): (r: Cursor) {
    if outcome.Got? then cursor.(position := cursor.position + |outcome.bytes|) else cursor
  }

  function After(kind: Kind, body: Body, op: Op): (r: Body)
    requires WellPlaced(body) && Sensible(body, op)
  {
    match op
    case Read(n) => body.(main := Advanced(body.main, OutcomeOf(kind, body, op)))
    case Seek(offset, whence) =>
      if body.main.closed then body
      else body.(main := body.main.(position := SeekPosition(body.data, body.main.position, offset, whence)))
    case Bytes => body
    case NewReader => if body.main.closed then body else body.(readers := body.readers + [Cursor(0, false)])
    case Close => body.(main := body.main.(closed := true))
    case ReaderRead(i, n) => body.(readers := body.readers[i := Advanced(body.readers[i], OutcomeOf(kind, body, op))])
    case ReaderClose(i) => body.(readers := body.readers[i := body.readers[i].(closed := true)])
  }

  class MemoryStorage {
    const data: seq<int>
    const reader: BufferReader
    const stats: CacheStats
    var closed: bool

    ghost predicate Valid()
      reads this, reader
    {
      reader.data == data && reader.position >= 0
    }

    ghost function View(): Body
      reads this, reader
    {
      Body(data, Cursor(reader.position, closed), [])
    }

    constructor (data: seq<int>, stats: CacheStats)
      modifies stats
      ensures Valid() && fresh(reader) && this.stats == stats
      ensures View() == Body(data, Cursor(0, false), [])
      ensures stats.View() == WithMemoryBuffer(old(stats.View()), |data|)
    {
      this.data := data;
      reader := new BufferReader(data);
      this.stats := stats;
      closed := false;
      new;
      stats.IncrementMemoryBuffers(|data|);
    }

    method Read(n: int) returns (r: Outcome)
      requires Valid() && n >= 0
      modifies reader
      ensures Valid() && r == OutcomeOf(Memory, old(View()), Op.Read(n)) && View() == After(Memory, old(View()), Op.Read(n))
    {
      if closed {
        return Failed(StorageClosed);
      }
      r := reader.Read(n);
    }

    method Seek(offset: int, whence: Whence) returns (r: Outcome)
      requires Valid()
      modifies reader
      ensures Valid() && r == OutcomeOf(Memory, old(View()), Op.Seek(offset, whence))
      ensures View() == After(Memory, old(View()), Op.Seek(offset, whence))
    {
      if closed {
        return Failed(StorageClosed);
      }
      r := reader.Seek(offset, whence);
    }

    method Bytes() returns (r: Outcome)
      requires Valid()
      ensures r == OutcomeOf(Memory, View(), Op.Bytes)
    {
      r := if closed then Failed(StorageClosed) else Got(data, None);
    }

    method NewReader() returns (r: Outcome, handle: BufferReader?)
      requires Valid()
      ensures r == OutcomeOf(Memory, View(), Op.NewReader)
      ensures r.Ok? ==> handle != null && fresh(handle) && handle.data == data && handle.position == 0
    {
      if closed {
        return Failed(StorageClosed), null;
      }
      handle := new BufferReader(data);
      r := Ok;
    }

    /** Only the first Close gives the buffer back. */
    method Close() returns (r: Outcome)
      requires Valid() && stats != this as object && stats != reader as object
      modifies this, stats
      ensures Valid() && r == Ok && View() == After(Memory, old(View()), Op.Close)
      ensures stats.View() == if old(closed) then old(stats.View()) else WithoutMemoryBuffer(old(stats.View()), |data|)
    {
      if !closed {
        closed := true;
        stats.DecrementMemoryBuffers(|data|);
      }
      r := Ok;
    }
  }

  class DiskStorage {
    const file: FileHandle
    const size: int
    const stats: CacheStats
    var closed: bool

    ghost predicate Valid()
      reads this, file
    {
      size == |file.data| && file.position >= 0 && (file.closed <==> closed)
    }

    ghost function View(): Body
      reads this, file
    {
      Body(file.data, Cursor(file.position, closed), [])
    }

    constructor (data: seq<int>, stats: CacheStats)
      modifies stats
      ensures Valid() && fresh(file) && this.stats == stats
      ensures View() == Body(data, Cursor(0, false), [])
      ensures stats.View() == WithDiskFile(old(stats.View()), |data|)
    {
      file := new FileHandle(data);
      size := |data|;
      this.stats := stats;
      closed := false;
      new;
      stats.IncrementDiskFiles(|data|);
    }

    method Read(n: int) returns (r: Outcome)
      requires Valid() && n >= 0
      modifies file
      ensures Valid() && r == OutcomeOf(Disk, old(View()), Op.Read(n)) && View() == After(Disk, old(View()), Op.Read(n))
    {
      if closed {
        return Failed(StorageClosed);
      }
      r := file.Read(n);
    }

    method Seek(offset: int, whence: Whence) returns (r: Outcome)
      requires Valid()
      modifies file
      ensures Valid() && r == OutcomeOf(Disk, old(View()), Op.Seek(offset, whence))
      ensures View() == After(Disk, old(View()), Op.Seek(offset, whence))
    {
      if closed {
        return Failed(StorageClosed);
      }
      r := file.Seek(offset, whence);
    }

    /** Reads the whole file and puts the offset back where it was. */
    method Bytes() returns (r: Outcome)
      requires Valid()
      modifies file
      ensures Valid() && r == OutcomeOf(Disk, old(View()), Op.Bytes) && View() == old(View())
    {
      if closed {
        return Failed(StorageClosed);
      }
      var here := file.Seek(0, FromCurrent);
      if here.Failed? {
        return here;
      }
      var start := file.Seek(0, FromStart);
      if start.Failed? {
        return start;
      }
      var data, full := file.ReadFull(size);
      if !full {
        return Failed(EndOfFile);
      }
      var back := file.Seek(here.position, FromStart);
      if back.Failed? {
        return back;
      }
      r := Got(data, None);
    }

    method NewReader() returns (r: Outcome, handle: FileHandle?)
      requires Valid()
      ensures r == OutcomeOf(Disk, View(), Op.NewReader)
      ensures r.Ok? ==> handle != null && fresh(handle) && handle.data == file.data && handle.position == 0 && !handle.closed
    {
      if closed {
        return Failed(StorageClosed), null;
      }
      handle := new FileHandle(file.data);
      r := Ok;
    }

    /** Only the first Close closes the file and gives its space back. */
    method Close() returns (r: Outcome)
      requires Valid() && stats != this as object && stats != file as object
      modifies this, file, stats
      ensures Valid() && r == Ok && View() == After(Disk, old(View()), Op.Close)
      ensures stats.View() == if old(closed) then old(stats.View()) else WithoutDiskFile(old(stats.View()), size)
    {
      if !closed {
        closed := true;
        var ignored := file.Close();
        stats.DecrementDiskFiles(size);
      }
      r := Ok;
    }
  }

  /** A fresh storage of one kind or the other over the given bytes. */
  ghost predicate Holds(memory: MemoryStorage?, disk: DiskStorage?, kind: Kind, data: seq<int>)
    reads memory, disk
    reads if memory == null then {} else {memory.reader}, if disk == null then {} else {disk.file}
  {
    && (kind.Memory? ==> disk == null && memory != null && memory.Valid() && memory.View() == Body(data, Cursor(0, false), []))
    && (kind.Disk? ==> memory == null && disk != null && disk.Valid() && disk.View() == Body(data, Cursor(0, false), []))
  }

  method CreateBodyStorage(data: seq<int>, cfg: Config, stats: CacheStats, diskWorks: bool)
    returns (memory: MemoryStorage?, disk: DiskStorage?)
    modifies stats
    ensures var kind := KindFor(cfg, old(stats.View()), |data|, diskWorks);
            Holds(memory, disk, kind, data) && stats.View() == CountedIn(old(stats.View()), kind, |data|, false)
    ensures disk != null <==> cfg.enabled && cfg.threshold <= |data| <= cfg.maxBytes - old(stats.currentDiskUsageBytes) && diskWorks
  {
    memory, disk := null, null;
    if cfg.enabled && |data| >= cfg.threshold && IsDiskCacheAvailable(cfg, stats.View(), |data|) && diskWorks {
      disk := new DiskStorage(data, stats);
    } else {
      memory := new MemoryStorage(data, stats);
    }
  }

  method CreateBodyStorageFromReader(input: seq<int>, contentLength: int, maxBytes: int, cfg: Config, stats: CacheStats, diskWorks: bool)
    returns (memory: MemoryStorage?, disk: DiskStorage?, error: Option<CreateError>)
    modifies stats
    ensures var made := FromReader(cfg, old(stats.View()), input, contentLength, maxBytes, diskWorks);
            if made.Refused? then error == Some(made.error) && stats.View() == old(stats.View())
            else error == None && Holds(memory, disk, made.kind, input)
                 && stats.View() == CountedIn(old(stats.View()), made.kind, |input|, true)
  {
    memory, disk, error := null, null, None;
    FromReaderKeepsIff(cfg, stats.View(), input, contentLength, maxBytes, diskWorks);
    var kept := Limited(input, maxBytes + 1);
    if cfg.enabled && contentLength > 0 && contentLength >= cfg.threshold && IsDiskCacheAvailable(cfg, stats.View(), contentLength) {
      if !diskWorks {
        return null, null, Some(DiskFailed);
      }
      if |kept| > maxBytes {
        return null, null, Some(TooLarge);
      }
      disk := new DiskStorage(kept, stats);
      stats.IncrementDiskCacheHits();
      return;
    }
    if |kept| > maxBytes {
      return null, null, Some(TooLarge);
    }
    memory, disk := CreateBodyStorage(kept, cfg, stats, diskWorks);
    if disk == null {
      stats.IncrementMemoryCacheHits();
    } else {
      stats.IncrementDiskCacheHits();
    }
  }

  // ---- When the two storages can be told apart ----

  /** Memory and disk agree on everything but the cursors of readers that were themselves closed. */
  ghost predicate InStep(m: Body, d: Body) {
    && m.data == d.data && m.main == d.main && |m.readers| == |d.readers|
    && forall i :: 0 <= i < |m.readers| ==>
         m.readers[i].closed == d.readers[i].closed && (!d.readers[i].closed ==> m.readers[i] == d.readers[i])
  }

  /** An empty read at the end of the data, or a reader used after its own Close. */
  predicate TellsApart(body: Body, op: Op)
    requires Sensible(body, op)
  {
    match op
    case Read(n) => n == 0 && !body.main.closed && body.main.position >= |body.data|
    case ReaderRead(i, n) => body.readers[i].closed || (n == 0 && body.readers[i].position >= |body.data|)
    case ReaderClose(i) => body.readers[i].closed
    case _ => false
  }

  /** Both storages answer alike exactly when the operation does not tell them apart, and stay in step. */
  lemma StepAlikeIff(m: Body, d: Body, op: Op)
    requires WellPlaced(m) && WellPlaced(d) && InStep(m, d) && Sensible(d, op)
    ensures Sensible(m, op)
    ensures OutcomeOf(Memory, m, op) == OutcomeOf(Disk, d, op) <==> !TellsApart(d, op)
    ensures InStep(After(Memory, m, op), After(Disk, d, op))
    ensures WellPlaced(After(Memory, m, op)) && WellPlaced(After(Disk, d, op))
  {
  }

  ghost predicate AllSensible(kind: Kind, body: Body, ops: seq<Op>)
    requires WellPlaced(body)
    decreases |ops|
  {
    ops == [] || (Sensible(body, ops[0]) && WellPlaced(After(kind, body, ops[0])) && AllSensible(kind, After(kind, body, ops[0]), ops[1..]))
  }

  ghost function Outcomes(kind: Kind, body: Body, ops: seq<Op>): seq<Outcome>
    requires WellPlaced(body) && AllSensible(kind, body, ops)
    decreases |ops|
  {
    if ops == [] then []
    else [OutcomeOf(kind, body, ops[0])] + Outcomes(kind, After(kind, body, ops[0]), ops[1..])
  }

  /** No operation of the run tells the storages apart. */
  ghost predicate NeverTellsApart(body: Body, ops: seq<Op>)
    requires WellPlaced(body) && AllSensible(Disk, body, ops)
    decreases |ops|
  {
    ops == [] || (!TellsApart(body, ops[0]) && NeverTellsApart(After(Disk, body, ops[0]), ops[1..]))
  }

  /** Over every run, memory and disk give identical results exactly when no operation tells them apart. */
  lemma {:induction false} RunAlikeIff(m: Body, d: Body, ops: seq<Op>)
    requires WellPlaced(m) && WellPlaced(d) && InStep(m, d) && AllSensible(Disk, d, ops)
    ensures AllSensible(Memory, m, ops)
    ensures Outcomes(Memory, m, ops) == Outcomes(Disk, d, ops) <==> NeverTellsApart(d, ops)
    decreases |ops|
  {
    if ops != [] {
      var op := ops[0];
      StepAlikeIff(m, d, op);
      RunAlikeIff(After(Memory, m, op), After(Disk, d, op), ops[1..]);
      HeadsAndTails(OutcomeOf(Memory, m, op), Outcomes(Memory, After(Memory, m, op), ops[1..]),
                    OutcomeOf(Disk, d, op), Outcomes(Disk, After(Disk, d, op), ops[1..]));
    }
  }

  lemma HeadsAndTails(x: Outcome, xs: seq<Outcome>, y: Outcome, ys: seq<Outcome>)
    ensures [x] + xs == [y] + ys <==> x == y && xs == ys
  {
    if [x] + xs == [y] + ys {
      assert ([x] + xs)[0] == ([y] + ys)[0];
      assert ([x] + xs)[1..] == ([y] + ys)[1..];
    }
  }

  // ---- Replay ----

  predicate NonNegative(sizes: seq<int>) {
    sizes == [] || (sizes[0] >= 0 && NonNegative(sizes[1..]))
  }

  function Sum(sizes: seq<int>): (r: int) {
    if sizes == [] then 0 else sizes[0] + Sum(sizes[1..])
  }

  /** The bytes delivered by reads of the given buffer sizes. */
  function Delivered(kind: Kind, data: seq<int>, position: int, sizes: seq<int>): (r: seq<int>)
    requires position >= 0 && NonNegative(sizes)
    decreases |sizes|
  {
    if sizes == [] then []
    else
      var got := CursorRead(kind, data, position, sizes[0]).bytes;
      got + Delivered(kind, data, position + |got|, sizes[1..])
  }

  function Capped(data: seq<int>, position: int): (r: int) {
    if position <= |data| then position else |data|
  }

  lemma OneRead(kind: Kind, data: seq<int>, position: int, n: int)
    requires 0 <= position <= |data| && n >= 0
    ensures CursorRead(kind, data, position, n).bytes == data[position..Capped(data, position + n)]
  {
  }

  lemma {:induction false} SumNonNegative(sizes: seq<int>)
    requires NonNegative(sizes)
    ensures Sum(sizes) >= 0
  {
    if sizes != [] {
      SumNonNegative(sizes[1..]);
    }
  }

  lemma CappedTwice(data: seq<int>, position: int, first: int, rest: int)
    requires 0 <= position <= |data| && first >= 0 && rest >= 0
    ensures position <= Capped(data, position + first) <= Capped(data, position + (first + rest)) <= |data|
    ensures Capped(data, Capped(data, position + first) + rest) == Capped(data, position + (first + rest))
  {
  }

  lemma DeliveredStep(kind: Kind, data: seq<int>, position: int, sizes: seq<int>, next: int)
    requires 0 <= position <= |data| && NonNegative(sizes) && sizes != [] && next == Capped(data, position + sizes[0])
    ensures position <= next <= |data|
    ensures Delivered(kind, data, position, sizes) == data[position..next] + Delivered(kind, data, next, sizes[1..])
  {
    var got := CursorRead(kind, data, position, sizes[0]).bytes;
    OneRead(kind, data, position, sizes[0]);
    assert got == data[position..next] && position + |got| == next;
  }

  /** However a replay chops its reads, it gets the stored bytes in order, as many as it asked for. */
  lemma {:induction false} ReplayDeliversData(kind: Kind, data: seq<int>, position: int, sizes: seq<int>)
    requires 0 <= position <= |data| && NonNegative(sizes)
    ensures position <= Capped(data, position + Sum(sizes))
    ensures Delivered(kind, data, position, sizes) == data[position..Capped(data, position + Sum(sizes))]
    decreases |sizes|
  {
    if sizes != [] {
      var first, rest := sizes[0], Sum(sizes[1..]);
      var next := Capped(data, position + first);
      SumNonNegative(sizes[1..]);
      CappedTwice(data, position, first, rest);
      DeliveredStep(kind, data, position, sizes, next);
      ReplayDeliversData(kind, data, next, sizes[1..]);
      SliceJoin(data, position, next, Capped(data, position + (first + rest)));
    }
  }

  lemma SliceJoin(data: seq<int>, a: int, b: int, c: int)
    requires 0 <= a <= b <= c <= |data|
    ensures data[a..b] + data[b..c] == data[a..c]
  {
  }

  // ---- Closing is final ----

  predicate OnStorage(op: Op) {
    op.Read? || op.Seek? || op.Bytes? || op.NewReader?
  }

  /** After Close every storage operation of every later run fails with the closed error. */
  lemma {:induction false} ClosedForGood(kind: Kind, body: Body, ops: seq<Op>, i: nat)
    requires WellPlaced(body) && AllSensible(kind, body, ops) && body.main.closed
    requires i < |ops| && OnStorage(ops[i])
    ensures i < |Outcomes(kind, body, ops)| && Outcomes(kind, body, ops)[i] == Failed(StorageClosed)
    decreases |ops|
  {
    if i > 0 {
      ClosedForGood(kind, After(kind, body, ops[0]), ops[1..], i - 1);
    }
  }

  // ---- Reading where one has gone ----

  /** An open storage gives up to n bytes from its offset and moves on past them; at the end it gives none and says so. */
  lemma ReadIs(kind: Kind, body: Body, n: int)
    requires WellPlaced(body) && !body.main.closed && n > 0
    ensures var start, stop := body.main.position, body.main.position + n;
            && OutcomeOf(kind, body, Read(n)) == (if start >= |body.data| then Got([], Some(EndOfFile))
                                                  else if stop <= |body.data| then Got(body.data[start..stop], None)
                                                  else Got(body.data[start..], None))
            && After(kind, body, Read(n)) == body.(main := Cursor(if start >= |body.data| then start else if stop <= |body.data| then stop else |body.data|, false))
  {
  }

  /** A seek from the start goes there, or is refused before it and leaves the offset. */
  lemma SeekIs(kind: Kind, body: Body, target: int)
    requires WellPlaced(body) && !body.main.closed
    ensures OutcomeOf(kind, body, Seek(target, FromStart)) == if target < 0 then Failed(NegativeSeek) else At(target)
    ensures After(kind, body, Seek(target, FromStart)) == if target < 0 then body else body.(main := Cursor(target, false))
  {
  }

  /** The other two origins are the current offset and the end of the data. */
  lemma SeekOrigins(kind: Kind, body: Body, offset: int)
    requires WellPlaced(body)
    ensures var here, end := Seek(body.main.position + offset, FromStart), Seek(|body.data| + offset, FromStart);
            && OutcomeOf(kind, body, Seek(offset, FromCurrent)) == OutcomeOf(kind, body, here)
            && After(kind, body, Seek(offset, FromCurrent)) == After(kind, body, here)
            && OutcomeOf(kind, body, Seek(offset, FromEnd)) == OutcomeOf(kind, body, end)
            && After(kind, body, Seek(offset, FromEnd)) == After(kind, body, end)
  {
  }

  /** A new reader starts at the beginning, wherever the storage itself is. */
  lemma ReaderStartsOver(kind: Kind, body: Body, n: int)
    requires WellPlaced(body) && !body.main.closed && body.data != [] && n > 0
    ensures var next, i := After(kind, body, NewReader), |body.readers|;
            && next.main == body.main && |next.readers| == i + 1 && next.readers[..i] == body.readers
            && OutcomeOf(kind, next, ReaderRead(i, n)) == Got(if n <= |body.data| then body.data[..n] else body.data, None)
  {
    assert body.data[0..] == body.data;
  }
}
