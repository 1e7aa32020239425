/** The global cache counters and the choice between memory and disk. */
module CacheAccounting {
  datatype Stats = Stats(diskFiles: int, diskBytes: int, memBuffers: int, memBytes: int, diskHits: int, memHits: int)

  const NoStats := Stats(0, 0, 0, 0, 0, 0)

  function Clamp(n: int): (r: int) {
    if n < 0 then 0 else n
  }

  function WithDiskFile(s: Stats, size: int): (r: Stats) {
    s.(diskFiles := s.diskFiles + 1, diskBytes := s.diskBytes + size)
  }

  function WithoutDiskFile(s: Stats, size: int): (r: Stats) {
    s.(diskFiles := Clamp(s.diskFiles - 1), diskBytes := Clamp(s.diskBytes - size))
  }

  function WithMemoryBuffer(s: Stats, size: int): (r: Stats) {
    s.(memBuffers := s.memBuffers + 1, memBytes := s.memBytes + size)
  }

  function WithoutMemoryBuffer(s: Stats, size: int): (r: Stats) {
    s.(memBuffers := s.memBuffers - 1, memBytes := s.memBytes - size)
  }

  /** The process-wide counters. */
  class CacheStats {
    var activeDiskFiles: int
    var currentDiskUsageBytes: int
    var activeMemoryBuffers: int
    var currentMemoryUsageBytes: int
    var diskCacheHits: int
    var memoryCacheHits: int

    constructor ()
      ensures View() == NoStats
    {
      activeDiskFiles, currentDiskUsageBytes := 0, 0;
      activeMemoryBuffers, currentMemoryUsageBytes := 0, 0;
      diskCacheHits, memoryCacheHits := 0, 0;
    }

    function View(): (r: Stats)
      reads this
    {
      Stats(activeDiskFiles, currentDiskUsageBytes, activeMemoryBuffers, currentMemoryUsageBytes, diskCacheHits, memoryCacheHits)
    }

    method IncrementDiskFiles(size: int)
      modifies this
      ensures View() == WithDiskFile(old(View()), size)
    {
      activeDiskFiles := activeDiskFiles + 1;
      currentDiskUsageBytes := currentDiskUsageBytes + size;
    }

    method DecrementDiskFiles(size: int)
      modifies this
      ensures View() == WithoutDiskFile(old(View()), size)
    {
      activeDiskFiles := activeDiskFiles - 1;
      if activeDiskFiles < 0 {
        activeDiskFiles := 0;
      }
      currentDiskUsageBytes := currentDiskUsageBytes - size;
      if currentDiskUsageBytes < 0 {
        currentDiskUsageBytes := 0;
      }
    }

    method IncrementMemoryBuffers(size: int)
      modifies this
      ensures View() == WithMemoryBuffer(old(View()), size)
    {
      activeMemoryBuffers := activeMemoryBuffers + 1;
      currentMemoryUsageBytes := currentMemoryUsageBytes + size;
    }

    method DecrementMemoryBuffers(size: int)
      modifies this
      ensures View() == WithoutMemoryBuffer(old(View()), size)
    {
      activeMemoryBuffers := activeMemoryBuffers - 1;
      currentMemoryUsageBytes := currentMemoryUsageBytes - size;
    }

    method IncrementDiskCacheHits()
      modifies this
      ensures View() == old(View()).(diskHits := old(diskCacheHits) + 1)
    {
      diskCacheHits := diskCacheHits + 1;
    }

    method IncrementMemoryCacheHits()
      modifies this
      ensures View() == old(View()).(memHits := old(memoryCacheHits) + 1)
    {
      memoryCacheHits := memoryCacheHits + 1;
    }
  }

  // ---- Choosing a storage ----

  datatype Config = Config(enabled: bool, threshold: int, maxBytes: int)

  datatype Kind = Memory | Disk

  datatype CreateError = TooLarge | DiskFailed

  predicate IsDiskCacheAvailable(cfg: Config, s: Stats, requestSize: int) {
    cfg.enabled && s.diskBytes + requestSize <= cfg.maxBytes
  }

  /** CreateBodyStorage: disk for large bodies when there is room, memory otherwise and on disk failure. */
  function KindFor(cfg: Config, s: Stats, size: int, diskWorks: bool): (r: Kind) {
    if cfg.enabled && size >= cfg.threshold && IsDiskCacheAvailable(cfg, s, size) && diskWorks then Disk else Memory
  }

  /** io.LimitReader: at most n bytes, none when n is not positive. */
  function Limited<T>(input: seq<T>, n: int): (r: seq<T>) {
    if n <= 0 then [] else if |input| <= n then input else input[..n]
  }

  /** A declared length sends the body straight to disk. */
  predicate StreamsToDisk(cfg: Config, s: Stats, contentLength: int) {
    cfg.enabled && contentLength > 0 && contentLength >= cfg.threshold && IsDiskCacheAvailable(cfg, s, contentLength)
  }

  datatype Created<T> = Refused(error: CreateError) | Stored(kind: Kind, content: seq<T>)

  /** CreateBodyStorageFromReader on a reader that delivers the whole input without error. */
  function FromReader<T>(cfg: Config, s: Stats, input: seq<T>, contentLength: int, maxBytes: int, diskWorks: bool): (r: Created<T>) {
    var kept := Limited(input, maxBytes + 1);
    if StreamsToDisk(cfg, s, contentLength) then
      if !diskWorks then Refused(DiskFailed)
      else if |kept| > maxBytes then Refused(TooLarge)
      else Stored(Disk, kept)
    else if |kept| > maxBytes then Refused(TooLarge)
    else Stored(KindFor(cfg, s, |kept|, diskWorks), kept)
  }

  /** A body goes to disk exactly when the cache is on, it reaches the threshold, there is room for it and the disk works. */
  lemma KindIff(cfg: Config, s: Stats, size: int, diskWorks: bool)
    ensures KindFor(cfg, s, size, diskWorks) == Disk <==> cfg.enabled && cfg.threshold <= size <= cfg.maxBytes - s.diskBytes && diskWorks
  {
  }

  /** Exactly the bodies within the limit are kept, and they are kept whole: straight on disk when a positive length is declared
      that the cache takes, otherwise wherever a body of their size goes. */
  lemma FromReaderKeepsIff<T>(cfg: Config, s: Stats, input: seq<T>, contentLength: int, maxBytes: int, diskWorks: bool)
    ensures var r := FromReader(cfg, s, input, contentLength, maxBytes, diskWorks);
            var direct := cfg.enabled && contentLength > 0 && cfg.threshold <= contentLength <= cfg.maxBytes - s.diskBytes;
            && (r.Stored? <==> |input| <= maxBytes && (diskWorks || !direct))
            && (r.Stored? ==> r.content == input)
            && (r.Stored? ==> (r.kind == Disk <==> diskWorks && (direct || (cfg.enabled && cfg.threshold <= |input| <= cfg.maxBytes - s.diskBytes))))
            && (r == Refused(DiskFailed) <==> direct && !diskWorks)
            && (r == Refused(TooLarge) <==> |input| > maxBytes && (diskWorks || !direct))
  {
  }

  /** The counters after a creation with nothing else in between; only streamed creations count as cache hits. */
  function CountedIn(s: Stats, kind: Kind, size: int, streamed: bool): (r: Stats) {
    var counted := if kind.Disk? then WithDiskFile(s, size) else WithMemoryBuffer(s, size);
    if !streamed then counted
    else if kind.Disk? then counted.(diskHits := counted.diskHits + 1)
    else counted.(memHits := counted.memHits + 1)
  }

  /** A creation counts one storage of its kind with its bytes, and one hit of its kind when it was streamed. */
  lemma CountedInIs(s: Stats, size: int)
    ensures CountedIn(s, Disk, size, false) == Stats(s.diskFiles + 1, s.diskBytes + size, s.memBuffers, s.memBytes, s.diskHits, s.memHits)
    ensures CountedIn(s, Disk, size, true) == Stats(s.diskFiles + 1, s.diskBytes + size, s.memBuffers, s.memBytes, s.diskHits + 1, s.memHits)
    ensures CountedIn(s, Memory, size, false) == Stats(s.diskFiles, s.diskBytes, s.memBuffers + 1, s.memBytes + size, s.diskHits, s.memHits)
    ensures CountedIn(s, Memory, size, true) == Stats(s.diskFiles, s.diskBytes, s.memBuffers + 1, s.memBytes + size, s.diskHits, s.memHits + 1)
  {
  }

  /** Closing undoes the creation, hits apart. */
  lemma CloseUndoes(s: Stats, size: int, streamed: bool)
    requires s.diskFiles >= 0 && s.diskBytes >= 0
    ensures var disk := CountedIn(s, Disk, size, streamed); WithoutDiskFile(disk, size) == s.(diskHits := disk.diskHits)
    ensures var memory := CountedIn(s, Memory, size, streamed); WithoutMemoryBuffer(memory, size) == s.(memHits := memory.memHits)
  {
  }

  /** Whatever is given back, the disk counters never fall below zero. */
  lemma DiskNeverNegative(s: Stats, size: int)
    ensures WithoutDiskFile(s, size).diskFiles >= 0 && WithoutDiskFile(s, size).diskBytes >= 0
  {
  }
}
