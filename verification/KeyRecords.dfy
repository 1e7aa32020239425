/** The per-key state of a channel: three maps keyed by index, and the list of records they stand for. */
module KeyRecords {
  import opened Lists

  const Enabled := 1
  const ManuallyDisabled := 2
  const AutoDisabled := 3

  /** MultiKeySize and the index-keyed maps of ChannelInfo. */
  datatype Info = Info(size: int, status: map<int, int>, times: map<int, int>, reasons: map<int, string>)

  /** One key with everything recorded about it. */
  datatype Record = Record(key: string, status: int, time: Option<int>, reason: Option<string>)

  function Find<T>(m: map<int, T>, i: int): (r: Option<T>) {
    if i in m then Some(m[i]) else None
  }

  /** Keys without an entry are enabled. */
  function StatusAt(status: map<int, int>, i: int): (r: int) {
    if i in status then status[i] else Enabled
  }

  function RecordAt(key: string, info: Info, i: int): (r: Record) {
    Record(key, StatusAt(info.status, i), Find(info.times, i), Find(info.reasons, i))
  }

  /** The abstraction: the list of records. */
  function Records(keys: seq<string>, info: Info): (r: seq<Record>)
    ensures |r| == |keys|
    ensures forall i :: 0 <= i < |keys| ==> r[i] == RecordAt(keys[i], info, i)
  {
    seq(|keys|, i requires 0 <= i < |keys| => RecordAt(keys[i], info, i))
  }

  function KeysOf(records: seq<Record>): (r: seq<string>)
    ensures |r| == |records| && forall i :: 0 <= i < |records| ==> r[i] == records[i].key
  {
    seq(|records|, i requires 0 <= i < |records| => records[i].key)
  }

  ghost predicate Below<T>(m: map<int, T>, n: int) {
    forall i <- m :: 0 <= i < n
  }

  ghost predicate InRange(info: Info, n: int) {
    Below(info.status, n) && Below(info.times, n) && Below(info.reasons, n)
  }

  // ---- Building the maps anew ----

  const NoInfo := Info(0, map[], map[], map[])

  /** Records what is known about the next key under its new index; an enabled status needs no entry. */
  function Put(info: Info, n: int, record: Record): (r: Info) {
    Info(n + 1,
         if record.status != Enabled then info.status[n := record.status] else info.status,
         if record.time.Some? then info.times[n := record.time.value] else info.times,
         if record.reason.Some? then info.reasons[n := record.reason.value] else info.reasons)
  }

  /** The maps for a list of records, numbered from zero. */
  function Rebuilt(records: seq<Record>): (r: Info) {
    if records == [] then NoInfo
    else Put(Rebuilt(records[..|records| - 1]), |records| - 1, records[|records| - 1])
  }

  lemma PutKeepsRange(info: Info, n: nat, record: Record)
    requires InRange(info, n)
    ensures InRange(Put(info, n, record), n + 1)
    ensures RecordAt(record.key, Put(info, n, record), n) == record
    ensures forall key, i :: i < n ==> RecordAt(key, Put(info, n, record), i) == RecordAt(key, info, i)
  {
  }

  /** The rebuilt maps stand for exactly the records they were built from. */
  lemma {:induction false} RebuiltRecords(records: seq<Record>)
    ensures InRange(Rebuilt(records), |records|) && Rebuilt(records).size == |records|
    ensures Records(KeysOf(records), Rebuilt(records)) == records
  {
    if records != [] {
      var front, last := records[..|records| - 1], records[|records| - 1];
      RebuiltRecords(front);
      PutKeepsRange(Rebuilt(front), |front|, last);
      forall i | 0 <= i < |front| ensures RecordAt(front[i].key, Rebuilt(records), i) == front[i] {
        assert front[i] == Records(KeysOf(front), Rebuilt(front))[i];
      }
    }
  }

  lemma {:induction false} RebuiltSnoc(records: seq<Record>, record: Record)
    ensures Rebuilt(records + [record]) == Put(Rebuilt(records), |records|, record)
    ensures KeysOf(records + [record]) == KeysOf(records) + [record.key]
  {
    var all := records + [record];
    assert all[..|all| - 1] == records;
  }

  // ---- What the actions mean on records ----

  function Dropped(records: seq<Record>, index: int): (r: seq<Record>) {
    if 0 <= index < |records| then records[..index] + records[index + 1..] else records
  }

  /** A survivor's record; an enabled key loses a stale time and reason. */
  function Scrubbed(record: Record): (r: Record) {
    if record.status == Enabled then Record(record.key, Enabled, None, None) else record
  }

  /** The keys that are not automatically disabled. */
  function Survivors(records: seq<Record>): (r: seq<Record>) {
    if records == [] then []
    else
      var front, last := Survivors(records[..|records| - 1]), records[|records| - 1];
      if last.status == AutoDisabled then front else front + [Scrubbed(last)]
  }

  /** No time or reason is kept for an enabled key. */
  ghost predicate CleanRecord(record: Record) {
    record.status == Enabled ==> record.time.None? && record.reason.None?
  }

  ghost predicate CleanRecords(records: seq<Record>) {
    forall i :: 0 <= i < |records| ==> CleanRecord(records[i])
  }

  /** On clean records each survivor keeps exactly its own record, in order. */
  lemma {:induction false} CleanSurvivors(records: seq<Record>)
    requires CleanRecords(records)
    ensures Survivors(records) == Filter(records, (r: Record) => r.status != AutoDisabled)
  {
    if records != [] {
      var front, last := records[..|records| - 1], records[|records| - 1];
      assert records == front + [last];
      CleanSurvivors(front);
      FilterConcat(front, [last], (r: Record) => r.status != AutoDisabled);
      assert [last][1..] == [] && CleanRecord(last);
      assert Filter([last], (r: Record) => r.status != AutoDisabled) == if last.status == AutoDisabled then [] else [last];
    }
  }

  lemma {:induction false} SurvivorsMembers(records: seq<Record>)
    ensures |Survivors(records)| <= |records|
    ensures forall r <- Survivors(records) :: CleanRecord(r) && exists s <- records :: s.key == r.key
    ensures |Survivors(records)| == |records| <==> forall r <- records :: r.status != AutoDisabled
    ensures Survivors(records) == [] <==> forall r <- records :: r.status == AutoDisabled
  {
    if records != [] {
      SurvivorsMembers(records[..|records| - 1]);
      assert records == records[..|records| - 1] + [records[|records| - 1]];
    }
  }

  // ---- The reindexing loops ----

  /** The loop of delete_key: every key but one, with its entries moved to its new index. */
  method RemoveAt(keys: seq<string>, info: Info, index: int) returns (remaining: seq<string>, kept: Info)
    ensures remaining == KeysOf(Dropped(Records(keys, info), index))
    ensures kept == Rebuilt(Dropped(Records(keys, info), index))
  {
    ghost var records := Records(keys, info);
    remaining, kept := [], NoInfo;
    for i := 0 to |keys|
      invariant remaining == KeysOf(Dropped(records[..i], index))
      invariant kept == Rebuilt(Dropped(records[..i], index))
    {
      DroppedSnoc(records, i, index);
      if i != index {
        RebuiltSnoc(Dropped(records[..i], index), records[i]);
        kept := Put(kept, |remaining|, RecordAt(keys[i], info, i));
        remaining := remaining + [keys[i]];
      }
    }
    assert records[..|keys|] == records;
  }

  lemma DroppedSnoc(records: seq<Record>, i: nat, index: int)
    requires i < |records|
    ensures Dropped(records[..i + 1], index) == if i == index then Dropped(records[..i], index) else Dropped(records[..i], index) + [records[i]]
  {
  }

  lemma {:induction false} SurvivorsSnoc(records: seq<Record>, i: nat, record: Record)
    requires i < |records| && record == records[i]
    ensures var front := Survivors(records[..i]);
            Survivors(records[..i + 1]) == if record.status == AutoDisabled then front else front + [Scrubbed(record)]
  {
    var prefix := records[..i + 1];
    assert prefix[..i] == records[..i] && prefix[i] == record;
  }

  /** The loop of delete_disabled_keys. */
  method RemoveAutoDisabled(keys: seq<string>, info: Info) returns (remaining: seq<string>, kept: Info, deleted: nat)
    ensures remaining == KeysOf(Survivors(Records(keys, info)))
    ensures kept == Rebuilt(Survivors(Records(keys, info)))
    ensures deleted + |remaining| == |keys|
  {
    ghost var records := Records(keys, info);
    remaining, kept, deleted := [], NoInfo, 0;
    for i := 0 to |keys|
      invariant remaining == KeysOf(Survivors(records[..i]))
      invariant kept == Rebuilt(Survivors(records[..i]))
      invariant deleted + |remaining| == i
    {
      var record := RecordAt(keys[i], info, i);
      SurvivorsSnoc(records, i, record);
      if record.status == AutoDisabled {
        deleted := deleted + 1;
      } else {
        RebuiltSnoc(Survivors(records[..i]), Scrubbed(record));
        kept := Put(kept, |remaining|, Scrubbed(record));
        remaining := remaining + [keys[i]];
      }
    }
    assert records[..|keys|] == records;
  }

  /** The statuses once every enabled key below size is manually disabled. */
  function AllDisabled(status: map<int, int>, size: int): (r: map<int, int>) {
    if size <= 0 then status
    else
      var rest := AllDisabled(status, size - 1);
      if StatusAt(status, size - 1) == Enabled then rest[size - 1 := ManuallyDisabled] else rest
  }

  lemma {:induction false} AllDisabledAt(status: map<int, int>, size: int, i: int)
    ensures var next := AllDisabled(status, size);
            && (i in next <==> i in status || (0 <= i < size && StatusAt(status, i) == Enabled))
            && StatusAt(next, i) == if 0 <= i < size && StatusAt(status, i) == Enabled then ManuallyDisabled else StatusAt(status, i)
  {
    if size > 0 {
      AllDisabledAt(status, size - 1, i);
    }
  }

  /** The loop of disable_all_keys. */
  method DisableEnabled(status: map<int, int>, size: int) returns (next: map<int, int>, count: nat)
    ensures next == AllDisabled(status, size)
    ensures count == 0 <==> forall i :: 0 <= i < size ==> StatusAt(status, i) != Enabled
  {
    next, count := status, 0;
    var i := 0;
    while i < size
      invariant 0 <= i && (i <= size || i == 0)
      invariant next == AllDisabled(status, i)
      invariant count == 0 <==> forall j :: 0 <= j < i ==> StatusAt(status, j) != Enabled
    {
      AllDisabledAt(status, i, i);
      if StatusAt(next, i) == Enabled {
        next := next[i := ManuallyDisabled];
        count := count + 1;
      }
      i := i + 1;
    }
  }
}
