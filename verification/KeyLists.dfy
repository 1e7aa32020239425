/** The multi-key actions on a decoded key list with its maps, and on a plain list of key records. */
module KeyLists {
  import opened Lists
  import opened KeyText
  import opened KeyRecords
  import opened KeyManager

  // ---- On records ----

  function DisabledAt(records: seq<Record>, index: Option<int>): (r: seq<Record>) {
    if IndexIn(index, |records|) then records[index.value := records[index.value].(status := ManuallyDisabled)] else records
  }

  function EnabledAt(records: seq<Record>, index: Option<int>): (r: seq<Record>) {
    if IndexIn(index, |records|) then records[index.value := Record(records[index.value].key, Enabled, None, None)] else records
  }

  function AllEnabled(records: seq<Record>): (r: seq<Record>)
    ensures |r| == |records|
    ensures forall i :: 0 <= i < |r| ==> r[i] == Record(records[i].key, Enabled, None, None)
  {
    seq(|records|, i requires 0 <= i < |records| => Record(records[i].key, Enabled, None, None))
  }

  function DisabledRecord(record: Record): (r: Record) {
    if record.status == Enabled then record.(status := ManuallyDisabled) else record
  }

  function NoneEnabled(records: seq<Record>): (r: seq<Record>)
    ensures |r| == |records| && forall i :: 0 <= i < |r| ==> r[i] == DisabledRecord(records[i])
  {
    seq(|records|, i requires 0 <= i < |records| => DisabledRecord(records[i]))
  }

  /** The last key cannot be deleted. */
  function DeletedAt(records: seq<Record>, index: Option<int>): (r: seq<Record>) {
    if IndexIn(index, |records|) && |records| > 1 then Dropped(records, index.value) else records
  }

  function DisabledDeleted(records: seq<Record>): (r: seq<Record>) {
    if SomeAutoDisabled(records) then Survivors(records) else records
  }

  function NewRecords(keys: seq<string>): (r: seq<Record>)
    ensures |r| == |keys| && forall i :: 0 <= i < |r| ==> r[i] == Record(keys[i], Enabled, None, None)
  {
    seq(|keys|, i requires 0 <= i < |keys| => Record(keys[i], Enabled, None, None))
  }

  function AppendedRecords(records: seq<Record>, lines: seq<string>): (r: seq<Record>) {
    records + NewRecords(AddedKeys(KeysOf(records), lines))
  }

  function MarkedRecords(records: seq<Record>, usingKey: string, status: int, reason: string, now: int): (r: seq<Record>) {
    var i := IndexOf(KeysOf(records), usingKey);
    if i == -1 then records
    else if status == Enabled then records[i := records[i].(status := Enabled)]
    else records[i := Record(usingKey, status, Some(now), Some(reason))]
  }

  function Act(records: seq<Record>, a: Action): (r: seq<Record>) {
    match a
    case DisableKey(index) => DisabledAt(records, index)
    case EnableKey(index) => EnabledAt(records, index)
    case EnableAllKeys => AllEnabled(records)
    case DisableAllKeys => NoneEnabled(records)
    case DeleteKey(index) => DeletedAt(records, index)
    case DeleteDisabledKeys => DisabledDeleted(records)
    case AppendToKeys(lines) => AppendedRecords(records, lines)
    case MarkKey(usingKey, status, reason, now) => MarkedRecords(records, usingKey, status, reason, now)
  }

  // ---- On the maps ----

  lemma KeysOfRecords(keys: seq<string>, info: Info)
    ensures KeysOf(Records(keys, info)) == keys
  {
  }

  lemma MapsDisable(keys: seq<string>, info: Info, index: Option<int>)
    requires IndexIn(index, |keys|)
    ensures Records(keys, info.(status := info.status[index.value := ManuallyDisabled])) == DisabledAt(Records(keys, info), index)
  {
  }

  lemma MapsEnable(keys: seq<string>, info: Info, index: Option<int>)
    requires IndexIn(index, |keys|)
    ensures Records(keys, Enabling(info, index.value)) == EnabledAt(Records(keys, info), index)
  {
  }

  lemma MapsEnableAll(keys: seq<string>, info: Info, size: int)
    ensures Records(keys, Info(size, map[], map[], map[])) == AllEnabled(Records(keys, info))
  {
  }

  lemma MapsDisableAll(keys: seq<string>, info: Info, size: int)
    requires |keys| <= size
    ensures Records(keys, info.(status := AllDisabled(info.status, size))) == NoneEnabled(Records(keys, info))
  {
    var next := info.(status := AllDisabled(info.status, size));
    forall i | 0 <= i < |keys| ensures RecordAt(keys[i], next, i) == DisabledRecord(RecordAt(keys[i], info, i)) {
      AllDisabledAt(info.status, size, i);
    }
  }

  lemma AllDisabledBelow(status: map<int, int>, size: int)
    requires Below(status, size)
    ensures Below(AllDisabled(status, size), size)
  {
    forall i <- AllDisabled(status, size) ensures 0 <= i < size {
      AllDisabledAt(status, size, i);
    }
  }

  /** Nothing to disable: the list is already as asked. */
  lemma MapsNoneEnabled(keys: seq<string>, info: Info, size: int)
    requires |keys| <= size && !SomeEnabled(info.status, size)
    ensures Records(keys, info) == NoneEnabled(Records(keys, info))
  {
    forall i | 0 <= i < |keys| ensures RecordAt(keys[i], info, i) == DisabledRecord(RecordAt(keys[i], info, i)) {
      assert StatusAt(info.status, i) != Enabled;
    }
  }

  lemma MapsMarkAt(keys: seq<string>, info: Info, i: int, status: int, reason: string, now: int)
    requires 0 <= i < |keys|
    ensures var next := Marked(info, i, status, reason, now);
            && RecordAt(keys[i], next, i) == (if status == Enabled then RecordAt(keys[i], info, i).(status := Enabled)
                                              else Record(keys[i], status, Some(now), Some(reason)))
            && forall j :: 0 <= j < |keys| && j != i ==> RecordAt(keys[j], next, j) == RecordAt(keys[j], info, j)
  {
  }

  lemma MapsMark(keys: seq<string>, info: Info, usingKey: string, status: int, reason: string, now: int)
    requires usingKey in keys
    ensures Records(keys, Marked(info, IndexOf(keys, usingKey), status, reason, now)) ==
            MarkedRecords(Records(keys, info), usingKey, status, reason, now)
  {
    KeysOfRecords(keys, info);
    MapsMarkAt(keys, info, IndexOf(keys, usingKey), status, reason, now);
  }

  /** Nothing is recorded under these indexes. */
  ghost predicate Unused(info: Info, from: int, to: int) {
    forall i :: from <= i < to ==> StatusAt(info.status, i) == Enabled && Find(info.times, i).None? && Find(info.reasons, i).None?
  }

  lemma InRangeUnused(info: Info, n: int, to: int)
    requires InRange(info, n)
    ensures Unused(info, n, to)
  {
  }

  /** Keys added after the others are new exactly when nothing is recorded under their indexes. */
  lemma MapsAppendIff(keys: seq<string>, info: Info, added: seq<string>)
    ensures Records(keys + added, info) == Records(keys, info) + NewRecords(added) <==> Unused(info, |keys|, |keys + added|)
  {
    var n, all, next := |keys|, Records(keys + added, info), Records(keys, info) + NewRecords(added);
    assert forall i :: 0 <= i < n ==> all[i] == next[i];
    assert forall i :: n <= i < |all| ==> all[i] == RecordAt(added[i - n], info, i) && next[i] == Record(added[i - n], Enabled, None, None);
    if all == next {
      forall i | n <= i < |all| ensures StatusAt(info.status, i) == Enabled && Find(info.times, i).None? && Find(info.reasons, i).None? {
        assert all[i] == next[i];
      }
    }
  }

  lemma DroppedKeys(records: seq<Record>, index: int)
    ensures forall r <- Dropped(records, index) :: r in records
    ensures 0 <= index < |records| ==> |Dropped(records, index)| == |records| - 1
  {
  }

  // ---- Times and reasons ----

  /** The handler enables a key that has a time or a reason recorded. */
  predicate LeavesStale(records: seq<Record>, a: Action) {
    && a.MarkKey? && a.status == Enabled
    && var i := IndexOf(KeysOf(records), a.usingKey);
       i != -1 && (records[i].time.Some? || records[i].reason.Some?)
  }

  lemma MarkKeepsCleanIff(records: seq<Record>, a: Action)
    requires CleanRecords(records) && a.MarkKey?
    ensures CleanRecords(MarkedRecords(records, a.usingKey, a.status, a.reason, a.now)) <==> !LeavesStale(records, a)
  {
    var i := IndexOf(KeysOf(records), a.usingKey);
    if i != -1 {
      var next := MarkedRecords(records, a.usingKey, a.status, a.reason, a.now);
      assert forall j :: 0 <= j < |records| && j != i ==> next[j] == records[j];
      assert CleanRecords(next) <==> CleanRecord(next[i]);
    }
  }

  lemma SurvivorsAreClean(records: seq<Record>)
    ensures CleanRecords(Survivors(records))
  {
    SurvivorsMembers(records);
    forall i | 0 <= i < |Survivors(records)| ensures CleanRecord(Survivors(records)[i]) {
      assert Survivors(records)[i] in Survivors(records);
    }
  }

  lemma NewRecordsAreClean(records: seq<Record>, added: seq<string>)
    requires CleanRecords(records)
    ensures CleanRecords(records + NewRecords(added))
  {
  }

  lemma UpdateKeepsClean(records: seq<Record>, i: nat, record: Record)
    requires CleanRecords(records) && i < |records| && CleanRecord(record)
    ensures CleanRecords(records[i := record])
  {
  }

  lemma SwitchKeepsClean(records: seq<Record>, index: Option<int>)
    requires CleanRecords(records)
    ensures CleanRecords(DisabledAt(records, index)) && CleanRecords(EnabledAt(records, index))
  {
    if IndexIn(index, |records|) {
      var record := records[index.value];
      UpdateKeepsClean(records, index.value, record.(status := ManuallyDisabled));
      UpdateKeepsClean(records, index.value, Record(record.key, Enabled, None, None));
    }
  }

  lemma AllKeepClean(records: seq<Record>)
    requires CleanRecords(records)
    ensures CleanRecords(AllEnabled(records)) && CleanRecords(NoneEnabled(records))
  {
  }

  lemma DeletedKeepsClean(records: seq<Record>, index: Option<int>)
    requires CleanRecords(records)
    ensures CleanRecords(DeletedAt(records, index))
  {
  }

  /** Every action but a mark by the handler keeps the records clean. */
  lemma OthersKeepClean(records: seq<Record>, a: Action)
    requires CleanRecords(records) && !a.MarkKey?
    ensures CleanRecords(Act(records, a))
  {
    match a
    case DisableKey(index) => SwitchKeepsClean(records, index);
    case EnableKey(index) => SwitchKeepsClean(records, index);
    case EnableAllKeys => AllKeepClean(records);
    case DisableAllKeys => AllKeepClean(records);
    case DeleteKey(index) => DeletedKeepsClean(records, index);
    case DeleteDisabledKeys => SurvivorsAreClean(records);
    case AppendToKeys(lines) => NewRecordsAreClean(records, AddedKeys(KeysOf(records), lines));
  }

  /** Times and reasons stay confined to disabled keys exactly as long as the handler does not enable such a key. */
  lemma ActKeepsCleanIff(records: seq<Record>, a: Action)
    requires CleanRecords(records)
    ensures CleanRecords(Act(records, a)) <==> !LeavesStale(records, a)
  {
    if a.MarkKey? {
      MarkKeepsCleanIff(records, a);
    } else {
      OthersKeepClean(records, a);
    }
  }

  // ---- What each action does to the records ----

  /** Each is the record kept, an enabled one without time and reason. */
  ghost predicate ScrubbedFrom(left: seq<Record>, kept: seq<Record>) {
    |left| == |kept| && forall i :: 0 <= i < |kept| ==> left[i] == if kept[i].status == 1 then Record(kept[i].key, 1, None, None) else kept[i]
  }

  lemma ScrubbedSnoc(left: seq<Record>, kept: seq<Record>, last: Record)
    requires ScrubbedFrom(left, kept)
    ensures ScrubbedFrom(left + [Scrubbed(last)], kept + [last])
  {
  }

  lemma FilterSnoc(front: seq<Record>, last: Record, p: Record -> bool)
    ensures Filter(front + [last], p) == if p(last) then Filter(front, p) + [last] else Filter(front, p)
  {
    FilterConcat(front, [last], p);
    assert [last][1..] == [];
    assert Filter([last], p) == if p(last) then [last] else [];
  }

  lemma {:induction false} SurvivorsAre(records: seq<Record>, p: Record -> bool)
    requires forall r :: p(r) <==> r.status != 3
    ensures ScrubbedFrom(Survivors(records), Filter(records, p))
  {
    if records != [] {
      var front, last := records[..|records| - 1], records[|records| - 1];
      assert records == front + [last];
      SurvivorsAre(front, p);
      FilterSnoc(front, last, p);
      ScrubbedSnoc(Survivors(front), Filter(front, p), last);
    }
  }

  /** The index is given and names one of the records. */
  ghost predicate Names(index: Option<int>, records: seq<Record>) {
    index.Some? && 0 <= index.value < |records|
  }

  /** Switching: status 2 for a key disabled by hand; an enabled key has status 1, no time and no reason. */
  lemma SwitchesAre(records: seq<Record>, index: Option<int>)
    ensures Act(records, DisableKey(index)) == if Names(index, records) then records[index.value := records[index.value].(status := 2)] else records
    ensures Act(records, EnableKey(index)) == if Names(index, records) then records[index.value := Record(records[index.value].key, 1, None, None)] else records
    ensures var on := Act(records, EnableAllKeys);
            |on| == |records| && forall i :: 0 <= i < |records| ==> on[i] == Record(records[i].key, 1, None, None)
    ensures var off := Act(records, DisableAllKeys);
            |off| == |records| && forall i :: 0 <= i < |records| ==> off[i] == if records[i].status == 1 then records[i].(status := 2) else records[i]
  {
  }

  /** Deleting one record, except the last. */
  lemma DeletionIs(records: seq<Record>, index: Option<int>)
    ensures Act(records, DeleteKey(index)) == if Names(index, records) && |records| > 1 then records[..index.value] + records[index.value + 1..] else records
  {
  }

  /** Deleting every record with status 3, if there is one; the enabled ones are left without time and reason. */
  lemma CleanupIs(records: seq<Record>, p: Record -> bool, left: seq<Record>)
    requires (forall r :: p(r) <==> r.status != 3) && left == Act(records, DeleteDisabledKeys)
    ensures Filter(records, p) == records ==> left == records
    ensures Filter(records, p) != records ==> ScrubbedFrom(left, Filter(records, p))
  {
    if SomeAutoDisabled(records) {
      SurvivorsAre(records, p);
      FilterMembers(records, p);
    } else {
      FilterAll(records, p);
    }
  }

  lemma {:induction false} FirstIndex(keys: seq<string>, key: string, i: nat)
    requires i <= |keys| && (forall k :: 0 <= k < i ==> keys[k] != key) && (i < |keys| ==> keys[i] == key)
    ensures IndexOf(keys, key) == if i == |keys| then -1 else i
  {
    if i > 0 {
      FirstIndex(keys[1..], key, i - 1);
    }
  }

  /** A mark changes the first record of the key in use: enabling clears its status alone, anything else also notes time and reason. */
  lemma MarkIs(records: seq<Record>, a: Action, i: nat)
    requires a.MarkKey? && i <= |records| && (forall k :: 0 <= k < i ==> records[k].key != a.usingKey)
    requires i < |records| ==> records[i].key == a.usingKey
    ensures Act(records, a) == if i == |records| then records
                               else if a.status == 1 then records[i := records[i].(status := 1)]
                               else records[i := Record(a.usingKey, a.status, Some(a.now), Some(a.reason))]
  {
    FirstIndex(KeysOf(records), a.usingKey, i);
  }

  /** Appended keys come last, each with status 1, no time and no reason. */
  lemma AppendIs(records: seq<Record>, lines: seq<string>, added: seq<string>)
    requires added == AddedKeys(KeysOf(records), lines)
    ensures var next := Act(records, AppendToKeys(lines));
            && |next| == |records| + |added| && next[..|records|] == records
            && forall i :: 0 <= i < |added| ==> next[|records| + i] == Record(added[i], 1, None, None)
  {
  }
}
