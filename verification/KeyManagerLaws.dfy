/** The multi-key channel refines a list of key records, over every run of actions. */
module KeyManagerLaws {
  import opened Lists
  import opened ModelNames
  import opened KeyText
  import opened KeyRecords
  import opened KeyManager
  import opened KeyLists

  /** What every action keeps: the stored size is the recount of the keys, and no status stands beyond it. */
  ghost predicate Counted(s: State, io: Format) {
    s.info.size == |io.count(s.key)| && Below(s.info.status, s.info.size)
  }

  /** No time or reason stands beyond the size. */
  ghost predicate Tidy(info: Info, n: int) {
    Below(info.times, n) && Below(info.reasons, n)
  }

  /** The stored size is also the number of keys read, and no map has an entry beyond it. */
  ghost predicate Consistent(s: State, io: Format) {
    Counted(s, io) && |io.read(s.key)| == s.info.size && Tidy(s.info, s.info.size)
  }

  /** A consistent channel with at least one key, all of them plain, that an append reads alike. */
  ghost predicate Good(s: State, io: Format) {
    && Consistent(s, io)
    && io.read(s.key) != [] && PlainKeys(io.read(s.key))
    && io.existing(s.key) == io.read(s.key)
  }

  /** The row holds the same key text, is still counted, and stands for these records. */
  ghost predicate Holds(s: State, next: State, records: seq<Record>, io: Format) {
    next.key == s.key && Counted(next, io) && RecordsOf(next, io) == records
  }

  /** The row stands for these records, and is good. */
  ghost predicate StandsFor(s: State, records: seq<Record>, io: Format) {
    Good(s, io) && RecordsOf(s, io) == records
  }

  /** The new keys of an append do not look like an array. */
  ghost predicate PlainAction(a: Action) {
    a.AppendToKeys? ==> PlainKeys(Normalize(a.lines))
  }

  /** The one action the channel does not carry out: deleting every key it has. */
  predicate DeletesAll(records: seq<Record>, a: Action) {
    a.DeleteDisabledKeys? && records != [] && forall r <- records :: r.status == AutoDisabled
  }

  // ---- Saving ----

  lemma UpdatedSame(s: State, stored: string, io: Format)
    requires CountsKeys(io) && io.read(s.key) != [] && InRange(s.info, |io.read(s.key)|)
    ensures Updated(s, stored, io) == s.(info := s.info.(size := |io.read(s.key)|))
  {
    var size := |io.read(s.key)|;
    assert io.count(s.key) == io.read(s.key) && s.key != "";
    assert (map i | i in s.info.status && i < size :: s.info.status[i]) == s.info.status;
  }

  lemma SavedInPlace(s: State, info: Info, io: Format)
    requires Counted(s, io) && info.size == s.info.size && Below(info.status, info.size)
    ensures Updated(s.(info := info), s.key, io) == s.(info := info)
    ensures Counted(s.(info := info), io)
  {
    assert (map i | i in info.status && i < s.info.size :: info.status[i]) == info.status;
  }

  lemma ReadWithin(s: State, io: Format)
    requires CountsKeys(io) && Counted(s, io)
    ensures io.read(s.key) == [] || |io.read(s.key)| == s.info.size
    ensures |io.read(s.key)| <= s.info.size
  {
  }

  /** Joined plain keys, saved with maps in range, stand for the records of those keys. */
  lemma JoinedRecords(keys: seq<string>, info: Info, stored: string, io: Format)
    requires PlainFormat(io) && keys != [] && PlainKeys(keys) && InRange(info, |keys|)
    ensures StandsFor(Updated(State(io.join(keys), info), stored, io), Records(keys, info), io)
  {
    var text := io.join(keys);
    assert Survives(keys, io) && io.existing(text) == keys;
    UpdatedSame(State(text, info), stored, io);
  }

  ghost predicate PlainRecords(records: seq<Record>) {
    forall r <- records :: PlainKey(r.key)
  }

  lemma PlainKeysOf(records: seq<Record>)
    requires PlainRecords(records)
    ensures PlainKeys(KeysOf(records))
  {
    forall key <- KeysOf(records) ensures PlainKey(key) {
      var i :| 0 <= i < |records| && KeysOf(records)[i] == key;
      assert records[i] in records;
    }
  }

  lemma WrittenBackRecords(s: State, records: seq<Record>, io: Format)
    requires PlainFormat(io) && records != [] && PlainRecords(records)
    ensures StandsFor(WrittenBack(s, records, io), records, io)
  {
    PlainKeysOf(records);
    RebuiltRecords(records);
    JoinedRecords(KeysOf(records), Rebuilt(records), s.key, io);
  }

  // ---- One action ----

  lemma DisableFollows(s: State, index: Option<int>, io: Format)
    requires CountsKeys(io) && Counted(s, io)
    ensures Holds(s, AfterDisable(s, index, io), DisabledAt(RecordsOf(s, io), index), io)
    ensures Consistent(AfterDisable(s, index, io), io) <==> Consistent(s, io)
  {
    ReadWithin(s, io);
    if IndexIn(index, s.info.size) {
      SavedInPlace(s, s.info.(status := s.info.status[index.value := ManuallyDisabled]), io);
      if IndexIn(index, |io.read(s.key)|) {
        MapsDisable(io.read(s.key), s.info, index);
      }
    }
  }

  lemma WithoutBelow<T>(m: map<int, T>, i: int, n: int)
    requires 0 <= i < n
    ensures Below(m - {i}, n) <==> Below(m, n)
  {
    if Below(m - {i}, n) {
      forall j <- m ensures 0 <= j < n {
        assert j == i || j in m - {i};
      }
    }
  }

  lemma EnableFollows(s: State, index: Option<int>, io: Format)
    requires CountsKeys(io) && Counted(s, io)
    ensures Holds(s, AfterEnable(s, index, io), EnabledAt(RecordsOf(s, io), index), io)
    ensures Consistent(AfterEnable(s, index, io), io) <==> Consistent(s, io)
  {
    ReadWithin(s, io);
    if IndexIn(index, s.info.size) {
      SavedInPlace(s, Enabling(s.info, index.value), io);
      WithoutBelow(s.info.times, index.value, s.info.size);
      WithoutBelow(s.info.reasons, index.value, s.info.size);
      if IndexIn(index, |io.read(s.key)|) {
        MapsEnable(io.read(s.key), s.info, index);
      }
    }
  }

  lemma EnableAllFollows(s: State, io: Format)
    requires Counted(s, io)
    ensures Holds(s, AfterEnableAll(s, io), AllEnabled(RecordsOf(s, io)), io)
    ensures Consistent(AfterEnableAll(s, io), io) <==> |io.read(s.key)| == |io.count(s.key)|
  {
    MapsEnableAll(io.read(s.key), s.info, s.info.size);
    SavedInPlace(s, Info(s.info.size, map[], map[], map[]), io);
  }

  lemma DisableAllFollows(s: State, io: Format)
    requires CountsKeys(io) && Counted(s, io)
    ensures Holds(s, AfterDisableAll(s, io), NoneEnabled(RecordsOf(s, io)), io)
    ensures Consistent(AfterDisableAll(s, io), io) <==> Consistent(s, io)
  {
    ReadWithin(s, io);
    var size := s.info.size;
    if SomeEnabled(s.info.status, size) {
      MapsDisableAll(io.read(s.key), s.info, size);
      AllDisabledBelow(s.info.status, size);
      SavedInPlace(s, s.info.(status := AllDisabled(s.info.status, size)), io);
    } else {
      MapsNoneEnabled(io.read(s.key), s.info, size);
    }
  }

  lemma WithBelow<T>(m: map<int, T>, i: int, t: T, n: int)
    requires 0 <= i < n
    ensures Below(m[i := t], n) <==> Below(m, n)
  {
    if Below(m[i := t], n) {
      forall j <- m ensures 0 <= j < n {
        assert j in m[i := t];
      }
    }
  }

  /** A mark within the size moves no map beyond it, nor back. */
  lemma MarkedBelow(info: Info, i: int, status: int, reason: string, now: int)
    requires 0 <= i < info.size && Below(info.status, info.size)
    ensures var next := Marked(info, i, status, reason, now);
            next.size == info.size && Below(next.status, info.size) && (Tidy(next, info.size) <==> Tidy(info, info.size))
  {
    WithBelow(info.times, i, now, info.size);
    WithBelow(info.reasons, i, reason, info.size);
  }

  lemma MarkFollows(s: State, usingKey: string, status: int, reason: string, now: int, io: Format)
    requires CountsKeys(io) && Counted(s, io)
    ensures Holds(s, AfterMark(s, usingKey, status, reason, now, io),
                  MarkedRecords(RecordsOf(s, io), usingKey, status, reason, now), io)
    ensures Consistent(AfterMark(s, usingKey, status, reason, now, io), io) <==> Consistent(s, io)
  {
    var keys := io.read(s.key);
    KeysOfRecords(keys, s.info);
    if usingKey in keys {
      ReadWithin(s, io);
      MarkedBelow(s.info, IndexOf(keys, usingKey), status, reason, now);
      MapsMark(keys, s.info, usingKey, status, reason, now);
    }
  }

  predicate InPlace(a: Action) {
    !a.DeleteKey? && !a.DeleteDisabledKeys? && !a.AppendToKeys?
  }

  /** When an action that leaves the key text alone ends with a consistent row. */
  ghost predicate StaysConsistent(s: State, a: Action, io: Format) {
    if a.EnableAllKeys? then |io.read(s.key)| == |io.count(s.key)| else Consistent(s, io)
  }

  /** The actions that leave the key text alone follow the records from every counted row. */
  lemma InPlaceFollows(s: State, a: Action, io: Format)
    requires CountsKeys(io) && Counted(s, io) && InPlace(a)
    ensures Holds(s, Step(s, a, io), Act(RecordsOf(s, io), a), io)
    ensures Consistent(Step(s, a, io), io) <==> StaysConsistent(s, a, io)
  {
    match a
    case DisableKey(index) => DisableFollows(s, index, io);
    case EnableKey(index) => EnableFollows(s, index, io);
    case EnableAllKeys => EnableAllFollows(s, io);
    case DisableAllKeys => DisableAllFollows(s, io);
    case MarkKey(usingKey, status, reason, now) => MarkFollows(s, usingKey, status, reason, now, io);
  }

  lemma HoldsIsGood(s: State, next: State, records: seq<Record>, io: Format)
    requires Good(s, io) && Holds(s, next, records, io) && Consistent(next, io)
    ensures StandsFor(next, records, io)
  {
  }

  lemma GoodRecords(s: State, io: Format)
    requires Good(s, io)
    ensures PlainRecords(RecordsOf(s, io))
  {
    forall r <- RecordsOf(s, io) ensures PlainKey(r.key) {
      assert r.key in io.read(s.key);
    }
  }

  lemma DroppedArePlain(records: seq<Record>, index: int)
    requires PlainRecords(records)
    ensures PlainRecords(Dropped(records, index))
  {
    DroppedKeys(records, index);
  }

  lemma SurvivorsArePlain(records: seq<Record>)
    requires PlainRecords(records)
    ensures PlainRecords(Survivors(records))
  {
    SurvivorsMembers(records);
  }

  lemma DeleteFollows(s: State, index: Option<int>, io: Format)
    requires PlainFormat(io) && Good(s, io)
    ensures StandsFor(AfterDelete(s, index, io), DeletedAt(RecordsOf(s, io), index), io)
  {
    var records := RecordsOf(s, io);
    if IndexIn(index, |records|) {
      var remaining := Dropped(records, index.value);
      assert |remaining| == |records| - 1;
      if |records| > 1 {
        GoodRecords(s, io);
        DroppedArePlain(records, index.value);
        WrittenBackRecords(s, remaining, io);
      }
    }
  }

  lemma DeleteDisabledFollows(s: State, io: Format)
    requires PlainFormat(io) && Good(s, io) && !DeletesAll(RecordsOf(s, io), DeleteDisabledKeys)
    ensures StandsFor(AfterDeleteDisabled(s, io), DisabledDeleted(RecordsOf(s, io)), io)
  {
    var records := RecordsOf(s, io);
    if SomeAutoDisabled(records) {
      GoodRecords(s, io);
      SurvivorsArePlain(records);
      assert Survivors(records) != [] by { SurvivorsMembers(records); }
      WrittenBackRecords(s, Survivors(records), io);
    }
  }

  lemma AddedArePlain(keys: seq<string>, lines: seq<string>)
    requires PlainKeys(keys) && PlainAction(AppendToKeys(lines))
    ensures PlainKeys(keys + AddedKeys(keys, lines))
  {
    FilterMembers(Normalize(lines), x => x !in NonBlank(keys));
  }

  lemma GoodAppend(s: State, lines: seq<string>, io: Format)
    requires CountsKeys(io) && Good(s, io)
    ensures Appended(s.key, lines, io) == io.join(io.read(s.key) + AddedKeys(io.read(s.key), lines))
  {
  }

  lemma AppendFollows(s: State, lines: seq<string>, io: Format)
    requires PlainFormat(io) && Good(s, io) && PlainAction(AppendToKeys(lines))
    ensures StandsFor(AfterAppend(s, lines, io), AppendedRecords(RecordsOf(s, io), lines), io)
  {
    var keys := io.read(s.key);
    var added := AddedKeys(keys, lines);
    GoodAppend(s, lines, io);
    AddedArePlain(keys, lines);
    JoinedRecords(keys + added, s.info, s.key, io);
    KeysOfRecords(keys, s.info);
    InRangeUnused(s.info, |keys|, |keys + added|);
    MapsAppendIff(keys, s.info, added);
  }

  /** Appending the same lines to the stored row twice leaves the records of the first time. */
  lemma AppendIdempotent(s: State, lines: seq<string>, io: Format)
    requires PlainFormat(io) && Good(s, io) && PlainAction(AppendToKeys(lines))
    ensures var once := AfterAppend(s, lines, io);
            RecordsOf(AfterAppend(once, lines, io), io) == RecordsOf(once, io)
  {
    var records := RecordsOf(s, io);
    AppendFollows(s, lines, io);
    AppendFollows(AfterAppend(s, lines, io), lines, io);
    AppendedTwice(records, lines);
  }

  lemma KeysOfAppended(records: seq<Record>, added: seq<string>)
    ensures KeysOf(records + NewRecords(added)) == KeysOf(records) + added
  {
  }

  lemma NothingAppended(records: seq<Record>, lines: seq<string>, added: seq<string>)
    requires added == AddedKeys(KeysOf(records), lines) && added == []
    ensures AppendedRecords(records, lines) == records
  {
    assert NewRecords(added) == [];
  }

  lemma AppendedTwice(records: seq<Record>, lines: seq<string>)
    ensures AppendedRecords(AppendedRecords(records, lines), lines) == AppendedRecords(records, lines)
  {
    var keys := KeysOf(records);
    var added := AddedKeys(keys, lines);
    KeysOfAppended(records, added);
    AppendTwice(keys, lines);
    NothingAppended(records + NewRecords(added), lines, AddedKeys(keys + added, lines));
  }

  lemma InPlaceStandsFor(s: State, a: Action, io: Format)
    requires CountsKeys(io) && Good(s, io) && InPlace(a)
    ensures StandsFor(Step(s, a, io), Act(RecordsOf(s, io), a), io)
  {
    InPlaceFollows(s, a, io);
    HoldsIsGood(s, Step(s, a, io), Act(RecordsOf(s, io), a), io);
  }

  lemma DeleteActs(s: State, index: Option<int>, io: Format)
    requires PlainFormat(io) && Good(s, io)
    ensures StandsFor(Step(s, DeleteKey(index), io), Act(RecordsOf(s, io), DeleteKey(index)), io)
  {
    DeleteFollows(s, index, io);
  }

  lemma DeleteDisabledActs(s: State, io: Format)
    requires PlainFormat(io) && Good(s, io) && !DeletesAll(RecordsOf(s, io), DeleteDisabledKeys)
    ensures StandsFor(Step(s, DeleteDisabledKeys, io), Act(RecordsOf(s, io), DeleteDisabledKeys), io)
  {
    DeleteDisabledFollows(s, io);
  }

  /** The records a row stands for, by name, so that they are compared without unfolding the key text. */
  ghost predicate Has(s: State, records: seq<Record>, io: Format) {
    RecordsOf(s, io) == records
  }

  /** An append as an action. Kept apart from the facts about the format, which would unfold the key text. */
  lemma AppendStep(s: State, lines: seq<string>, records: seq<Record>, io: Format, a: Action)
    requires a == AppendToKeys(lines)
    ensures Has(Step(s, a, io), Act(records, a), io) <==> Has(AfterAppend(s, lines, io), AppendedRecords(records, lines), io)
    ensures Good(Step(s, a, io), io) <==> Good(AfterAppend(s, lines, io), io)
  {
  }

  lemma AppendActs(s: State, lines: seq<string>, io: Format)
    requires PlainFormat(io) && Good(s, io) && PlainAction(AppendToKeys(lines))
    ensures StandsFor(Step(s, AppendToKeys(lines), io), Act(RecordsOf(s, io), AppendToKeys(lines)), io)
  {
    AppendFollows(s, lines, io);
    AppendStep(s, lines, RecordsOf(s, io), io, AppendToKeys(lines));
  }

  /** Each action does to the stored row what it does to the list of records, except deleting every key. */
  lemma StepFollows(s: State, a: Action, io: Format)
    requires PlainFormat(io) && Good(s, io) && PlainAction(a) && !DeletesAll(RecordsOf(s, io), a)
    ensures StandsFor(Step(s, a, io), Act(RecordsOf(s, io), a), io)
  {
    match a
    case DeleteKey(index) => DeleteActs(s, index, io);
    case DeleteDisabledKeys => DeleteDisabledActs(s, io);
    case AppendToKeys(lines) => AppendActs(s, lines, io);
    case DisableKey(_) => InPlaceStandsFor(s, a, io);
    case EnableKey(_) => InPlaceStandsFor(s, a, io);
    case EnableAllKeys => InPlaceStandsFor(s, a, io);
    case DisableAllKeys => InPlaceStandsFor(s, a, io);
    case MarkKey(_, _, _, _) => InPlaceStandsFor(s, a, io);
  }

  /** When every key is automatically disabled, deleting the disabled keys keeps them all and enables them. */
  lemma DeleteAllEnables(s: State, io: Format)
    requires CountsKeys(io) && WritesNothing(io) && DeletesAll(RecordsOf(s, io), DeleteDisabledKeys)
    ensures Holds(s, AfterDeleteDisabled(s, io), AllEnabled(RecordsOf(s, io)), io) && Consistent(AfterDeleteDisabled(s, io), io)
  {
    var records := RecordsOf(s, io);
    assert records[0] in records;
    SurvivorsMembers(records);
    MapsEnableAll(io.read(s.key), s.info, |io.read(s.key)|);
  }

  /** So the refinement of one action holds exactly when it does not delete every key. */
  lemma StepFollowsIff(s: State, a: Action, io: Format)
    requires PlainFormat(io) && Good(s, io) && PlainAction(a)
    ensures Good(Step(s, a, io), io)
    ensures RecordsOf(Step(s, a, io), io) == Act(RecordsOf(s, io), a) <==> !DeletesAll(RecordsOf(s, io), a)
  {
    if DeletesAll(RecordsOf(s, io), a) {
      DeleteAllEnables(s, io);
      HoldsIsGood(s, Step(s, a, io), AllEnabled(RecordsOf(s, io)), io);
      SurvivorsMembers(RecordsOf(s, io));
    } else {
      StepFollows(s, a, io);
    }
  }

  // ---- Every run ----

  function Run(s: State, actions: seq<Action>, io: Format): (r: State)
    decreases |actions|
  {
    if actions == [] then s else Run(Step(s, actions[0], io), actions[1..], io)
  }

  function ActAll(records: seq<Record>, actions: seq<Action>): (r: seq<Record>)
    decreases |actions|
  {
    if actions == [] then records else ActAll(Act(records, actions[0]), actions[1..])
  }

  ghost predicate NeverDeletesAll(records: seq<Record>, actions: seq<Action>)
    decreases |actions|
  {
    actions != [] ==> !DeletesAll(records, actions[0]) && NeverDeletesAll(Act(records, actions[0]), actions[1..])
  }

  ghost predicate PlainActions(actions: seq<Action>) {
    forall i :: 0 <= i < |actions| ==> PlainAction(actions[i])
  }

  /** Any run of actions on the row is the run on the list of records, and keeps the row consistent. */
  lemma {:induction false} RunFollows(s: State, actions: seq<Action>, io: Format)
    requires PlainFormat(io) && Good(s, io) && PlainActions(actions) && NeverDeletesAll(RecordsOf(s, io), actions)
    ensures Good(Run(s, actions, io), io)
    ensures RecordsOf(Run(s, actions, io), io) == ActAll(RecordsOf(s, io), actions)
    decreases |actions|
  {
    if actions != [] {
      StepFollows(s, actions[0], io);
      RunFollows(Step(s, actions[0], io), actions[1..], io);
    }
  }

  /** Consistency holds after every run, whatever it deletes. */
  lemma {:induction false} RunKeepsGood(s: State, actions: seq<Action>, io: Format)
    requires PlainFormat(io) && Good(s, io) && PlainActions(actions)
    ensures Good(Run(s, actions, io), io)
    decreases |actions|
  {
    if actions != [] {
      StepFollowsIff(s, actions[0], io);
      RunKeepsGood(Step(s, actions[0], io), actions[1..], io);
    }
  }

  // ---- Any key list ----

  /** Without the plainness of the keys: a shortened list is written back faithfully exactly when it survives. */
  lemma WrittenBackIff(s: State, records: seq<Record>, io: Format)
    requires CountsKeys(io) && WritesNothing(io) && |records| < |io.read(s.key)|
    ensures RecordsOf(WrittenBack(s, records, io), io) == records <==> Survives(KeysOf(records), io)
  {
    var keys, next := KeysOf(records), WrittenBack(s, records, io);
    KeysOfRecords(io.read(next.key), next.info);
    RebuiltRecords(records);
    assert keys == [] ==> io.join(keys) == "";
    if io.join(keys) == "" {
      assert next.key == s.key;
    } else if io.read(io.join(keys)) == keys {
      UpdatedSame(State(io.join(keys), Rebuilt(records)), s.key, io);
    }
  }

  /** The action writes a shortened key list back. */
  predicate Rewrites(records: seq<Record>, a: Action) {
    || (a.DeleteKey? && IndexIn(a.index, |records|) && |records| > 1)
    || (a.DeleteDisabledKeys? && SomeAutoDisabled(records))
  }

  lemma DeleteRewrites(s: State, index: Option<int>, io: Format)
    requires CountsKeys(io) && Counted(s, io)
    ensures var records := RecordsOf(s, io); var next := DeletedAt(records, index);
            if IndexIn(index, |records|) && |records| > 1
            then AfterDelete(s, index, io) == WrittenBack(s, next, io) && |next| < |records|
            else AfterDelete(s, index, io) == s && next == records
  {
    var records := RecordsOf(s, io);
    ReadWithin(s, io);
    if IndexIn(index, |records|) {
      assert |Dropped(records, index.value)| == |records| - 1;
    }
  }

  lemma DeleteDisabledRewrites(s: State, io: Format)
    ensures var records := RecordsOf(s, io); var next := DisabledDeleted(records);
            if SomeAutoDisabled(records)
            then AfterDeleteDisabled(s, io) == WrittenBack(s, next, io) && |next| < |records|
            else AfterDeleteDisabled(s, io) == s && next == records
  {
    SurvivorsMembers(RecordsOf(s, io));
  }

  /** A deletion as an action: it writes the shortened list back, or leaves the row. */
  lemma DeletionStep(s: State, a: Action, records: seq<Record>, io: Format)
    requires CountsKeys(io) && Counted(s, io) && records == RecordsOf(s, io) && (a.DeleteKey? || a.DeleteDisabledKeys?)
    ensures Step(s, a, io) == if Rewrites(records, a) then WrittenBack(s, Act(records, a), io) else s
  {
    if a.DeleteKey? {
      DeleteRewrites(s, a.index, io);
    } else {
      DeleteDisabledRewrites(s, io);
    }
  }

  lemma DeleteFollowsIff(s: State, index: Option<int>, io: Format)
    requires CountsKeys(io) && WritesNothing(io) && Counted(s, io)
    ensures var records := RecordsOf(s, io);
            RecordsOf(AfterDelete(s, index, io), io) == DeletedAt(records, index) <==>
            (IndexIn(index, |records|) && |records| > 1 ==> Survives(KeysOf(DeletedAt(records, index)), io))
  {
    var records := RecordsOf(s, io);
    DeleteRewrites(s, index, io);
    if IndexIn(index, |records|) && |records| > 1 {
      WrittenBackIff(s, DeletedAt(records, index), io);
    }
  }

  lemma DeleteDisabledFollowsIff(s: State, io: Format)
    requires CountsKeys(io) && WritesNothing(io)
    ensures var records := RecordsOf(s, io);
            RecordsOf(AfterDeleteDisabled(s, io), io) == DisabledDeleted(records) <==>
            (SomeAutoDisabled(records) ==> Survives(KeysOf(DisabledDeleted(records)), io))
  {
    var records := RecordsOf(s, io);
    DeleteDisabledRewrites(s, io);
    if SomeAutoDisabled(records) {
      WrittenBackIff(s, DisabledDeleted(records), io);
    }
  }

  /** Every action but an append, from every counted row: it follows the records
      exactly when the list it writes back, if it writes one, survives. */
  lemma OtherStepFollowsIff(s: State, a: Action, io: Format)
    requires CountsKeys(io) && WritesNothing(io) && Counted(s, io) && !a.AppendToKeys?
    ensures RecordsOf(Step(s, a, io), io) == Act(RecordsOf(s, io), a) <==>
            (Rewrites(RecordsOf(s, io), a) ==> Survives(KeysOf(Act(RecordsOf(s, io), a)), io))
  {
    match a
    case DeleteKey(index) => DeleteFollowsIff(s, index, io);
    case DeleteDisabledKeys => DeleteDisabledFollowsIff(s, io);
    case DisableKey(_) => InPlaceFollows(s, a, io);
    case EnableKey(_) => InPlaceFollows(s, a, io);
    case EnableAllKeys => InPlaceFollows(s, a, io);
    case DisableAllKeys => InPlaceFollows(s, a, io);
    case MarkKey(_, _, _, _) => InPlaceFollows(s, a, io);
  }

  ghost predicate Diverges(s: State, a: Action, io: Format) {
    Consistent(s, io) && RecordsOf(Step(s, a, io), io) != Act(RecordsOf(s, io), a)
  }

  lemma TailRecords(keys: seq<string>, info: Info, a: Action)
    requires |keys| > 1 && a == DeleteKey(Some(0))
    ensures KeysOf(Act(Records(keys, info), a)) == keys[1..] && Rewrites(Records(keys, info), a)
  {
    var records := Records(keys, info);
    assert Dropped(records, 0) == records[1..];
    assert Act(records, a) == records[1..];
  }

  /** Deleting the first key fails whenever the others do not survive without it. */
  lemma TailIsLost(s: State, keys: seq<string>, a: Action, io: Format)
    requires CountsKeys(io) && WritesNothing(io) && Consistent(s, io) && keys == io.read(s.key)
    requires a == DeleteKey(Some(0)) && |keys| > 1 && !Survives(keys[1..], io)
    ensures Diverges(s, a, io)
  {
    TailRecords(keys, s.info, a);
    OtherStepFollowsIff(s, a, io);
  }

  lemma FreshState(text: string, keys: seq<string>, io: Format) returns (s: State)
    requires io.read(text) == keys && io.count(text) == keys
    ensures Consistent(s, io) && s.key == text
  {
    s := State(text, Info(|keys|, map[], map[], map[]));
  }

  lemma TailExample(text: string, keys: seq<string>, a: Action, io: Format) returns (s: State)
    requires CountsKeys(io) && WritesNothing(io) && io.read(text) == keys && io.count(text) == keys
    requires a == DeleteKey(Some(0)) && |keys| > 1 && !Survives(keys[1..], io)
    ensures Diverges(s, a, io)
  {
    s := FreshState(text, keys, io);
    TailIsLost(s, keys, a, io);
  }

  /** An append, from any row at all: it follows the records exactly when the stored text reads as the old keys
      and then the new ones, and nothing is recorded under the indexes of the new ones. */
  lemma AppendFollowsIff(s: State, lines: seq<string>, io: Format, keys: seq<string>, added: seq<string>, next: State)
    requires CountsKeys(io) && keys == io.read(s.key)
    requires added == AddedKeys(keys, lines) && next == AfterAppend(s, lines, io)
    ensures RecordsOf(next, io) == AppendedRecords(RecordsOf(s, io), lines) <==>
            io.read(next.key) == keys + added && Unused(s.info, |keys|, |keys + added|)
  {
    KeysOfRecords(keys, s.info);
    KeysOfRecords(io.read(next.key), next.info);
    KeysOfAppended(RecordsOf(s, io), added);
    if io.read(next.key) == keys + added {
      KeptRecords(keys + added, s.info, next.info);
      MapsAppendIff(keys, s.info, added);
    }
  }

  /** Statuses dropped beyond the keys change no record. */
  lemma KeptRecords(keys: seq<string>, info: Info, next: Info)
    requires |keys| <= next.size
    requires next == info.(size := next.size, status := map i | i in info.status && i < next.size :: info.status[i])
    ensures Records(keys, next) == Records(keys, info)
  {
    forall i | 0 <= i < |keys| ensures RecordAt(keys[i], next, i) == RecordAt(keys[i], info, i) {
      assert i in next.status <==> i in info.status;
    }
  }

  // ---- What every action keeps ----

  lemma UpdatedCounted(s: State, stored: string, io: Format, next: State)
    requires next == Updated(s, stored, io) && forall i <- s.info.status :: 0 <= i
    ensures Counted(next, io)
    ensures Consistent(next, io) <==> |io.read(next.key)| == |io.count(next.key)| && Tidy(s.info, |io.count(next.key)|)
  {
  }

  lemma WrittenBackCounted(s: State, records: seq<Record>, io: Format)
    ensures Counted(WrittenBack(s, records, io), io)
  {
    RebuiltRecords(records);
    UpdatedCounted(State(io.join(KeysOf(records)), Rebuilt(records)), s.key, io, WrittenBack(s, records, io));
  }

  lemma AppendCounted(s: State, lines: seq<string>, io: Format)
    requires Counted(s, io)
    ensures Counted(AfterAppend(s, lines, io), io)
  {
    UpdatedCounted(s.(key := Appended(s.key, lines, io)), s.key, io, AfterAppend(s, lines, io));
  }

  /** On any key text every action keeps the row counted. */
  lemma StepKeepsCounted(s: State, a: Action, io: Format)
    requires CountsKeys(io) && Counted(s, io)
    ensures Counted(Step(s, a, io), io)
  {
    match a
    case DeleteKey(index) => WrittenBackCounted(s, Dropped(RecordsOf(s, io), if index.Some? then index.value else 0), io);
    case DeleteDisabledKeys => WrittenBackCounted(s, Survivors(RecordsOf(s, io)), io);
    case AppendToKeys(lines) => AppendCounted(s, lines, io);
    case DisableKey(_) => InPlaceFollows(s, a, io);
    case EnableKey(_) => InPlaceFollows(s, a, io);
    case EnableAllKeys => InPlaceFollows(s, a, io);
    case DisableAllKeys => InPlaceFollows(s, a, io);
    case MarkKey(_, _, _, _) => InPlaceFollows(s, a, io);
  }

  /** Nothing but the key and the status is recorded from the n-th record on. */
  ghost predicate BareFrom(records: seq<Record>, n: nat) {
    forall i :: n <= i < |records| ==> records[i].time.None? && records[i].reason.None?
  }

  lemma RebuiltTidyIff(records: seq<Record>, n: nat)
    ensures Tidy(Rebuilt(records), n) <==> BareFrom(records, n)
  {
    var info := Rebuilt(records);
    RebuiltRecords(records);
    assert forall i :: 0 <= i < |records| ==> records[i] == RecordAt(records[i].key, info, i);
    if Tidy(info, n) {
      assert forall i :: n <= i < |records| ==> i !in info.times && i !in info.reasons;
    }
    if BareFrom(records, n) {
      assert forall i <- info.times :: records[i].time.Some?;
      assert forall i <- info.reasons :: records[i].reason.Some?;
    }
  }

  /** The row an append or a deletion saves is consistent exactly when no time or reason is left beyond its keys. */
  lemma AppendEndsConsistentIff(s: State, a: Action, io: Format, text: string)
    requires Counted(s, io) && a.AppendToKeys? && Step(s, a, io).key == text
    ensures Consistent(Step(s, a, io), io) <==> |io.read(text)| == |io.count(text)| && Tidy(s.info, |io.count(text)|)
  {
    UpdatedCounted(s.(key := Appended(s.key, a.lines, io)), s.key, io, Step(s, a, io));
  }

  lemma WrittenBackConsistentIff(s: State, records: seq<Record>, io: Format, next: State)
    requires next == WrittenBack(s, records, io)
    ensures Consistent(next, io) <==> |io.read(next.key)| == |io.count(next.key)| && BareFrom(records, |io.count(next.key)|)
  {
    RebuiltRecords(records);
    UpdatedCounted(State(io.join(KeysOf(records)), Rebuilt(records)), s.key, io, next);
    RebuiltTidyIff(records, |io.count(next.key)|);
  }
}
