/** Whole runs of the multi-key actions on any key text: what they keep, and exactly when they follow the records. */
module KeyRuns {
  import opened Lists
  import opened Text
  import opened ModelNames
  import opened KeyText
  import opened KeyAppend
  import opened KeyRecords
  import opened KeyManager
  import opened KeyLists
  import opened KeyManagerLaws
  import opened KeyNewlineLaws

  // ---- The invariant of every run ----

  lemma ActionKeepsCounted(s: State, a: Action, decode: Decoder, io: Format)
    requires io == Newline(decode) && Counted(s, io)
    ensures Counted(Step(s, a, io), io)
  {
    NewlineCounts(decode, io);
    StepKeepsCounted(s, a, io);
  }

  lemma {:induction false} RunKeepsCounted(s: State, actions: seq<Action>, decode: Decoder, io: Format)
    requires io == Newline(decode) && Counted(s, io)
    ensures Counted(Run(s, actions, io), io)
    decreases |actions|
  {
    if actions != [] {
      ActionKeepsCounted(s, actions[0], decode, io);
      RunKeepsCounted(Step(s, actions[0], io), actions[1..], decode, io);
    }
  }

  // ---- When a run follows the records ----

  /** The row stands for the records now and after every action. */
  ghost predicate FollowsThroughout(s: State, records: seq<Record>, actions: seq<Action>, io: Format)
    decreases |actions|
  {
    && RecordsOf(s, io) == records
    && (actions != [] ==> FollowsThroughout(Step(s, actions[0], io), Act(records, actions[0]), actions[1..], io))
  }

  ghost predicate FaithfulThroughout(s: State, actions: seq<Action>, decode: Decoder, io: Format)
    decreases |actions|
  {
    actions != [] ==> Faithful(s, actions[0], RecordsOf(s, io), decode) &&
                      FaithfulThroughout(Step(s, actions[0], io), actions[1..], decode, io)
  }

  ghost predicate AllByLines(actions: seq<Action>) {
    forall i :: 0 <= i < |actions| ==> ByLines(actions[i])
  }

  lemma FollowsFirst(s: State, records: seq<Record>, actions: seq<Action>, io: Format)
    requires FollowsThroughout(s, records, actions, io)
    ensures RecordsOf(s, io) == records
  {
  }

  /** From every counted row: all along a run the row stands for the records exactly when every action is faithful where it is taken. */
  lemma {:induction false} RunFollowsIff(s: State, actions: seq<Action>, decode: Decoder, io: Format)
    requires io == Newline(decode) && Counted(s, io) && AllByLines(actions)
    ensures FollowsThroughout(s, RecordsOf(s, io), actions, io) <==> FaithfulThroughout(s, actions, decode, io)
    decreases |actions|
  {
    if actions != [] {
      var a, next := actions[0], Step(s, actions[0], io);
      ActionFollowsIff(s, a, decode, io);
      ActionKeepsCounted(s, a, decode, io);
      RunFollowsIff(next, actions[1..], decode, io);
      if FollowsThroughout(next, Act(RecordsOf(s, io), a), actions[1..], io) {
        FollowsFirst(next, Act(RecordsOf(s, io), a), actions[1..], io);
      }
    }
  }

  lemma {:induction false} FollowsToTheEnd(s: State, records: seq<Record>, actions: seq<Action>, io: Format)
    requires FollowsThroughout(s, records, actions, io)
    ensures RecordsOf(Run(s, actions, io), io) == ActAll(records, actions)
    decreases |actions|
  {
    if actions != [] {
      FollowsToTheEnd(Step(s, actions[0], io), Act(records, actions[0]), actions[1..], io);
    }
  }

  // ---- When a row stays consistent ----

  /** The key text a shortened list leaves: an empty one is not saved. */
  function TextBack(s: State, records: seq<Record>): (r: string) {
    var text := Join(KeysOf(records), '\n');
    if text != "" then text else s.key
  }

  /** No empty array is stored, and no time or reason stands beyond the keys then read. */
  ghost predicate EndsConsistent(s: State, a: Action, records: seq<Record>, decode: Decoder, io: Format) {
    if a.AppendToKeys? then
      var text := StoredText(s.key, a.lines, decode);
      !EmptyArray(text, decode) && Tidy(s.info, |GetKeys(text, decode)|)
    else if Rewrites(records, a) then BackFits(s, Act(records, a), decode)
    else if a.EnableAllKeys? then !EmptyArray(s.key, decode)
    else Consistent(s, io)
  }

  ghost predicate BackFits(s: State, records: seq<Record>, decode: Decoder) {
    var text := TextBack(s, records);
    !EmptyArray(text, decode) && BareFrom(records, |GetKeys(text, decode)|)
  }

  /** What is stored beyond the counted keys is stored beyond the keys read, unless an empty array is counted. */
  lemma CountedTidy(text: string, info: Info, decode: Decoder)
    ensures var count := |CountedKeys(text, decode)|;
            |GetKeys(text, decode)| == count && Tidy(info, count) <==> !EmptyArray(text, decode) && Tidy(info, |GetKeys(text, decode)|)
  {
    CountAgreesIff(text, decode);
  }

  lemma StoredByStep(s: State, a: Action, decode: Decoder, io: Format)
    requires io == Newline(decode) && a.AppendToKeys?
    ensures Step(s, a, io).key == StoredText(s.key, a.lines, decode)
  {
    StoredByAppend(s, a.lines, decode, io);
  }

  lemma AppendConsistentIff(s: State, a: Action, records: seq<Record>, decode: Decoder, io: Format, text: string)
    requires io == Newline(decode) && Counted(s, io) && a.AppendToKeys? && text == StoredText(s.key, a.lines, decode)
    ensures Consistent(Step(s, a, io), io) <==> EndsConsistent(s, a, records, decode, io)
  {
    StoredByStep(s, a, decode, io);
    AppendEndsConsistentIff(s, a, io, text);
    CountedTidy(text, s.info, decode);
  }

  lemma RewriteConsistentIff(s: State, records: seq<Record>, decode: Decoder, io: Format, next: State)
    requires io == Newline(decode) && next == WrittenBack(s, records, io)
    ensures Consistent(next, io) <==> BackFits(s, records, decode)
  {
    WrittenBackConsistentIff(s, records, io, next);
    CountAgreesIff(next.key, decode);
  }

  lemma DeletionConsistentIff(s: State, a: Action, records: seq<Record>, decode: Decoder, io: Format)
    requires io == Newline(decode) && Counted(s, io) && records == RecordsOf(s, io) && (a.DeleteKey? || a.DeleteDisabledKeys?)
    ensures Consistent(Step(s, a, io), io) <==> EndsConsistent(s, a, records, decode, io)
  {
    NewlineCounts(decode, io);
    DeletionStep(s, a, records, io);
    RewriteConsistentIff(s, Act(records, a), decode, io, WrittenBack(s, Act(records, a), io));
  }

  lemma InPlaceConsistentIff(s: State, a: Action, records: seq<Record>, decode: Decoder, io: Format)
    requires io == Newline(decode) && Counted(s, io) && InPlace(a)
    ensures Consistent(Step(s, a, io), io) <==> EndsConsistent(s, a, records, decode, io)
  {
    NewlineInPlace(s, a, decode, io);
  }

  /** Every action, from every counted row: exactly when the row it leaves is consistent. */
  lemma ActionConsistentIff(s: State, a: Action, records: seq<Record>, decode: Decoder, io: Format)
    requires io == Newline(decode) && Counted(s, io) && records == RecordsOf(s, io)
    ensures Consistent(Step(s, a, io), io) <==> EndsConsistent(s, a, records, decode, io)
  {
    if a.AppendToKeys? {
      AppendConsistentIff(s, a, records, decode, io, StoredText(s.key, a.lines, decode));
    } else if a.DeleteKey? || a.DeleteDisabledKeys? {
      DeletionConsistentIff(s, a, records, decode, io);
    } else {
      InPlaceConsistentIff(s, a, records, decode, io);
    }
  }

  lemma BlankHead(lines: seq<string>)
    requires NonBlank(lines) == [] && lines != []
    ensures TrimLeft(lines[0], IsSpace) == "" && NonBlank(lines[1..]) == []
  {
    assert Entry(lines[0]) == [];
    TrimBlankIff(lines[0]);
  }

  lemma {:induction false} BlankJoin(lines: seq<string>)
    requires NonBlank(lines) == []
    ensures TrimLeft(Join(lines, '\n'), IsSpace) == ""
  {
    if lines != [] {
      BlankHead(lines);
      if |lines| > 1 {
        var rest := lines[1..];
        BlankJoin(rest);
        TrimLeftLine(lines[0], '\n', Join(rest, '\n'), IsSpace);
      }
    }
  }

  lemma NothingNormal(lines: seq<string>)
    requires Normalize(lines) == []
    ensures NonBlank(lines) == []
  {
    var entries := NonBlank(lines);
    UniqMembers(entries);
    assert entries != [] ==> entries[0] in Uniq(entries);
  }

  /** Blank lines never look like an array. */
  lemma BlankInput(lines: seq<string>)
    requires Normalize(lines) == []
    ensures !ArrayText(Join(lines, '\n'))
  {
    NothingNormal(lines);
    BlankJoin(lines);
    TrimBlankIff(Join(lines, '\n'));
  }

  lemma NoKeysNoText(s: State, decode: Decoder, io: Format)
    requires io == Newline(decode) && Consistent(s, io) && GetKeys(s.key, decode) == []
    ensures s.key == ""
  {
    CountAgreesIff(s.key, decode);
  }

  lemma KeptIsNoEmptyArray(s: State, lines: seq<string>, decode: Decoder, io: Format, text: string)
    requires io == Newline(decode) && Consistent(s, io) && text == StoredText(s.key, lines, decode)
    requires var keys := GetKeys(s.key, decode); GetKeys(text, decode) == keys + AddedKeys(keys, lines)
    ensures !EmptyArray(text, decode)
  {
    if GetKeys(s.key, decode) == [] {
      NoKeysNoText(s, decode, io);
      AddedToNone(lines);
      if Normalize(lines) == [] {
        BlankInput(lines);
      }
    }
  }

  lemma FaithfulAppendFits(s: State, a: Action, records: seq<Record>, decode: Decoder, io: Format)
    requires io == Newline(decode) && Consistent(s, io) && a.AppendToKeys? && ByLines(a) && Faithful(s, a, records, decode)
    ensures EndsConsistent(s, a, records, decode, io)
  {
    var keys, text := GetKeys(s.key, decode), StoredText(s.key, a.lines, decode);
    AppendKeepsIff(s.key, a.lines, decode, keys);
    KeptIsNoEmptyArray(s, a.lines, decode, io, text);
  }

  lemma FaithfulRewriteFits(s: State, a: Action, records: seq<Record>, decode: Decoder, io: Format)
    requires !a.AppendToKeys? && Rewrites(records, a) && Faithful(s, a, records, decode)
    ensures EndsConsistent(s, a, records, decode, io)
  {
    var keys := KeysOf(Act(records, a));
    SurvivesIff(keys, decode);
  }

  /** From a consistent row a faithful action leads to a consistent row. */
  lemma FaithfulStaysConsistent(s: State, a: Action, decode: Decoder, io: Format)
    requires io == Newline(decode) && Consistent(s, io) && ByLines(a) && Faithful(s, a, RecordsOf(s, io), decode)
    ensures Consistent(Step(s, a, io), io)
  {
    var records := RecordsOf(s, io);
    ActionConsistentIff(s, a, records, decode, io);
    CountAgreesIff(s.key, decode);
    if a.AppendToKeys? {
      FaithfulAppendFits(s, a, records, decode, io);
    } else if Rewrites(records, a) {
      FaithfulRewriteFits(s, a, records, decode, io);
    }
  }

  /** On a consistent row nothing is recorded under the indexes of new keys: an append is faithful exactly when it keeps the keys. */
  lemma ConsistentAppend(s: State, a: Action, decode: Decoder, io: Format)
    requires io == Newline(decode) && Consistent(s, io) && a.AppendToKeys?
    ensures Faithful(s, a, RecordsOf(s, io), decode) <==> KeepsKeys(s.key, a.lines, decode)
  {
    var keys := GetKeys(s.key, decode);
    InRangeUnused(s.info, |keys|, |keys + AddedKeys(keys, a.lines)|);
  }

  /** A faithful run from a consistent row ends with a consistent row. */
  lemma {:induction false} FaithfulRunStaysConsistent(s: State, actions: seq<Action>, decode: Decoder, io: Format)
    requires io == Newline(decode) && Consistent(s, io) && AllByLines(actions) && FaithfulThroughout(s, actions, decode, io)
    ensures Consistent(Run(s, actions, io), io)
    decreases |actions|
  {
    if actions != [] {
      FaithfulStaysConsistent(s, actions[0], decode, io);
      FaithfulRunStaysConsistent(Step(s, actions[0], io), actions[1..], decode, io);
    }
  }

  // ---- Times and reasons on plain keys ----

  /** No enabled key has a time or a reason, now and after every action. */
  ghost predicate CleanThroughout(s: State, actions: seq<Action>, io: Format)
    decreases |actions|
  {
    CleanRecords(RecordsOf(s, io)) && (actions != [] ==> CleanThroughout(Step(s, actions[0], io), actions[1..], io))
  }

  ghost predicate NeverStale(s: State, actions: seq<Action>, io: Format)
    decreases |actions|
  {
    actions != [] ==> !LeavesStale(RecordsOf(s, io), actions[0]) && NeverStale(Step(s, actions[0], io), actions[1..], io)
  }

  lemma PlainStepCleanIff(s: State, a: Action, decode: Decoder, io: Format)
    requires io == Newline(decode) && PlainRow(s, decode) && PlainAction(a) && CleanRecords(RecordsOf(s, io))
    ensures CleanRecords(RecordsOf(Step(s, a, io), io)) <==> !LeavesStale(RecordsOf(s, io), a)
  {
    var records := RecordsOf(s, io);
    if DeletesAll(records, a) {
      NewlineDeleteAllEnables(s, decode, io);
      AllKeepClean(records);
    } else {
      PlainActionIff(s, a, decode, io);
      ActKeepsCleanIff(records, a);
    }
  }

  /** Every run on plain keys: times and reasons stay on disabled keys exactly as long as the handler enables no key that has one. */
  lemma {:induction false} PlainRunCleanIff(s: State, actions: seq<Action>, decode: Decoder, io: Format)
    requires io == Newline(decode) && PlainRow(s, decode) && PlainActions(actions) && CleanRecords(RecordsOf(s, io))
    ensures CleanThroughout(s, actions, io) <==> NeverStale(s, actions, io)
    decreases |actions|
  {
    if actions != [] {
      var next := Step(s, actions[0], io);
      PlainStepCleanIff(s, actions[0], decode, io);
      PlainActionIff(s, actions[0], decode, io);
      if CleanRecords(RecordsOf(next, io)) {
        PlainRunCleanIff(next, actions[1..], decode, io);
      }
    }
  }

  // ---- A new key that inherits a time ----

  /** After the append the first of the new keys has this time, so the append does not act on the records. */
  ghost predicate Inherits(s: State, keys: seq<string>, added: seq<string>, lines: seq<string>, now: int, io: Format) {
    var next := RecordsOf(AfterAppend(s, lines, io), io);
    KeysOf(next) == keys + added && |next| > |keys| && next[|keys|].time == Some(now) && next != AppendedRecords(RecordsOf(s, io), lines)
  }

  /** A time recorded just beyond the keys becomes the time of the next key appended, however plain it is. */
  lemma AppendInherits(s: State, lines: seq<string>, keys: seq<string>, added: seq<string>, decode: Decoder, io: Format)
    requires io == Newline(decode) && LineFree(lines) && KeepsKeys(s.key, lines, decode)
    requires keys == GetKeys(s.key, decode) && added == AddedKeys(keys, lines) && added != [] && |keys| in s.info.times
    ensures Inherits(s, keys, added, lines, s.info.times[|keys|], io)
  {
    var next := AfterAppend(s, lines, io);
    StoredByAppend(s, lines, decode, io);
    AppendKeepsIff(s.key, lines, decode, keys);
    KeysOfRecords(io.read(next.key), next.info);
    assert !Unused(s.info, |keys|, |keys + added|) by { assert Find(s.info.times, |keys|).Some?; }
    NewlineAppendIff(s, lines, decode, io);
  }

  /** Two plain keys with a blank line between them, and the blank one marked with a time and a reason. */
  ghost predicate BlankMarked(s: State, first: string, last: string, status: int, reason: string, now: int) {
    && s.key == Join([first, "", last], '\n')
    && s.info == Info(3, map[1 := status], map[1 := now], map[1 := reason])
  }

  lemma MarkBlank(s: State, first: string, last: string, status: int, reason: string, now: int, io: Format, keys: seq<string>)
    requires first != "" && status != Enabled && keys == [first, "", last] && io.read(s.key) == keys
    requires s == State(Join(keys, '\n'), Info(3, map[], map[], map[]))
    ensures BlankMarked(Step(s, MarkKey("", status, reason, now), io), first, last, status, reason, now)
  {
    assert keys[1] == "" && keys[0] != "";
    var i := IndexOf(keys, "");
    assert "" in keys;
    assert keys[..2][1] == "";
    assert i == 1;
  }

  /** The row left by deleting the last of them: one key, and the time of the blank one beyond it. */
  ghost predicate TimeBeyond(s: State, first: string, reason: string, now: int) {
    s.key == first + ['\n'] && s.info == Info(1, map[], map[1 := now], map[1 := reason])
  }

  lemma LineAndBreak(first: string, text: string)
    requires first != "" && '\n' !in first && text == first + ['\n']
    ensures Lines(text) == [first]
  {
    assert first[0] in first && first[|first| - 1] in first;
    TrimCharAfter(first, '\n');
    SplitWithout(first, '\n');
  }

  lemma OneLine(first: string, decode: Decoder, text: string)
    requires PlainKey(first) && text == first + ['\n']
    ensures Trim(text) != "" && !ArrayText(text) && GetKeys(text, decode) == [first] && CountedKeys(text, decode) == [first]
  {
    NotBlank(first);
    HeadKept(first, ['\n']);
    LineAndBreak(first, text);
  }

  lemma RebuiltPair(r0: Record, r1: Record, status: int, reason: string, now: int)
    requires r0.status == Enabled && r0.time.None? && r0.reason.None?
    requires status != Enabled && r1.status == status && r1.time == Some(now) && r1.reason == Some(reason)
    ensures Rebuilt([r0, r1]) == Info(2, map[1 := status], map[1 := now], map[1 := reason])
  {
    var pair, one := [r0, r1], [r0];
    assert pair[..1] == one && one[..0] == [];
    assert Rebuilt(one) == Put(NoInfo, 0, r0);
  }

  lemma JoinBlank(first: string, keys: seq<string>)
    requires keys == [first, ""]
    ensures Join(keys, '\n') == first + ['\n']
  {
    var rest := keys[1..];
    assert rest == [""] && Join(rest, '\n') == "";
  }

  lemma SavedPair(text: string, info: Info, status: int, reason: string, now: int, stored: string, io: Format)
    requires text != "" && |io.count(text)| == 1 && info == Info(2, map[1 := status], map[1 := now], map[1 := reason])
    ensures Updated(State(text, info), stored, io) == State(text, Info(1, map[], map[1 := now], map[1 := reason]))
  {
    assert (map i | i in info.status && i < 1 :: info.status[i]) == map[];
  }

  /** The first two of three records, written back. */
  lemma PairBack(s: State, pair: seq<Record>, first: string, status: int, reason: string, now: int, io: Format, text: string)
    requires pair == [Record(first, Enabled, None, None), Record("", status, Some(now), Some(reason))] && status != Enabled
    requires text == first + ['\n'] && io.join([first, ""]) == text && |io.count(text)| == 1
    ensures TimeBeyond(WrittenBack(s, pair, io), first, reason, now)
  {
    RebuiltPair(pair[0], pair[1], status, reason, now);
    assert KeysOf(pair) == [first, ""];
    SavedPair(text, Rebuilt(pair), status, reason, now, s.key, io);
  }

  lemma DeleteLast(s: State, keys: seq<string>, status: int, reason: string, now: int, io: Format, pair: seq<Record>)
    requires |keys| == 3 && keys[1] == "" && io.read(s.key) == keys
    requires s.info == Info(3, map[1 := status], map[1 := now], map[1 := reason])
    requires pair == [Record(keys[0], Enabled, None, None), Record("", status, Some(now), Some(reason))]
    ensures Step(s, DeleteKey(Some(2)), io) == WrittenBack(s, pair, io)
  {
    var records := RecordsOf(s, io);
    assert Dropped(records, 2) == records[..2];
    assert records[..2] == pair;
  }

  lemma NewKey(existing: seq<string>, lines: seq<string>)
    requires Normalize(lines) == lines && Disjoint(lines, NonBlank(existing))
    ensures AddedKeys(existing, lines) == lines
  {
    FilterAll(lines, x => x !in NonBlank(existing));
  }

  lemma OneEntry(first: string, existing: seq<string>)
    requires existing == [first]
    ensures NonBlank(existing) == Entry(first)
  {
    assert existing[1..] == [];
  }

  lemma TimeBeyondIsCounted(t: State, first: string, reason: string, now: int, decode: Decoder, io: Format)
    requires io == Newline(decode) && PlainKey(first) && TimeBeyond(t, first, reason, now)
    ensures Counted(t, io) && !Consistent(t, io)
  {
    OneLine(first, decode, t.key);
    assert 1 in t.info.times;
  }

  lemma OneMoreKey(text: string, first: string, key: string, lines: seq<string>, decode: Decoder)
    requires PlainKey(first) && PlainKey(key) && Clean(key) && key != Trim(first) && lines == [key] && text == first + ['\n']
    ensures LineFree(lines) && KeepsKeys(text, lines, decode) && AddedKeys([first], lines) == lines
  {
    OneLine(first, decode, text);
    OneKey(key, lines);
    NewlineAppendKeeps(text, lines, decode);
    OneEntry(first, [first]);
    NewKey([first], lines);
  }

  /** Appending one more key to that row gives it the time of the blank one. */
  lemma TimeBeyondDiverges(t: State, first: string, key: string, reason: string, now: int, lines: seq<string>, decode: Decoder, io: Format)
    requires io == Newline(decode) && PlainKey(first) && PlainKey(key) && Clean(key) && key != Trim(first) && lines == [key]
    requires TimeBeyond(t, first, reason, now)
    ensures KeepsKeys(t.key, lines, decode) && Inherits(t, [first], lines, lines, now, io)
  {
    OneLine(first, decode, t.key);
    OneMoreKey(t.key, first, key, lines, decode);
    AppendInherits(t, lines, [first], lines, decode, io);
  }

  lemma ThreeKeys(first: string, last: string, keys: seq<string>, decode: Decoder)
    requires PlainKey(first) && PlainKey(last) && keys == [first, "", last]
    ensures first != "" && GetKeys(Join(keys, '\n'), decode) == CountedKeys(Join(keys, '\n'), decode) == keys
  {
    NotBlank(first);
    NotBlank(last);
    PlainStart(keys, decode, Join(keys, '\n'));
  }

  /** The row after two actions, by name. */
  lemma RunTwo(s: State, a: Action, b: Action, io: Format)
    ensures Run(s, [a, b], io) == Step(Step(s, a, io), b, io)
  {
    var actions := [a, b];
    assert actions[1..] == [b] && [b][1..] == [];
    assert Run(Step(s, a, io), [b], io) == Run(Step(Step(s, a, io), b, io), [], io);
  }

  lemma MarkThenDelete(s: State, first: string, last: string, status: int, reason: string, now: int, decode: Decoder, io: Format, keys: seq<string>)
    requires io == Newline(decode) && PlainKey(first) && PlainKey(last) && status != Enabled && keys == [first, "", last]
    requires s == State(Join(keys, '\n'), Info(3, map[], map[], map[]))
    ensures TimeBeyond(Run(s, [MarkKey("", status, reason, now), DeleteKey(Some(2))], io), first, reason, now)
  {
    ThreeKeys(first, last, keys, decode);
    MarkBlank(s, first, last, status, reason, now, io, keys);
    var marked := Step(s, MarkKey("", status, reason, now), io);
    var pair := [Record(first, Enabled, None, None), Record("", status, Some(now), Some(reason))];
    DeleteLast(marked, keys, status, reason, now, io, pair);
    var text := first + ['\n'];
    OneLine(first, decode, text);
    JoinBlank(first, [first, ""]);
    PairBack(marked, pair, first, status, reason, now, io, text);
    RunTwo(s, MarkKey("", status, reason, now), DeleteKey(Some(2)), io);
  }

  /**
   * From a consistent row of two plain keys around a blank line: disabling the blank key and deleting the last
   * leaves a row that is not consistent, and there an append keeps every key but its new key has the old time.
   */
  lemma InheritedTimeExample(first: string, last: string, key: string, status: int, reason: string, now: int, decode: Decoder, io: Format)
    returns (s: State, actions: seq<Action>)
    requires io == Newline(decode) && PlainKey(first) && PlainKey(last) && status != Enabled
    requires PlainKey(key) && Clean(key) && key != Trim(first)
    ensures Consistent(s, io) && !Consistent(Run(s, actions, io), io)
    ensures var t := Run(s, actions, io); KeepsKeys(t.key, [key], decode) && Inherits(t, [first], [key], [key], now, io)
  {
    var keys := [first, "", last];
    ThreeKeys(first, last, keys, decode);
    s := State(Join(keys, '\n'), Info(3, map[], map[], map[]));
    actions := [MarkKey("", status, reason, now), DeleteKey(Some(2))];
    MarkThenDelete(s, first, last, status, reason, now, decode, io, keys);
    TimeBeyondIsCounted(Run(s, actions, io), first, reason, now, decode, io);
    TimeBeyondDiverges(Run(s, actions, io), first, key, reason, now, [key], decode, io);
  }

  /** An append to undecodable text that had a time beyond the new keys leaves such a row too. */
  lemma DroppedKeysLeaveTime(s: State, a: Action, i: int, decode: Decoder, io: Format)
    requires io == Newline(decode) && Counted(s, io) && a.AppendToKeys? && LineFree(a.lines) && Undecodable(s.key, decode)
    requires Normalize(a.lines) != [] && PlainKeys(Normalize(a.lines)) && i in s.info.times && i >= |Normalize(a.lines)|
    ensures !Consistent(Step(s, a, io), io)
  {
    AppendDropsKeys(s.key, a.lines, decode);
    ActionConsistentIff(s, a, RecordsOf(s, io), decode, io);
  }

  /** So does an empty array given as the first keys: none is read from it, and one is counted. */
  lemma EmptyArrayExample(text: string, a: Action, decode: Decoder, io: Format) returns (s: State)
    requires io == Newline(decode) && EmptyArray(text, decode) && a == AppendToKeys(Split(text, '\n'))
    ensures Consistent(s, io) && Step(s, a, io).key == text && !Consistent(Step(s, a, io), io)
  {
    s := State("", NoInfo);
    NotBlank(text);
    JoinSplit(text, '\n');
    StoredByStep(s, a, decode, io);
    ActionConsistentIff(s, a, RecordsOf(s, io), decode, io);
  }
}
