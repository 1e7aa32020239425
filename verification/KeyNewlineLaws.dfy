/** The laws of the multi-key channel for the key format the source uses: newlines, or a decodable array. */
module KeyNewlineLaws {
  import opened Lists
  import opened Text
  import opened ModelNames
  import opened KeyText
  import opened KeyAppend
  import opened KeyRecords
  import opened KeyManager
  import opened KeyLists
  import opened KeyManagerLaws

  // ---- Every counted row ----

  /** The actions that leave the key text alone follow the records; consistent rows stay so, and enabling all keys tidies others. */
  lemma NewlineInPlace(s: State, a: Action, decode: Decoder, io: Format)
    requires io == Newline(decode) && Counted(s, io) && InPlace(a)
    ensures Holds(s, Step(s, a, io), Act(RecordsOf(s, io), a), io)
    ensures Consistent(Step(s, a, io), io) <==> if a.EnableAllKeys? then !EmptyArray(s.key, decode) else Consistent(s, io)
  {
    NewlineCounts(decode, io);
    InPlaceFollows(s, a, io);
    CountAgreesIff(s.key, decode);
  }

  /** What a shortened list must be to be written back faithfully. */
  lemma RewriteFollowsIff(s: State, records: seq<Record>, decode: Decoder, io: Format)
    requires io == Newline(decode) && |records| < |GetKeys(s.key, decode)|
    ensures RecordsOf(WrittenBack(s, records, io), io) == records <==> ReadsBack(KeysOf(records), decode)
  {
    NewlineIsPlain(decode);
    WrittenBackIff(s, records, io);
    SurvivesIff(KeysOf(records), decode);
  }

  lemma StoredByAppend(s: State, lines: seq<string>, decode: Decoder, io: Format)
    requires io == Newline(decode)
    ensures AfterAppend(s, lines, io).key == StoredText(s.key, lines, decode)
  {
  }

  /** The append keeps every key at its index, and nothing is recorded under the indexes of the new ones. */
  ghost predicate KeepsRecords(s: State, lines: seq<string>, keys: seq<string>, decode: Decoder) {
    KeepsKeys(s.key, lines, decode) && Unused(s.info, |keys|, |keys + AddedKeys(keys, lines)|)
  }

  /** An append, on any row at all. */
  lemma NewlineAppendIff(s: State, lines: seq<string>, decode: Decoder, io: Format)
    requires io == Newline(decode) && LineFree(lines)
    ensures RecordsOf(AfterAppend(s, lines, io), io) == AppendedRecords(RecordsOf(s, io), lines) <==>
            KeepsRecords(s, lines, GetKeys(s.key, decode), decode)
  {
    var keys := GetKeys(s.key, decode);
    NewlineIsPlain(decode);
    AppendFollowsIff(s, lines, io, keys, AddedKeys(keys, lines), AfterAppend(s, lines, io));
    StoredByAppend(s, lines, decode, io);
    AppendKeepsIff(s.key, lines, decode, keys);
  }

  /** An append keeps the records that were there; a deletion leaves a list that reads back; nothing else touches the key text. */
  ghost predicate Faithful(s: State, a: Action, records: seq<Record>, decode: Decoder) {
    if a.AppendToKeys? then KeepsRecords(s, a.lines, GetKeys(s.key, decode), decode)
    else Rewrites(records, a) ==> ReadsBack(KeysOf(Act(records, a)), decode)
  }

  /** The new keys of an append are given line by line. */
  ghost predicate ByLines(a: Action) {
    a.AppendToKeys? ==> LineFree(a.lines)
  }

  lemma OtherActionFollowsIff(s: State, a: Action, records: seq<Record>, decode: Decoder, io: Format)
    requires io == Newline(decode) && Counted(s, io) && !a.AppendToKeys? && records == RecordsOf(s, io)
    ensures RecordsOf(Step(s, a, io), io) == Act(records, a) <==> (Rewrites(records, a) ==> ReadsBack(KeysOf(Act(records, a)), decode))
  {
    NewlineIsPlain(decode);
    OtherStepFollowsIff(s, a, io);
    SurvivesIff(KeysOf(Act(records, a)), decode);
  }

  /** Every action, from every row that a run reaches: it does to the row what it does to the list of records exactly then. */
  lemma ActionFollowsIff(s: State, a: Action, decode: Decoder, io: Format)
    requires io == Newline(decode) && Counted(s, io) && ByLines(a)
    ensures RecordsOf(Step(s, a, io), io) == Act(RecordsOf(s, io), a) <==> Faithful(s, a, RecordsOf(s, io), decode)
  {
    var records := RecordsOf(s, io);
    if a.AppendToKeys? {
      NewlineAppendIff(s, a.lines, decode, io);
      AppendStep(s, a.lines, records, io, a);
    } else {
      OtherActionFollowsIff(s, a, records, decode, io);
    }
  }

  // ---- Plain keys ----

  /** A consistent channel with at least one key, all of them plain. */
  ghost predicate PlainRow(s: State, decode: Decoder) {
    Consistent(s, Newline(decode)) && GetKeys(s.key, decode) != [] && PlainKeys(GetKeys(s.key, decode))
  }

  lemma PlainRowReads(text: string, decode: Decoder)
    requires GetKeys(text, decode) != [] && PlainKeys(GetKeys(text, decode))
    ensures ExistingKeys(text, decode) == GetKeys(text, decode)
  {
    if !Decodes(text, decode) {
      PlainLinesHead(text);
    }
  }

  lemma PlainIsGood(s: State, decode: Decoder, io: Format)
    requires io == Newline(decode)
    ensures PlainRow(s, decode) <==> Good(s, io)
  {
    if PlainRow(s, decode) {
      PlainRowReads(s.key, decode);
    }
  }

  /** On plain keys every action follows the records except deleting every key, and the keys stay plain. */
  lemma PlainActionIff(s: State, a: Action, decode: Decoder, io: Format)
    requires io == Newline(decode) && PlainRow(s, decode) && PlainAction(a)
    ensures PlainRow(Step(s, a, io), decode)
    ensures RecordsOf(Step(s, a, io), io) == Act(RecordsOf(s, io), a) <==> !DeletesAll(RecordsOf(s, io), a)
  {
    NewlineIsPlain(decode);
    PlainIsGood(s, decode, io);
    StepFollowsIff(s, a, io);
    PlainIsGood(Step(s, a, io), decode, io);
  }

  /** Any run on plain keys is the run on the list of records, and keeps the row consistent. */
  lemma PlainRunFollows(s: State, actions: seq<Action>, decode: Decoder, io: Format)
    requires io == Newline(decode) && PlainRow(s, decode) && PlainActions(actions)
    ensures PlainRow(Run(s, actions, io), decode)
    ensures NeverDeletesAll(RecordsOf(s, io), actions) ==> RecordsOf(Run(s, actions, io), io) == ActAll(RecordsOf(s, io), actions)
  {
    NewlineIsPlain(decode);
    PlainIsGood(s, decode, io);
    RunKeepsGood(s, actions, io);
    PlainIsGood(Run(s, actions, io), decode, io);
    if NeverDeletesAll(RecordsOf(s, io), actions) {
      RunFollows(s, actions, io);
    }
  }

  /** Appending the same lines to a stored row with plain keys twice leaves the records of the first time. */
  lemma PlainAppendIdempotent(s: State, lines: seq<string>, decode: Decoder, io: Format)
    requires io == Newline(decode) && PlainRow(s, decode) && PlainAction(AppendToKeys(lines))
    ensures var once := AfterAppend(s, lines, io);
            RecordsOf(AfterAppend(once, lines, io), io) == RecordsOf(once, io)
  {
    NewlineIsPlain(decode);
    PlainIsGood(s, decode, io);
    AppendIdempotent(s, lines, io);
  }

  /** Deleting the disabled keys when every key is automatically disabled keeps them all and enables them, on any row. */
  lemma NewlineDeleteAllEnables(s: State, decode: Decoder, io: Format)
    requires io == Newline(decode) && DeletesAll(RecordsOf(s, io), DeleteDisabledKeys)
    ensures var next := Step(s, DeleteDisabledKeys, io); Holds(s, next, AllEnabled(RecordsOf(s, io)), io) && Consistent(next, io)
  {
    NewlineCounts(decode, io);
    DeleteAllEnables(s, io);
  }

  // ---- Channels on which an action does something else ----

  lemma UndecodableState(text: string, decode: Decoder, io: Format) returns (s: State)
    requires io == Newline(decode) && Undecodable(text, decode)
    ensures Consistent(s, io) && s.key == text
  {
    NotBlank(text);
    s := FreshState(text, Lines(text), io);
  }

  /** A channel with undecodable key text: appending plain keys replaces all it had. */
  lemma AppendDropsExample(text: string, lines: seq<string>, a: Action, decode: Decoder, io: Format) returns (s: State)
    requires io == Newline(decode) && Undecodable(text, decode) && LineFree(lines)
    requires Normalize(lines) != [] && PlainKeys(Normalize(lines)) && a == AppendToKeys(lines)
    ensures Diverges(s, a, io) && s.key == text && GetKeys(StoredText(text, lines, decode), decode) == Normalize(lines)
  {
    s := UndecodableState(text, decode, io);
    AppendDropsKeys(text, lines, decode);
    ActionFollowsIff(s, a, decode, io);
  }

  lemma PlainWord(key: string)
    requires Clean(key) && key[0] != '[' && '\n' !in key
    ensures PlainKey(key)
  {
    assert Trim(key) == key;
  }

  lemma OneKey(key: string, lines: seq<string>)
    requires PlainKey(key) && Clean(key) && lines == [key]
    ensures LineFree(lines) && Normalize(lines) == lines && PlainKeys(lines)
  {
    NormalizeFixed(lines);
  }

  /** Such a channel: text that opens with a bracket and does not decode, and one key appended to it. */
  lemma OpenArrayExample(text: string, key: string, lines: seq<string>, a: Action, decode: Decoder, io: Format) returns (s: State)
    requires Clean(text) && text[0] == '[' && decode(text).None? && io == Newline(decode)
    requires Clean(key) && key[0] != '[' && '\n' !in key && lines == [key] && a == AppendToKeys(lines)
    ensures Diverges(s, a, io) && s.key == text && GetKeys(StoredText(text, lines, decode), decode) == [key]
  {
    PlainWord(key);
    OneKey(key, lines);
    assert Trim(text) == text;
    s := AppendDropsExample(text, lines, a, decode, io);
  }

  /** Lines that start with a plain key and do not end blank are read and counted as they are. */
  lemma PlainStart(keys: seq<string>, decode: Decoder, text: string)
    requires LineFree(keys) && SolidEnds(keys) && |keys| > 1 && PlainKey(keys[0]) && text == Join(keys, '\n')
    ensures GetKeys(text, decode) == CountedKeys(text, decode) == keys
  {
    var first := keys[0];
    assert text == first + text[|first|..];
    PlainHead(first, text[|first|..]);
    GetKeysOfJoinIff(keys, decode);
  }

  /** A blank line after the first key counts as a key, and is lost with it. */
  lemma BlankKeyIsLost(keys: seq<string>, decode: Decoder)
    requires |keys| > 1 && LineFree(keys) && SolidEnds(keys) && PlainKey(keys[0])
    requires keys[1] == "" && !Decodes(Join(keys[1..], '\n'), decode)
    ensures GetKeys(Join(keys, '\n'), decode) == CountedKeys(Join(keys, '\n'), decode) == keys
    ensures !Survives(keys[1..], Newline(decode))
  {
    PlainStart(keys, decode, Join(keys, '\n'));
    SurvivesIff(keys[1..], decode);
  }

  lemma NewlineHead(key: string)
    requires PlainKey(key)
    ensures !ArrayText(['\n'] + key)
  {
    var text := ['\n'] + key;
    assert TrimLeft(key, IsSpace) != "" by { assert Trim(key) != ""; }
    assert text[1..] == key && IsSpace(text[0]);
    assert TrimLeft(text, IsSpace) == TrimLeft(key, IsSpace);
    TrimHead(text);
    TrimHead(key);
  }

  lemma BlankMiddle(first: string, last: string, decode: Decoder, io: Format) returns (text: string, keys: seq<string>)
    requires PlainKey(first) && PlainKey(last) && io == Newline(decode)
    ensures PlainFormat(io) && io.read(text) == keys && io.count(text) == keys
    ensures |keys| > 1 && !Survives(keys[1..], io)
  {
    assert first != "" && last != "" by { assert Trim("") == ""; }
    keys := ThreeLines(first, last);
    text := Join(keys, '\n');
    NewlineHead(last);
    BlankKeyIsLost(keys, decode);
    NewlineIsPlain(decode);
  }

  /** Such a channel: any two plain keys with a blank line between them. */
  lemma BlankKeyExample(first: string, last: string, a: Action, decode: Decoder, io: Format) returns (s: State)
    requires PlainKey(first) && PlainKey(last) && a == DeleteKey(Some(0)) && io == Newline(decode)
    ensures Diverges(s, a, io)
  {
    var text, keys := BlankMiddle(first, last, decode, io);
    s := TailExample(text, keys, a, io);
  }

  lemma ThreeLines(first: string, last: string) returns (keys: seq<string>)
    requires first != "" && last != "" && '\n' !in first && '\n' !in last
    ensures LineFree(keys) && SolidEnds(keys) && |keys| > 1 && keys[0] == first && keys[1] == ""
    ensures Join(keys[1..], '\n') == ['\n'] + last
  {
    keys := [first, "", last];
    var rest := keys[1..];
    assert rest[1..] == [last] && rest[0] == "";
  }

  /** A key of an array that spans lines is split once it stands alone. */
  lemma LongKeyIsSplit(text: string, keys: seq<string>, decode: Decoder)
    requires |keys| == 2 && '\n' in keys[1] && !ArrayText(keys[1])
    requires text != "" && text[0] == '[' && text[|text| - 1] == ']' && decode(text) == Some(keys)
    ensures GetKeys(text, decode) == CountedKeys(text, decode) == keys
    ensures !Survives(keys[1..], Newline(decode))
  {
    assert Trim(text) == text && Decodes(text, decode);
    var rest, long := keys[1..], keys[1];
    assert Join(rest, '\n') == long && long in rest;
    SurvivesIff(rest, decode);
  }

  lemma BracedKey(key: string)
    requires key != "" && key[0] == '{' && key[|key| - 1] == '}'
    ensures !ArrayText(key)
  {
    assert Trim(key) == key;
  }

  /** Such a channel: an array of two objects, the second written over two lines. */
  lemma LongKeyExample(text: string, keys: seq<string>, a: Action, decode: Decoder, io: Format) returns (s: State)
    requires text == "[{},{\n}]" && keys == ["{}", "{\n}"] && a == DeleteKey(Some(0)) && decode(text) == Some(keys) && io == Newline(decode)
    ensures Diverges(s, a, io)
  {
    BracedKey(keys[1]);
    assert keys[1][1] == '\n';
    LongKeyIsSplit(text, keys, decode);
    NewlineIsPlain(decode);
    s := TailExample(text, keys, a, io);
  }
}
