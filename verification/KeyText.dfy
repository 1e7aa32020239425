/** The key field of a channel read as a list of keys. */
module KeyText {
  import opened Lists
  import opened Text
  import opened ModelNames

  /** The JSON decoder applied to key text that looks like an array; none when it reports an error. */
  type Decoder = string -> Option<seq<string>>

  predicate ArrayText(text: string) {
    var trimmed := Trim(text);
    trimmed != "" && trimmed[0] == '['
  }

  predicate Decodes(text: string, decode: Decoder) {
    ArrayText(text) && decode(Trim(text)).Some?
  }

  /** The newline format. */
  function Lines(text: string): (r: seq<string>)
    ensures r != [] && forall line <- r :: '\n' !in line
  {
    Split(TrimChar(text, '\n'), '\n')
  }

  /** GetKeys */
  function GetKeys(text: string, decode: Decoder): (r: seq<string>) {
    if text == "" then []
    else if Decodes(text, decode) then decode(Trim(text)).value
    else Lines(text)
  }

  /** The key list Update counts; an array that decodes to nothing is counted as lines. */
  function CountedKeys(text: string, decode: Decoder): (r: seq<string>) {
    if text == "" then []
    else if Decodes(text, decode) && decode(Trim(text)).value != [] then decode(Trim(text)).value
    else Lines(text)
  }

  /** Key text that is an empty array: no key is read from it, but one line is counted. */
  predicate EmptyArray(text: string, decode: Decoder) {
    Decodes(text, decode) && decode(Trim(text)).value == []
  }

  /** The stored count is the number of keys except for key text that is an empty array. */
  lemma CountAgreesIff(text: string, decode: Decoder)
    ensures |CountedKeys(text, decode)| == |GetKeys(text, decode)| <==> !EmptyArray(text, decode)
  {
    assert Trim("") == "";
  }

  ghost predicate LineFree(keys: seq<string>) {
    forall key <- keys :: '\n' !in key
  }

  /** The list is read back from its joined text: not empty, and no blank line at either end to be trimmed. */
  predicate SolidEnds(keys: seq<string>) {
    keys != [] && keys[0] != "" && keys[|keys| - 1] != ""
  }

  lemma LinesOfJoin(keys: seq<string>)
    requires LineFree(keys) && SolidEnds(keys)
    ensures Lines(Join(keys, '\n')) == keys && Join(keys, '\n') != ""
  {
    var text, first, last := Join(keys, '\n'), keys[0], keys[|keys| - 1];
    JoinEnds(keys, '\n');
    SplitJoin(keys, '\n');
    assert first[0] in first && last[|last| - 1] in last;
    assert text[0] != '\n' && text[|text| - 1] != '\n';
    assert TrimChar(text, '\n') == text;
  }

  lemma TrimCharShortens(s: string, c: char)
    requires s != "" && (s[0] == c || s[|s| - 1] == c)
    ensures |TrimChar(s, c)| < |s|
  {
    var cut := (x: char) => x == c;
    var left := TrimLeft(s, cut);
    if s[0] == c {
      assert left == TrimLeft(s[1..], cut);
    } else {
      assert left == s;
      assert TrimRight(s, cut) == TrimRight(s[..|s| - 1], cut);
    }
  }

  lemma {:induction false} JoinEndsBlank(keys: seq<string>)
    requires |keys| > 1 && !SolidEnds(keys)
    ensures var s := Join(keys, '\n'); s != "" && (s[0] == '\n' || s[|s| - 1] == '\n')
  {
    if keys[0] != "" {
      JoinLastBlank(keys);
    }
  }

  lemma {:induction false} JoinLastBlank(keys: seq<string>)
    requires |keys| > 1 && keys[|keys| - 1] == ""
    ensures var s := Join(keys, '\n'); s != "" && s[|s| - 1] == '\n'
  {
    if |keys| > 2 {
      JoinLastBlank(keys[1..]);
    } else {
      assert keys[1..] == [""];
    }
  }

  lemma JoinBlankEnds(keys: seq<string>)
    requires LineFree(keys) && keys != [] && !SolidEnds(keys)
    ensures Join(keys, '\n') != "" ==> Lines(Join(keys, '\n')) != keys
    ensures Join(keys, '\n') == "" ==> keys == [""]
  {
    if |keys| > 1 {
      var text := Join(keys, '\n');
      JoinEndsBlank(keys);
      TrimCharShortens(text, '\n');
      JoinSplit(TrimChar(text, '\n'), '\n');
    }
  }

  /** The list survives being joined with newlines and read again. */
  ghost predicate ReadsBack(keys: seq<string>, decode: Decoder) {
    if Decodes(Join(keys, '\n'), decode) then decode(Trim(Join(keys, '\n'))).value == keys
    else LineFree(keys) && SolidEnds(keys)
  }

  /** A key that spans lines is never read back as one. */
  lemma LinesAreLineFree(keys: seq<string>, text: string)
    requires Lines(text) == keys
    ensures LineFree(keys)
  {
  }

  /** Reading back joined keys gives the same keys exactly then: read as lines, no key spans lines and neither end is blank. */
  lemma GetKeysOfJoinIff(keys: seq<string>, decode: Decoder)
    requires keys != []
    ensures GetKeys(Join(keys, '\n'), decode) == keys <==> ReadsBack(keys, decode)
    ensures ReadsBack(keys, decode) ==> Join(keys, '\n') != "" && CountedKeys(Join(keys, '\n'), decode) == keys
  {
    var text := Join(keys, '\n');
    if Decodes(text, decode) {
      assert text != "" by { assert Trim("") == ""; }
    } else if !LineFree(keys) {
      if text != "" && Lines(text) == keys {
        LinesAreLineFree(keys, text);
      }
    } else if SolidEnds(keys) {
      LinesOfJoin(keys);
    } else {
      JoinBlankEnds(keys);
    }
  }

  // ---- Keys that never look like an array ----

  predicate PlainKey(key: string) {
    '\n' !in key && Trim(key) != "" && Trim(key)[0] != '['
  }

  ghost predicate PlainKeys(keys: seq<string>) {
    forall key <- keys :: PlainKey(key)
  }

  lemma PlainHead(first: string, rest: string)
    requires PlainKey(first)
    ensures !ArrayText(first + rest)
  {
    HeadKept(first, rest);
  }

  lemma PlainJoin(keys: seq<string>)
    requires PlainKeys(keys) && keys != []
    ensures !ArrayText(Join(keys, '\n'))
    ensures LineFree(keys) && SolidEnds(keys)
  {
    assert PlainKey(keys[0]) && PlainKey(keys[|keys| - 1]);
    assert Trim("") == "";
    var text := Join(keys, '\n');
    assert text == keys[0] + text[|keys[0]|..];
    PlainHead(keys[0], text[|keys[0]|..]);
  }

  lemma PlainRoundTrip(keys: seq<string>, decode: Decoder)
    requires PlainKeys(keys) && keys != []
    ensures GetKeys(Join(keys, '\n'), decode) == keys
    ensures CountedKeys(Join(keys, '\n'), decode) == keys
    ensures !ArrayText(Join(keys, '\n')) && Join(keys, '\n') != ""
  {
    PlainJoin(keys);
    LinesOfJoin(keys);
  }

  // ---- Append ----

  /** The existing keys as the append branch reads them: array text that does not decode gives none. */
  function ExistingKeys(text: string, decode: Decoder): (r: seq<string>) {
    if ArrayText(text) then (if Decodes(text, decode) then decode(Trim(text)).value else []) else Lines(text)
  }

  /** The keys an append adds: the trimmed non-blank lines, first occurrences only, that no existing key equals once trimmed. */
  function AddedKeys(existing: seq<string>, lines: seq<string>): (r: seq<string>) {
    Without(Normalize(lines), NonBlank(existing))
  }

  method MergeKeys(existing: seq<string>, lines: seq<string>) returns (keys: seq<string>)
    ensures keys == existing + AddedKeys(existing, lines)
  {
    var newKeys := TrimmedLines(lines);
    var seen := TrimmedLines(existing);
    var added := Deduplicate(newKeys, seen);
    keys := existing + added;
  }

  /** The loop that trims entries and skips blank ones. */
  method TrimmedLines(lines: seq<string>) returns (trimmed: seq<string>)
    ensures trimmed == NonBlank(lines)
  {
    trimmed := [];
    for i := 0 to |lines|
      invariant trimmed == NonBlank(lines[..i])
    {
      NonBlankSnoc(lines, i);
      var key := Trim(lines[i]);
      if key != "" {
        trimmed := trimmed + [key];
      }
    }
    assert lines[..|lines|] == lines;
  }

  lemma NonBlankSnoc(lines: seq<string>, i: nat)
    requires i < |lines|
    ensures NonBlank(lines[..i + 1]) == NonBlank(lines[..i]) + Entry(lines[i])
  {
    assert lines[..i + 1] == lines[..i] + [lines[i]];
    NonBlankConcat(lines[..i], [lines[i]]);
    assert [lines[i]][1..] == [];
  }

  /** The loop over the new keys with the set of keys seen so far. */
  method Deduplicate(newKeys: seq<string>, existing: seq<string>) returns (added: seq<string>)
    ensures added == Without(Uniq(newKeys), existing)
  {
    added := [];
    var seen := set key | key in existing;
    for i := 0 to |newKeys|
      invariant added == Without(Uniq(newKeys[..i]), existing)
      invariant forall key :: key in seen <==> key in existing || key in added
    {
      var key := newKeys[i];
      UniqWithoutSnoc(newKeys, i, existing);
      if key !in seen {
        seen := seen + {key};
        added := added + [key];
      }
    }
    assert newKeys[..|newKeys|] == newKeys;
  }

  lemma UniqWithoutSnoc(xs: seq<string>, i: nat, ys: seq<string>)
    requires i < |xs|
    ensures var before := Without(Uniq(xs[..i]), ys);
            Without(Uniq(xs[..i + 1]), ys) == if xs[i] in ys || xs[i] in before then before else before + [xs[i]]
  {
    var front, x := Uniq(xs[..i]), xs[i];
    assert xs[..i + 1][..i] == xs[..i];
    FilterMembers(front, y => y !in ys);
    FilterConcat(front, [x], y => y !in ys);
    assert Uniq(xs[..i + 1]) == if x in front then front else front + [x];
    assert Without([x], ys) == if x in ys then [] else [x];
  }

  /** What the added keys are: trimmed, not blank, pairwise distinct, new, and together with the old ones all that was asked for. */
  lemma AddedKeysMeaning(existing: seq<string>, lines: seq<string>)
    ensures Normal(AddedKeys(existing, lines)) && (LineFree(lines) ==> LineFree(AddedKeys(existing, lines)))
    ensures forall key <- AddedKeys(existing, lines) :: key !in NonBlank(existing)
    ensures forall line <- lines :: Trim(line) == "" || Trim(line) in AddedKeys(existing, lines) || Trim(line) in NonBlank(existing)
  {
    NormalizeIsNormal(lines);
    FilterMembers(Normalize(lines), x => x !in NonBlank(existing));
    FilterDistinct(Normalize(lines), x => x !in NonBlank(existing));
    if LineFree(lines) {
      NormalizedLines(lines);
    }
    UniqMembers(NonBlank(lines));
    forall line <- lines ensures Trim(line) == "" || Trim(line) in NonBlank(lines) {
      EntryIn(lines, line);
    }
  }

  lemma {:induction false} EntryIn(lines: seq<string>, line: string)
    requires line in lines
    ensures Trim(line) == "" || Trim(line) in NonBlank(lines)
  {
    if line != lines[0] {
      EntryIn(lines[1..], line);
    }
  }

  lemma {:induction false} NonBlankLineFree(lines: seq<string>)
    requires LineFree(lines)
    ensures LineFree(NonBlank(lines))
  {
    if lines != [] {
      NonBlankLineFree(lines[1..]);
      TrimChars(lines[0]);
    }
  }

  lemma NormalizedLines(lines: seq<string>)
    requires LineFree(lines)
    ensures LineFree(Normalize(lines))
  {
    NonBlankLineFree(lines);
    UniqMembers(NonBlank(lines));
  }

  /** Appending the same lines again adds nothing. */
  lemma AppendTwice(existing: seq<string>, lines: seq<string>)
    ensures AddedKeys(existing + AddedKeys(existing, lines), lines) == []
  {
    var added := AddedKeys(existing, lines);
    AddedKeysMeaning(existing, lines);
    NonBlankConcat(existing, added);
    NonBlankFixed(added);
    FilterMembers(Normalize(lines), x => x !in NonBlank(existing));
    FilterNone(Normalize(lines), x => x !in NonBlank(existing + added));
  }

  lemma LinesEnds(text: string)
    ensures SolidEnds(Lines(text)) || Lines(text) == [""]
  {
    var body := TrimChar(text, '\n');
    JoinSplit(body, '\n');
    if !SolidEnds(Lines(text)) && |Lines(text)| > 1 {
      JoinEndsBlank(Lines(text));
    }
  }

  lemma AddedKeysAreClean(existing: seq<string>, lines: seq<string>)
    requires LineFree(lines)
    ensures LineFree(AddedKeys(existing, lines)) && forall key <- AddedKeys(existing, lines) :: Clean(key)
  {
    AddedKeysMeaning(existing, lines);
  }

  // ---- The format as a value ----

  /** How key text is read, counted and written, and how an append reads it. */
  datatype Format = Format(read: string -> seq<string>, count: string -> seq<string>, existing: string -> seq<string>,
                           join: seq<string> -> string)

  function Newline(decode: Decoder): (r: Format) {
    Format(text => GetKeys(text, decode), text => CountedKeys(text, decode), text => ExistingKeys(text, decode),
           keys => Join(keys, '\n'))
  }

  /** Key text from which keys are read is counted as it is read. */
  ghost predicate CountsKeys(io: Format) {
    forall text :: io.read(text) != [] ==> text != "" && io.count(text) == io.read(text)
  }

  ghost predicate WritesNothing(io: Format) {
    io.join([]) == ""
  }

  /** The list survives being written and read again. */
  ghost predicate Survives(keys: seq<string>, io: Format) {
    io.join(keys) != "" && io.read(io.join(keys)) == keys
  }

  /** Plain keys survive, also when the text is read for an append. */
  ghost predicate PlainFormat(io: Format) {
    && CountsKeys(io) && WritesNothing(io)
    && forall keys {:trigger io.join(keys)} :: keys != [] && PlainKeys(keys) ==> Survives(keys, io) && io.existing(io.join(keys)) == keys
  }

  lemma NewlineCounts(decode: Decoder, io: Format)
    requires io == Newline(decode)
    ensures CountsKeys(io) && WritesNothing(io)
  {
  }

  lemma NewlineIsPlain(decode: Decoder)
    ensures PlainFormat(Newline(decode))
  {
    var io := Newline(decode);
    forall keys | keys != [] && PlainKeys(keys) ensures Survives(keys, io) && io.existing(io.join(keys)) == keys {
      PlainRoundTrip(keys, decode);
      PlainJoin(keys);
      LinesOfJoin(keys);
    }
  }

  /** Exactly which lists survive in this format. */
  lemma SurvivesIff(keys: seq<string>, decode: Decoder)
    ensures Survives(keys, Newline(decode)) <==> ReadsBack(keys, decode)
  {
    if keys == [] {
      assert Trim("") == "";
    } else {
      GetKeysOfJoinIff(keys, decode);
      var text := Join(keys, '\n');
      assert text == "" ==> GetKeys(text, decode) == [];
    }
  }

  /** The append branch. */
  function Appended(text: string, lines: seq<string>, io: Format): (r: string) {
    if text == "" then io.join(lines) else io.join(io.existing(text) + AddedKeys(io.existing(text), lines))
  }

  method AppendKeys(text: string, input: string, decode: Decoder) returns (key: string)
    ensures key == Appended(text, Split(input, '\n'), Newline(decode))
  {
    if text == "" {
      JoinSplit(input, '\n');
      return input;
    }
    var keys := MergeKeys(ExistingKeys(text, decode), Split(input, '\n'));
    key := Join(keys, '\n');
  }
}
