/** The key text an append stores, and exactly when it keeps the keys that were there. */
module KeyAppend {
  import opened Lists
  import opened Text
  import opened ModelNames
  import opened KeyText

  /** Array-looking text the decoder rejects: it is read as lines, but an append finds no keys in it. */
  predicate Undecodable(text: string, decode: Decoder) {
    ArrayText(text) && !Decodes(text, decode)
  }

  /** The text stored by an append: an empty one leaves what was there. */
  function StoredText(text: string, lines: seq<string>, decode: Decoder): (r: string) {
    var written := Appended(text, lines, Newline(decode));
    if written != "" then written else text
  }

  /** Nothing is written, so the stored text stays. */
  predicate JoinsToNothing(keys: seq<string>) {
    keys == [] || keys == [""]
  }

  /**
   * The append keeps every key at its index and adds the new ones after them. There are
   * three cases: no key text yet, text an append cannot decode, and any other text.
   */
  ghost predicate KeepsKeys(text: string, lines: seq<string>, decode: Decoder) {
    var keys, names := GetKeys(text, decode), Normalize(lines);
    if text == "" then FirstKeysKept(lines, names, decode)
    else if Undecodable(text, decode) then RepeatsKeys(keys, lines, names, decode)
    else JoinsToNothing(keys + AddedKeys(keys, lines)) || ReadsBack(keys + AddedKeys(keys, lines), decode)
  }

  /** Without key text the input is stored as it is: it must decode to its own lines, or have none to trim, drop or merge. */
  ghost predicate FirstKeysKept(lines: seq<string>, names: seq<string>, decode: Decoder) {
    var text := Join(lines, '\n');
    text == "" || if Decodes(text, decode) then decode(Trim(text)).value == names else Normal(Lines(text))
  }

  /** On undecodable text the input must be blank, start with all the old keys, or decode to the whole list. */
  ghost predicate RepeatsKeys(keys: seq<string>, lines: seq<string>, names: seq<string>, decode: Decoder) {
    var text := Join(names, '\n');
    names == [] || if Decodes(text, decode) then decode(Trim(text)).value == keys + AddedKeys(keys, lines) else keys <= names
  }

  // ---- Joining ----

  lemma JoinNothing(keys: seq<string>)
    ensures Join(keys, '\n') == "" <==> JoinsToNothing(keys)
  {
  }

  lemma AddedToNone(lines: seq<string>)
    ensures AddedKeys([], lines) == Normalize(lines)
  {
    assert NonBlank([]) == [];
    FilterAll(Normalize(lines), x => x !in NonBlank([]));
  }

  lemma SolidNormal(keys: seq<string>)
    requires Normal(keys) && keys != []
    ensures SolidEnds(keys) && !JoinsToNothing(keys)
  {
    assert Clean(keys[0]) && Clean(keys[|keys| - 1]);
  }

  // ---- No key text ----

  lemma JoinedLines(lines: seq<string>)
    requires LineFree(lines) && lines != []
    ensures Normalize(Lines(Join(lines, '\n'))) == Normalize(lines)
  {
    var text := Join(lines, '\n');
    SplitJoin(lines, '\n');
    TrimmedEntries(text, '\n');
  }

  lemma NormalIff(names: seq<string>)
    ensures Normalize(names) == names <==> Normal(names)
  {
    NormalizeIsNormal(names);
    if Normal(names) {
      NormalizeFixed(names);
    }
  }

  lemma BlankLines(lines: seq<string>)
    requires JoinsToNothing(lines)
    ensures Normalize(lines) == []
  {
    if lines != [] {
      NoEntry("");
    }
  }

  lemma FirstKeysIff(lines: seq<string>, decode: Decoder)
    requires LineFree(lines)
    ensures GetKeys(Join(lines, '\n'), decode) == Normalize(lines) <==> FirstKeysKept(lines, Normalize(lines), decode)
  {
    var text := Join(lines, '\n');
    JoinNothing(lines);
    if text == "" {
      BlankLines(lines);
    } else if !Decodes(text, decode) {
      JoinedLines(lines);
      NormalIff(Lines(text));
    }
  }

  // ---- Undecodable text ----

  lemma PrefixDropped(keys: seq<string>, rest: seq<string>)
    requires Distinct(keys + rest)
    ensures Without(keys + rest, keys) == rest
  {
    FilterConcat(keys, rest, x => x !in keys);
    FilterNone(keys, x => x !in keys);
    forall x <- rest ensures x !in keys {
      var i :| 0 <= i < |rest| && rest[i] == x;
      assert (keys + rest)[|keys| + i] == x;
      assert forall k :: 0 <= k < |keys| ==> (keys + rest)[k] == keys[k];
    }
    FilterAll(rest, x => x !in keys);
  }

  lemma PrefixAdds(keys: seq<string>, lines: seq<string>, names: seq<string>)
    requires names == Normalize(lines)
    ensures names == keys + AddedKeys(keys, lines) <==> keys <= names
  {
    if keys <= names {
      var rest := names[|keys|..];
      assert names == keys + rest;
      NormalizeIsNormal(lines);
      NonBlankFixed(keys);
      PrefixDropped(keys, rest);
    }
  }

  lemma NothingAdded(keys: seq<string>, lines: seq<string>)
    requires Normalize(lines) == []
    ensures keys + AddedKeys(keys, lines) == keys
  {
  }

  /** The names alone are read back as they are, unless they decode. */
  lemma NamesReadBack(lines: seq<string>, names: seq<string>, decode: Decoder)
    requires LineFree(lines) && names == Normalize(lines) && names != [] && !Decodes(Join(names, '\n'), decode)
    ensures GetKeys(Join(names, '\n'), decode) == names
  {
    NormalizeIsNormal(lines);
    NormalizedLines(lines);
    SolidNormal(names);
    GetKeysOfJoinIff(names, decode);
  }

  lemma UndecodableText(text: string, lines: seq<string>, decode: Decoder, names: seq<string>)
    requires Undecodable(text, decode) && names == Normalize(lines)
    ensures text != "" && GetKeys(text, decode) == Lines(text)
    ensures StoredText(text, lines, decode) == if names == [] then text else Join(names, '\n')
  {
    NotBlank(text);
    AddedToNone(lines);
    assert [] + names == names;
    JoinNothing(names);
    if names != [] {
      NormalizeIsNormal(lines);
      SolidNormal(names);
    }
  }

  lemma UndecodableIff(text: string, lines: seq<string>, decode: Decoder, keys: seq<string>, names: seq<string>)
    requires LineFree(lines) && Undecodable(text, decode) && keys == GetKeys(text, decode) && names == Normalize(lines)
    ensures GetKeys(StoredText(text, lines, decode), decode) == keys + AddedKeys(keys, lines) <==> RepeatsKeys(keys, lines, names, decode)
  {
    UndecodableText(text, lines, decode, names);
    if names == [] {
      NothingAdded(keys, lines);
    } else if Decodes(Join(names, '\n'), decode) {
      NotBlank(Join(names, '\n'));
    } else {
      NamesReadBack(lines, names, decode);
      PrefixAdds(keys, lines, names);
    }
  }

  /** An append to undecodable text keeps nothing of it: the keys afterwards are the names of the input. */
  lemma AppendDropsKeys(text: string, lines: seq<string>, decode: Decoder)
    requires LineFree(lines) && Undecodable(text, decode) && Normalize(lines) != [] && PlainKeys(Normalize(lines))
    ensures GetKeys(StoredText(text, lines, decode), decode) == Normalize(lines)
    ensures forall key <- GetKeys(text, decode) :: key in GetKeys(StoredText(text, lines, decode), decode) <==> key in Normalize(lines)
    ensures !KeepsKeys(text, lines, decode)
  {
    var names := Normalize(lines);
    UndecodableText(text, lines, decode, names);
    PlainJoin(names);
    NamesReadBack(lines, names, decode);
    BracketLine(text, names);
  }

  /** Some line of text that looks like an array is not a plain key. */
  lemma BracketLine(text: string, names: seq<string>)
    requires ArrayText(text) && PlainKeys(names)
    ensures !(Lines(text) <= names)
  {
    if PlainKeys(Lines(text)) {
      PlainLinesHead(text);
    }
  }

  /** Text whose lines are all plain keys does not look like an array. */
  lemma PlainLinesHead(text: string)
    requires PlainKeys(Lines(text))
    ensures !ArrayText(text)
  {
    var body := TrimChar(text, '\n');
    PlainJoin(Lines(text));
    JoinSplit(body, '\n');
    if Trim(text) != "" {
      TrimmedHead(text, '\n');
    }
  }

  // ---- Any other text ----

  lemma ReadAlike(text: string, decode: Decoder)
    requires text != "" && !Undecodable(text, decode)
    ensures ExistingKeys(text, decode) == GetKeys(text, decode)
  {
  }

  lemma OtherText(text: string, lines: seq<string>, decode: Decoder, keys: seq<string>, all: seq<string>)
    requires text != "" && !Undecodable(text, decode) && keys == GetKeys(text, decode) && all == keys + AddedKeys(keys, lines)
    ensures StoredText(text, lines, decode) == if JoinsToNothing(all) then text else Join(all, '\n')
  {
    ReadAlike(text, decode);
    JoinNothing(all);
  }

  lemma BlankAll(keys: seq<string>, added: seq<string>)
    requires JoinsToNothing(keys + added) && forall key <- added :: Clean(key)
    ensures keys + added == keys
  {
    var all := keys + added;
    assert added != [] ==> all[|all| - 1] == added[|added| - 1] && Clean(all[|all| - 1]);
    assert all != [] ==> !Clean(all[|all| - 1]);
  }

  lemma OtherTextIff(text: string, lines: seq<string>, decode: Decoder, keys: seq<string>, all: seq<string>)
    requires text != "" && !Undecodable(text, decode) && keys == GetKeys(text, decode) && all == keys + AddedKeys(keys, lines)
    ensures GetKeys(StoredText(text, lines, decode), decode) == all <==> JoinsToNothing(all) || ReadsBack(all, decode)
  {
    OtherText(text, lines, decode, keys, all);
    if JoinsToNothing(all) {
      AddedKeysMeaning(keys, lines);
      BlankAll(keys, AddedKeys(keys, lines));
    } else {
      GetKeysOfJoinIff(all, decode);
    }
  }

  /** For every key text and input: the keys after an append are the old ones and then the new ones exactly in these cases. */
  lemma AppendKeepsIff(text: string, lines: seq<string>, decode: Decoder, keys: seq<string>)
    requires LineFree(lines) && keys == GetKeys(text, decode)
    ensures GetKeys(StoredText(text, lines, decode), decode) == keys + AddedKeys(keys, lines) <==> KeepsKeys(text, lines, decode)
  {
    if text == "" {
      FirstKeysIff(lines, decode);
      AddedToNone(lines);
      assert keys + AddedKeys(keys, lines) == Normalize(lines);
    } else if Undecodable(text, decode) {
      UndecodableIff(text, lines, decode, keys, Normalize(lines));
    } else {
      OtherTextIff(text, lines, decode, keys, keys + AddedKeys(keys, lines));
    }
  }

  // ---- Ordinary newline text ----

  lemma JoinedAfter(keys: seq<string>, added: seq<string>, body: string)
    requires keys != [] && body == Join(keys, '\n') && Trim(body) != ""
    ensures SameHead(body, Join(keys + added, '\n'))
  {
    if added == [] {
      assert keys + added == keys;
    } else {
      var rest := ['\n'] + Join(added, '\n');
      JoinConcat(keys, added, '\n');
      assert Join(keys + added, '\n') == body + rest;
      HeadKept(body, rest);
    }
  }

  /** Joined after other keys, the text starts as it did. */
  lemma AppendedHead(text: string, added: seq<string>)
    requires Trim(text) != ""
    ensures SameHead(text, Join(Lines(text) + added, '\n'))
  {
    var body := TrimChar(text, '\n');
    TrimmedHead(text, '\n');
    JoinSplit(body, '\n');
    JoinedAfter(Lines(text), added, body);
  }

  lemma NotBlank(text: string)
    requires Trim(text) != ""
    ensures text != ""
  {
    assert Trim("") == "";
  }

  lemma SolidLines(text: string)
    requires Trim(text) != ""
    ensures SolidEnds(Lines(text))
  {
    var body := TrimChar(text, '\n');
    TrimmedHead(text, '\n');
    NotBlank(body);
    JoinSplit(body, '\n');
    JoinNothing(Lines(text));
    LinesEnds(text);
  }

  lemma SolidWith(keys: seq<string>, added: seq<string>)
    requires SolidEnds(keys) && forall key <- added :: Clean(key)
    ensures SolidEnds(keys + added)
  {
    assert added != [] ==> Clean(added[|added| - 1]);
  }

  /** Newline text that is not blank and does not look like an array keeps its keys under every append. */
  lemma NewlineAppendKeeps(text: string, lines: seq<string>, decode: Decoder)
    requires LineFree(lines) && Trim(text) != "" && !ArrayText(text)
    ensures KeepsKeys(text, lines, decode)
  {
    var keys := Lines(text);
    var added := AddedKeys(keys, lines);
    NotBlank(text);
    assert GetKeys(text, decode) == keys;
    AppendedHead(text, added);
    SolidLines(text);
    AddedKeysAreClean(keys, lines);
    SolidWith(keys, added);
  }
}
