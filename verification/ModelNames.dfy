/** Model-name lists as ordered sets: trimmed, non-empty, first occurrence kept. */
module ModelNames {
  import opened Lists
  import opened Text

  /** One list entry, trimmed, or nothing when it is blank. */
  function Entry(raw: string): (r: seq<string>) {
    if Trim(raw) == "" then [] else [Trim(raw)]
  }

  /** Trims every entry and drops the blank ones. */
  function NonBlank(names: seq<string>): (r: seq<string>) {
    if names == [] then [] else Entry(names[0]) + NonBlank(names[1..])
  }

  function Normalize(names: seq<string>): (r: seq<string>) {
    Uniq(NonBlank(names))
  }

  /** A name with nothing to trim. */
  predicate Clean(name: string) {
    name != "" && !IsSpace(name[0]) && !IsSpace(name[|name| - 1])
  }

  ghost predicate Normal(names: seq<string>) {
    Distinct(names) && forall name <- names :: Clean(name)
  }

  ghost predicate Disjoint(xs: seq<string>, ys: seq<string>) {
    forall x <- xs :: x !in ys
  }

  ghost predicate Subset(xs: seq<string>, ys: seq<string>) {
    forall x <- xs :: x in ys
  }

  predicate CommaFree(names: seq<string>) {
    forall name <- names :: ',' !in name
  }

  function Subtract(base: seq<string>, removed: seq<string>): (r: seq<string>) {
    Without(Normalize(base), Normalize(removed))
  }

  function Intersect(base: seq<string>, allowed: seq<string>): (r: seq<string>) {
    Within(Normalize(base), Normalize(allowed))
  }

  /** Merging is normalising the concatenation: base order first, then the new names. */
  method MergeModelNames(base: seq<string>, appended: seq<string>) returns (merged: seq<string>)
    ensures merged == Normalize(base + appended)
  {
    NormalizeIsNormal(appended);
    merged := AppendMissing(Normalize(base), Normalize(appended));
    NormalizeConcat(base, appended);
  }

  /** The loop of mergeModelNames on lists already normalised. */
  method AppendMissing(first: seq<string>, extra: seq<string>) returns (merged: seq<string>)
    requires Distinct(extra)
    ensures merged == first + Without(extra, first)
  {
    merged := first;
    var seen := set name | name in first;
    for i := 0 to |extra|
      invariant forall name :: name in seen <==> name in merged
      invariant merged == first + Without(extra[..i], first)
    {
      WithoutSnoc(extra, i, first);
      if extra[i] !in seen {
        seen := seen + {extra[i]};
        merged := merged + [extra[i]];
      }
    }
    assert extra[..|extra|] == extra;
  }

  /** One step of the merge loop. */
  lemma WithoutSnoc(xs: seq<string>, i: nat, ys: seq<string>)
    requires Distinct(xs) && i < |xs|
    ensures Without(xs[..i + 1], ys) == Without(xs[..i], ys) + if xs[i] in ys then [] else [xs[i]]
    ensures xs[i] !in Without(xs[..i], ys)
  {
    assert xs[..i + 1] == xs[..i] + [xs[i]];
    FilterConcat(xs[..i], [xs[i]], x => x !in ys);
    FilterMembers(xs[..i], x => x !in ys);
    assert xs[i] !in xs[..i];
  }

  /** The value mergeModelNames computes, for use in specifications. */
  function Merge(base: seq<string>, appended: seq<string>): (r: seq<string>) {
    Normalize(base + appended)
  }

  lemma {:induction false} NonBlankConcat(xs: seq<string>, ys: seq<string>)
    ensures NonBlank(xs + ys) == NonBlank(xs) + NonBlank(ys)
  {
    if xs == [] {
      assert xs + ys == ys;
    } else {
      assert (xs + ys)[1..] == xs[1..] + ys;
      NonBlankConcat(xs[1..], ys);
    }
  }

  lemma {:induction false} NonBlankClean(names: seq<string>)
    ensures forall name <- NonBlank(names) :: Clean(name)
  {
    if names != [] {
      NonBlankClean(names[1..]);
      TrimIdempotent(names[0]);
    }
  }

  lemma {:induction false} NonBlankFixed(names: seq<string>)
    requires forall name <- names :: Clean(name)
    ensures NonBlank(names) == names
  {
    if names != [] {
      assert Clean(names[0]);
      NonBlankFixed(names[1..]);
      assert names == [names[0]] + names[1..];
    }
  }

  /** normalizeModelNames: a normal list holding exactly the non-blank trimmed inputs. */
  lemma NormalizeIsNormal(names: seq<string>)
    ensures Normal(Normalize(names))
    ensures forall name :: name in Normalize(names) <==> name in NonBlank(names)
  {
    UniqMembers(NonBlank(names));
    NonBlankClean(names);
  }

  lemma {:induction false} NonBlankMembers(names: seq<string>, name: string)
    ensures name in NonBlank(names) <==> name != "" && exists i :: 0 <= i < |names| && Trim(names[i]) == name
  {
    if names != [] {
      var rest := names[1..];
      NonBlankMembers(rest, name);
      assert forall i :: 1 <= i < |names| ==> names[i] == rest[i - 1];
      if name != "" && name in NonBlank(rest) {
        var i :| 0 <= i < |rest| && Trim(rest[i]) == name;
        assert Trim(names[i + 1]) == name;
      }
    }
  }

  /** The members: every input once trimmed, unless that leaves nothing. */
  lemma NormalizeMembers(names: seq<string>, name: string)
    ensures name in Normalize(names) <==> name != "" && exists i :: 0 <= i < |names| && Trim(names[i]) == name
  {
    NormalizeIsNormal(names);
    NonBlankMembers(names, name);
  }

  /** Normalising leaves normal lists alone, so it is idempotent. */
  lemma NormalizeFixed(names: seq<string>)
    requires Normal(names)
    ensures Normalize(names) == names
  {
    NonBlankFixed(names);
    UniqOfDistinct(names);
  }

  lemma NormalizeConcat(xs: seq<string>, ys: seq<string>)
    ensures Normalize(xs + ys) == Normalize(xs) + Without(Normalize(ys), Normalize(xs))
  {
    NonBlankConcat(xs, ys);
    UniqConcat(NonBlank(xs), NonBlank(ys));
    UniqMembers(NonBlank(xs));
    FilterCongruent(Normalize(ys), x => x !in NonBlank(xs), x => x !in Normalize(xs));
  }

  lemma WithoutMembers(xs: seq<string>, ys: seq<string>)
    ensures forall x :: x in Without(xs, ys) <==> x in xs && x !in ys
    ensures Normal(xs) ==> Normal(Without(xs, ys))
    ensures Disjoint(xs, ys) ==> Without(xs, ys) == xs
  {
    FilterMembers(xs, x => x !in ys);
    if Normal(xs) {
      FilterDistinct(xs, x => x !in ys);
    }
    if Disjoint(xs, ys) {
      FilterAll(xs, x => x !in ys);
    }
  }

  lemma WithinMembers(xs: seq<string>, ys: seq<string>)
    ensures forall x :: x in Within(xs, ys) <==> x in xs && x in ys
    ensures Normal(xs) ==> Normal(Within(xs, ys))
    ensures Subset(xs, ys) ==> Within(xs, ys) == xs
  {
    FilterMembers(xs, x => x in ys);
    if Normal(xs) {
      FilterDistinct(xs, x => x in ys);
    }
    if Subset(xs, ys) {
      FilterAll(xs, x => x in ys);
    }
  }

  lemma EmptyIff(xs: seq<string>, base: seq<string>)
    requires Subset(xs, base)
    ensures xs == [] <==> Disjoint(base, xs)
  {
    if xs != [] {
      assert xs[0] in base;
    }
  }

  /** Concatenating disjoint normal lists gives a normal list. */
  lemma NormalConcat(xs: seq<string>, ys: seq<string>)
    requires Normal(xs) && Normal(ys) && Disjoint(ys, xs)
    ensures Normal(xs + ys)
  {
    forall i, j | 0 <= i < j < |xs + ys| ensures (xs + ys)[i] != (xs + ys)[j] {
      if i < |xs| <= j {
        assert (xs + ys)[j] in ys && (xs + ys)[i] in xs;
      }
    }
  }

  // ---- Comma-separated storage of a model list ----

  /** Channel.GetModels */
  function GetModels(models: string): (r: seq<string>) {
    if models == "" then [] else Split(TrimChar(models, ','), ',')
  }

  /** The list the reconciliation code works on. */
  function Parsed(models: string): (r: seq<string>) {
    Normalize(GetModels(models))
  }

  /** What a name becomes once written to the comma-separated column: its comma pieces. */
  function Pieces(names: seq<string>): (r: seq<string>) {
    if names == [] then [] else Split(names[0], ',') + Pieces(names[1..])
  }

  /** Both texts name the same entries. */
  ghost predicate SameEntries(a: string, b: string, sep: char) {
    NonBlank(Split(a, sep)) == NonBlank(Split(b, sep))
  }

  lemma NoEntry(blank: string)
    requires blank == ""
    ensures Trim(blank) == "" && NonBlank([blank]) == []
  {
    var names := [blank];
    assert names[1..] == [];
  }

  lemma BlankFirst(names: seq<string>, blank: string)
    requires Trim(blank) == ""
    ensures NonBlank([blank] + names) == NonBlank(names)
  {
    var all := [blank] + names;
    assert all[0] == blank && all[1..] == names;
  }

  lemma SeparatorBefore(s: string, sep: char)
    ensures SameEntries([sep] + s, s, sep)
  {
    var whole := [sep] + s;
    assert whole[0] == sep && whole[1..] == s;
    NoEntry("");
    BlankFirst(Split(s, sep), "");
  }

  lemma BlankLast(names: seq<string>, blank: string)
    requires NonBlank([blank]) == []
    ensures NonBlank(names + [blank]) == NonBlank(names)
  {
    NonBlankConcat(names, [blank]);
  }

  lemma SeparatorAfter(s: string, sep: char)
    ensures SameEntries(s + [sep], s, sep)
  {
    SplitSnoc(s, sep);
    NoEntry("");
    BlankLast(Split(s, sep), "");
  }

  lemma {:induction false} TrimLeftEntries(s: string, sep: char, cut: char -> bool)
    requires forall c :: cut(c) <==> c == sep
    ensures SameEntries(TrimLeft(s, cut), s, sep)
  {
    if s != "" && cut(s[0]) {
      var rest := s[1..];
      assert s == [sep] + rest;
      assert TrimLeft(s, cut) == TrimLeft(rest, cut);
      TrimLeftEntries(rest, sep, cut);
      assert SameEntries(s, rest, sep) by { SeparatorBefore(rest, sep); }
    }
  }

  lemma {:induction false} TrimRightEntries(s: string, sep: char, cut: char -> bool)
    requires forall c :: cut(c) <==> c == sep
    ensures SameEntries(TrimRight(s, cut), s, sep)
  {
    if s != "" && cut(s[|s| - 1]) {
      var rest := s[..|s| - 1];
      assert s == rest + [sep];
      assert TrimRight(s, cut) == TrimRight(rest, cut);
      TrimRightEntries(rest, sep, cut);
      assert SameEntries(s, rest, sep) by { SeparatorAfter(rest, sep); }
    }
  }

  /** Separators around a text never matter to the entries it names. */
  lemma TrimmedEntries(s: string, sep: char)
    ensures SameEntries(TrimChar(s, sep), s, sep)
  {
    var cut := x => x == sep;
    TrimLeftEntries(s, sep, cut);
    TrimRightEntries(TrimLeft(s, cut), sep, cut);
  }

  lemma NoEntries(s: string, sep: char)
    requires s == ""
    ensures NonBlank(Split(s, sep)) == []
  {
    NoEntry(s);
  }

  /** Stray commas around the stored text never matter. */
  lemma ParsedIsSplit(s: string)
    ensures NonBlank(GetModels(s)) == NonBlank(Split(s, ','))
  {
    if s == "" {
      NoEntries(s, ',');
    } else {
      TrimmedEntries(s, ',');
    }
  }

  lemma {:induction false} SplitJoinPieces(names: seq<string>)
    ensures NonBlank(Split(Join(names, ','), ',')) == NonBlank(Pieces(names))
  {
    if names == [] {
    } else if |names| == 1 {
      assert names[1..] == [];
      assert Split(names[0], ',') + [] == Split(names[0], ',');
    } else {
      SplitConcat(names[0], ',', Join(names[1..], ','));
      NonBlankConcat(Split(names[0], ','), Split(Join(names[1..], ','), ','));
      SplitJoinPieces(names[1..]);
      NonBlankConcat(Split(names[0], ','), Pieces(names[1..]));
    }
  }

  /** Writing a list to the column and reading it back yields its comma pieces. */
  lemma ParsedJoin(names: seq<string>)
    ensures Parsed(Join(names, ',')) == Normalize(Pieces(names))
  {
    ParsedIsSplit(Join(names, ','));
    SplitJoinPieces(names);
  }

  lemma {:induction false} PiecesConcat(xs: seq<string>, ys: seq<string>)
    ensures Pieces(xs + ys) == Pieces(xs) + Pieces(ys)
  {
    if xs == [] {
      assert xs + ys == ys;
    } else {
      assert (xs + ys)[1..] == xs[1..] + ys;
      PiecesConcat(xs[1..], ys);
    }
  }

  lemma {:induction false} PiecesAreCommaFree(names: seq<string>)
    ensures CommaFree(Pieces(names))
    ensures CommaFree(names) ==> Pieces(names) == names
  {
    if names != [] {
      PiecesAreCommaFree(names[1..]);
      if CommaFree(names) {
        SplitWithout(names[0], ',');
        assert names == [names[0]] + names[1..];
      }
    }
  }

  lemma {:induction false} NonBlankCommaFree(names: seq<string>)
    requires CommaFree(names)
    ensures CommaFree(NonBlank(names))
  {
    if names != [] {
      NonBlankCommaFree(names[1..]);
      TrimChars(names[0]);
      assert CommaFree(names[1..]);
    }
  }

  lemma NormalizeCommaFree(names: seq<string>)
    requires CommaFree(names)
    ensures CommaFree(Normalize(names))
  {
    NonBlankCommaFree(names);
    NormalizeIsNormal(names);
  }

  /** A parsed model list is normal and free of commas. */
  lemma ParsedIsNormal(models: string)
    ensures Normal(Parsed(models)) && CommaFree(Parsed(models))
  {
    NormalizeIsNormal(GetModels(models));
    NormalizeCommaFree(GetModels(models));
  }
}
