/** The string operations of the Go standard library that the modelled code relies on. */
module Text {

  /** White space as Go's unicode.IsSpace classifies it. */
  predicate IsSpace(c: char) {
    || '\t' <= c <= '\r'
    || c == ' ' || c == '\U{0085}' || c == '\U{00A0}' || c == '\U{1680}'
    || '\U{2000}' <= c <= '\U{200A}'
    || c == '\U{2028}' || c == '\U{2029}' || c == '\U{202F}' || c == '\U{205F}' || c == '\U{3000}'
  }

  function TrimLeft(s: string, cut: char -> bool): (r: string)
    ensures |r| <= |s|
    ensures r != "" ==> !cut(r[0])
  {
    if s != "" && cut(s[0]) then TrimLeft(s[1..], cut) else s
  }

  function TrimRight(s: string, cut: char -> bool): (r: string)
    ensures |r| <= |s|
    ensures r != "" ==> r[0] == s[0] && !cut(r[|r| - 1])
    ensures s != "" && !cut(s[0]) ==> r != ""
  {
    if s != "" && cut(s[|s| - 1]) then TrimRight(s[..|s| - 1], cut) else s
  }

  /** strings.TrimSpace */
  function Trim(s: string): (r: string)
    ensures |r| <= |s|
    ensures r != "" ==> !IsSpace(r[0]) && !IsSpace(r[|r| - 1])
    ensures s != "" && !IsSpace(s[0]) && !IsSpace(s[|s| - 1]) ==> r == s
  {
    TrimRight(TrimLeft(s, IsSpace), IsSpace)
  }

  lemma TrimIdempotent(s: string)
    ensures Trim(Trim(s)) == Trim(s)
  {
    assert Trim("") == "";
  }

  lemma {:induction false} TrimLeftChars(s: string, cut: char -> bool)
    ensures forall c <- TrimLeft(s, cut) :: c in s
  {
    if s != "" && cut(s[0]) {
      TrimLeftChars(s[1..], cut);
    }
  }

  lemma {:induction false} TrimRightChars(s: string, cut: char -> bool)
    ensures forall c <- TrimRight(s, cut) :: c in s
  {
    if s != "" && cut(s[|s| - 1]) {
      TrimRightChars(s[..|s| - 1], cut);
    }
  }

  lemma TrimChars(s: string)
    ensures forall c <- Trim(s) :: c in s
  {
    TrimLeftChars(s, IsSpace);
    TrimRightChars(TrimLeft(s, IsSpace), IsSpace);
  }

  /** strings.Trim with a one-character cut set. */
  function TrimChar(s: string, c: char): (r: string)
    ensures r != "" ==> r[0] != c && r[|r| - 1] != c
    ensures s != "" && s[0] != c && s[|s| - 1] != c ==> r == s
  {
    var cut := x => x == c;
    TrimRight(TrimLeft(s, cut), cut)
  }

  // ---- What trimming leaves ----

  /** White space is exactly these characters of Unicode. */
  lemma SpaceIff(c: char)
    ensures IsSpace(c) <==>
            c as int in [0x9, 0xA, 0xB, 0xC, 0xD, 0x20, 0x85, 0xA0, 0x1680, 0x2000, 0x2001, 0x2002, 0x2003, 0x2004, 0x2005, 0x2006,
                         0x2007, 0x2008, 0x2009, 0x200A, 0x2028, 0x2029, 0x202F, 0x205F, 0x3000]
  {
  }

  ghost predicate CutFrom(s: string, i: int, j: int, cut: char -> bool) {
    forall k :: i <= k < j && 0 <= k < |s| ==> cut(s[k])
  }

  lemma {:induction false} TrimLeftIs(s: string, cut: char -> bool) returns (i: nat)
    ensures i <= |s| && TrimLeft(s, cut) == s[i..] && CutFrom(s, 0, i, cut)
  {
    if s != "" && cut(s[0]) {
      var rest := s[1..];
      var k := TrimLeftIs(rest, cut);
      i := k + 1;
      assert rest[k..] == s[i..];
      assert forall m :: 1 <= m < i ==> s[m] == rest[m - 1];
    } else {
      i := 0;
    }
  }

  lemma {:induction false} TrimRightIs(s: string, cut: char -> bool) returns (j: nat)
    ensures j <= |s| && TrimRight(s, cut) == s[..j] && CutFrom(s, j, |s|, cut)
  {
    if s != "" && cut(s[|s| - 1]) {
      var rest := s[..|s| - 1];
      j := TrimRightIs(rest, cut);
      assert rest[..j] == s[..j];
      assert forall m :: 0 <= m < |rest| ==> s[m] == rest[m];
    } else {
      j := |s|;
    }
  }

  lemma TrimBoth(s: string, cut: char -> bool) returns (i: nat, j: nat)
    ensures i <= j <= |s| && TrimRight(TrimLeft(s, cut), cut) == s[i..j] && CutFrom(s, 0, i, cut) && CutFrom(s, j, |s|, cut)
  {
    i := TrimLeftIs(s, cut);
    var left := s[i..];
    var n := TrimRightIs(left, cut);
    j := i + n;
    assert left[..n] == s[i..j];
    assert forall m :: 0 <= m < |left| ==> left[m] == s[i + m];
    forall k | j <= k < |s| ensures cut(s[k]) {
      assert left[k - i] == s[k];
    }
  }

  /** Trimming cuts white space off both ends, and nothing else. */
  lemma TrimIs(s: string) returns (i: nat, j: nat)
    ensures i <= j <= |s| && Trim(s) == s[i..j] && CutFrom(s, 0, i, IsSpace) && CutFrom(s, j, |s|, IsSpace)
    ensures i < j ==> !IsSpace(s[i]) && !IsSpace(s[j - 1])
  {
    i, j := TrimBoth(s, IsSpace);
  }

  /** strings.Split on a one-character separator. */
  function Split(s: string, sep: char): (r: seq<string>)
    ensures r != []
    ensures forall part <- r :: sep !in part
  {
    if s == "" then [""]
    else if s[0] == sep then [""] + Split(s[1..], sep)
    else Extended(s[0], Split(s[1..], sep))
  }

  /** Puts one more character in front of the first part. */
  function Extended(c: char, parts: seq<string>): (r: seq<string>)
    requires parts != []
    ensures |r| == |parts| && r[0] == [c] + parts[0] && r[1..] == parts[1..]
  {
    [[c] + parts[0]] + parts[1..]
  }

  /** strings.Join with a one-character separator. */
  function Join(parts: seq<string>, sep: char): (r: string) {
    if parts == [] then ""
    else if |parts| == 1 then parts[0]
    else parts[0] + [sep] + Join(parts[1..], sep)
  }

  lemma {:induction false} SplitWithout(s: string, sep: char)
    requires sep !in s
    ensures Split(s, sep) == [s]
  {
    if s != "" {
      assert s == [s[0]] + s[1..];
      SplitWithout(s[1..], sep);
    }
  }

  lemma {:induction false} SplitConcat(a: string, sep: char, b: string)
    ensures Split(a + [sep] + b, sep) == Split(a, sep) + Split(b, sep)
  {
    var whole := a + [sep] + b;
    if a == "" {
      assert whole[1..] == b;
    } else {
      assert whole[1..] == a[1..] + [sep] + b;
      SplitConcat(a[1..], sep, b);
      if a[0] != sep {
        ExtendedConcat(a[0], Split(a[1..], sep), Split(b, sep));
      } else {
        assert whole[0] == sep;
      }
    }
  }

  /** A separator at the end starts one more part, an empty one. */
  lemma {:induction false} SplitSnoc(s: string, sep: char)
    ensures Split(s + [sep], sep) == Split(s, sep) + [""]
  {
    if s == "" {
      assert (s + [sep])[1..] == "";
    } else {
      assert (s + [sep])[1..] == s[1..] + [sep];
      SplitSnoc(s[1..], sep);
      if s[0] != sep {
        ExtendedConcat(s[0], Split(s[1..], sep), [""]);
      }
    }
  }

  lemma ExtendedConcat(c: char, xs: seq<string>, ys: seq<string>)
    requires xs != []
    ensures Extended(c, xs + ys) == Extended(c, xs) + ys
  {
    assert (xs + ys)[1..] == xs[1..] + ys;
  }

  /** Splitting a joined list undoes the join when no part holds the separator. */
  lemma {:induction false} SplitJoin(parts: seq<string>, sep: char)
    requires parts != []
    requires forall part <- parts :: sep !in part
    ensures Split(Join(parts, sep), sep) == parts
  {
    if |parts| == 1 {
      SplitWithout(parts[0], sep);
    } else {
      var first, rest := parts[0], parts[1..];
      var text := Join(rest, sep);
      SplitConcat(first, sep, text);
      SplitWithout(first, sep);
      SplitJoin(rest, sep);
      assert Split(first + [sep] + text, sep) == [first] + rest == parts;
    }
  }

  lemma {:induction false} JoinSplit(s: string, sep: char)
    ensures Join(Split(s, sep), sep) == s
  {
    if s != "" {
      JoinSplit(s[1..], sep);
      var rest := Split(s[1..], sep);
      assert s == [s[0]] + s[1..];
      if s[0] == sep {
        assert ([""] + rest)[1..] == rest;
      }
    }
  }

  /** The ends of a joined list are the ends of its first and last parts. */
  lemma {:induction false} JoinEnds(parts: seq<string>, sep: char)
    requires parts != [] && parts[0] != "" && parts[|parts| - 1] != ""
    ensures var s := Join(parts, sep);
            s != "" && s[0] == parts[0][0] &&
            s[|s| - 1] == parts[|parts| - 1][|parts[|parts| - 1]| - 1]
  {
    if |parts| > 1 {
      JoinTail(parts, sep);
    }
  }

  lemma {:induction false} JoinTail(parts: seq<string>, sep: char)
    requires parts != [] && parts[|parts| - 1] != ""
    ensures var s := Join(parts, sep);
            s != "" && s[|s| - 1] == parts[|parts| - 1][|parts[|parts| - 1]| - 1]
  {
    if |parts| > 1 {
      JoinTail(parts[1..], sep);
    }
  }

  lemma {:induction false} JoinConcat(xs: seq<string>, ys: seq<string>, sep: char)
    requires xs != [] && ys != []
    ensures Join(xs + ys, sep) == Join(xs, sep) + [sep] + Join(ys, sep)
  {
    var all := xs + ys;
    if |xs| == 1 {
      assert all[1..] == ys;
    } else {
      assert all[1..] == xs[1..] + ys;
      JoinConcat(xs[1..], ys, sep);
    }
  }

  lemma {:induction false} TrimLeftConcat(a: string, b: string, cut: char -> bool)
    requires TrimLeft(a, cut) != ""
    ensures TrimLeft(a + b, cut) == TrimLeft(a, cut) + b
  {
    var whole := a + b;
    assert a != "" && whole[0] == a[0];
    if cut(a[0]) {
      assert whole[1..] == a[1..] + b;
      TrimLeftConcat(a[1..], b, cut);
    } else {
      assert TrimLeft(a, cut) == a && TrimLeft(whole, cut) == whole;
    }
  }

  lemma {:induction false} TrimLeftPast(a: string, b: string, cut: char -> bool)
    requires TrimLeft(a, cut) == ""
    ensures TrimLeft(a + b, cut) == TrimLeft(b, cut)
  {
    var whole := a + b;
    if a == "" {
      assert whole == b;
    } else {
      var rest := a[1..];
      assert cut(a[0]) && TrimLeft(rest, cut) == "";
      assert whole[0] == a[0] && whole[1..] == rest + b;
      TrimLeftPast(rest, b, cut);
      assert TrimLeft(whole, cut) == TrimLeft(whole[1..], cut);
    }
  }

  lemma TrimHead(s: string)
    requires TrimLeft(s, IsSpace) != ""
    ensures Trim(s) != "" && Trim(s)[0] == TrimLeft(s, IsSpace)[0]
  {
  }

  /** The first character that is not space. */
  ghost predicate SameHead(a: string, b: string) {
    Trim(a) != "" && Trim(b) != "" && Trim(a)[0] == Trim(b)[0]
  }

  lemma TrimLeftOfTrim(s: string)
    requires Trim(s) != ""
    ensures TrimLeft(s, IsSpace) != "" && Trim(s)[0] == TrimLeft(s, IsSpace)[0]
  {
    assert TrimRight("", IsSpace) == "";
    TrimHead(s);
  }

  /** What follows a text that is not blank does not change where it starts. */
  lemma HeadKept(a: string, rest: string)
    requires Trim(a) != ""
    ensures SameHead(a, a + rest)
  {
    TrimLeftOfTrim(a);
    TrimLeftConcat(a, rest, IsSpace);
    TrimHead(a + rest);
  }

  /** The texts start alike after what is trimmed on the left. */
  ghost predicate SameStart(a: string, b: string, space: char -> bool) {
    TrimLeft(a, space) != "" && TrimLeft(b, space) != "" && TrimLeft(a, space)[0] == TrimLeft(b, space)[0]
  }

  lemma {:induction false} TrimLeftHead(s: string, cut: char -> bool, space: char -> bool)
    requires forall c :: cut(c) ==> space(c)
    ensures TrimLeft(TrimLeft(s, cut), space) == TrimLeft(s, space)
  {
    if s != "" && cut(s[0]) {
      TrimLeftHead(s[1..], cut, space);
      assert TrimLeft(s, space) == TrimLeft(s[1..], space);
    }
  }

  lemma SpaceLast(front: string, c: char, space: char -> bool)
    requires space(c) && TrimLeft(front + [c], space) != ""
    ensures SameStart(front, front + [c], space)
  {
    var last := [c];
    assert last[0] == c && last[1..] == "";
    assert TrimLeft(last, space) == "";
    if TrimLeft(front, space) == "" {
      TrimLeftPast(front, last, space);
    } else {
      TrimLeftConcat(front, last, space);
    }
  }

  lemma {:induction false} TrimRightHead(s: string, cut: char -> bool, space: char -> bool)
    requires (forall c :: cut(c) ==> space(c)) && TrimLeft(s, space) != ""
    ensures SameStart(s, TrimRight(s, cut), space)
  {
    if s != "" && cut(s[|s| - 1]) {
      var front, last := s[..|s| - 1], s[|s| - 1];
      assert s == front + [last];
      SpaceLast(front, last, space);
      TrimRightHead(front, cut, space);
      assert TrimRight(s, cut) == TrimRight(front, cut);
    }
  }

  /** Nor do separators around it that are space. */
  lemma TrimmedHead(s: string, c: char)
    requires IsSpace(c) && Trim(s) != ""
    ensures SameHead(s, TrimChar(s, c))
  {
    var cut := x => x == c;
    TrimLeftOfTrim(s);
    TrimLeftHead(s, cut, IsSpace);
    TrimRightHead(TrimLeft(s, cut), cut, IsSpace);
    TrimHead(TrimChar(s, c));
  }

  lemma TrimCharAfter(s: string, c: char)
    requires s != "" && s[0] != c && s[|s| - 1] != c
    ensures TrimChar(s + [c], c) == s
  {
    var cut, all := (x: char) => x == c, s + [c];
    assert TrimLeft(all, cut) == all;
    assert all[|all| - 1] == c && all[..|all| - 1] == s;
    assert TrimRight(s, cut) == s;
  }

  lemma TrimBlankIff(s: string)
    ensures Trim(s) == "" <==> TrimLeft(s, IsSpace) == ""
  {
    assert TrimRight("", IsSpace) == "";
    if TrimLeft(s, IsSpace) != "" {
      TrimHead(s);
    }
  }

  lemma TrimLeftLine(line: string, sep: char, rest: string, cut: char -> bool)
    requires TrimLeft(line, cut) == "" && cut(sep)
    ensures TrimLeft(line + [sep] + rest, cut) == TrimLeft(rest, cut)
  {
    var tail := [sep] + rest;
    assert line + [sep] + rest == line + tail;
    TrimLeftPast(line, tail, cut);
    assert tail[0] == sep && tail[1..] == rest;
  }
}
