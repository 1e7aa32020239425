/** Sequence vocabulary shared by the models: filters and first-occurrence lists. */
module Lists {

  datatype Option<+T> = None | Some(value: T)

  ghost predicate Distinct<T>(xs: seq<T>) {
    forall i, j :: 0 <= i < j < |xs| ==> xs[i] != xs[j]
  }

  function Filter<T>(xs: seq<T>, p: T -> bool): (r: seq<T>) {
    if xs == [] then []
    else if p(xs[0]) then [xs[0]] + Filter(xs[1..], p)
    else Filter(xs[1..], p)
  }

  lemma {:induction false} FilterMembers<T>(xs: seq<T>, p: T -> bool)
    ensures |Filter(xs, p)| <= |xs|
    ensures forall x <- Filter(xs, p) :: x in xs && p(x)
    ensures forall x <- xs :: p(x) ==> x in Filter(xs, p)
  {
    if xs != [] {
      FilterMembers(xs[1..], p);
      assert xs == [xs[0]] + xs[1..];
    }
  }

  lemma {:induction false} FilterConcat<T>(xs: seq<T>, ys: seq<T>, p: T -> bool)
    ensures Filter(xs + ys, p) == Filter(xs, p) + Filter(ys, p)
  {
    if xs == [] {
      assert xs + ys == ys;
    } else {
      assert (xs + ys)[1..] == xs[1..] + ys;
      FilterConcat(xs[1..], ys, p);
    }
  }

  /** Two filters that agree on the elements present give the same list. */
  lemma {:induction false} FilterCongruent<T>(xs: seq<T>, p: T -> bool, q: T -> bool)
    requires forall x <- xs :: p(x) == q(x)
    ensures Filter(xs, p) == Filter(xs, q)
  {
    if xs != [] {
      FilterCongruent(xs[1..], p, q);
    }
  }

  lemma {:induction false} FilterAll<T>(xs: seq<T>, p: T -> bool)
    requires forall x <- xs :: p(x)
    ensures Filter(xs, p) == xs
  {
    if xs != [] {
      FilterAll(xs[1..], p);
      assert xs == [xs[0]] + xs[1..];
    }
  }

  lemma {:induction false} FilterNone<T>(xs: seq<T>, p: T -> bool)
    requires forall x <- xs :: !p(x)
    ensures Filter(xs, p) == []
  {
    if xs != [] {
      FilterNone(xs[1..], p);
    }
  }

  /** Filtering twice is filtering once by the conjunction. */
  lemma {:induction false} FilterTwice<T>(xs: seq<T>, p: T -> bool, q: T -> bool, both: T -> bool)
    requires forall x <- xs :: both(x) == (p(x) && q(x))
    ensures Filter(Filter(xs, p), q) == Filter(xs, both)
  {
    if xs != [] {
      FilterTwice(xs[1..], p, q, both);
      if p(xs[0]) {
        assert ([xs[0]] + Filter(xs[1..], p))[1..] == Filter(xs[1..], p);
      }
    }
  }

  lemma {:induction false} FilterDistinct<T>(xs: seq<T>, p: T -> bool)
    requires Distinct(xs)
    ensures Distinct(Filter(xs, p))
  {
    if xs != [] {
      FilterDistinct(xs[1..], p);
      FilterMembers(xs[1..], p);
      assert xs[0] !in xs[1..];
    }
  }

  /** First occurrences, in order. */
  function Uniq<T(==)>(xs: seq<T>): (r: seq<T>) {
    if xs == [] then []
    else
      var front := Uniq(xs[..|xs| - 1]);
      if xs[|xs| - 1] in front then front else front + [xs[|xs| - 1]]
  }

  lemma {:induction false} UniqMembers<T>(xs: seq<T>)
    ensures Distinct(Uniq(xs))
    ensures forall x :: x in Uniq(xs) <==> x in xs
  {
    if xs != [] {
      UniqMembers(xs[..|xs| - 1]);
      assert xs == xs[..|xs| - 1] + [xs[|xs| - 1]];
    }
  }

  lemma {:induction false} UniqOfDistinct<T>(xs: seq<T>)
    requires Distinct(xs)
    ensures Uniq(xs) == xs
  {
    if xs != [] {
      var front := xs[..|xs| - 1];
      UniqOfDistinct(front);
      assert xs[|xs| - 1] !in front;
      assert xs == front + [xs[|xs| - 1]];
    }
  }

  /** The elements of xs outside ys, in the order of xs. */
  function Without<T(==)>(xs: seq<T>, ys: seq<T>): (r: seq<T>) {
    Filter(xs, x => x !in ys)
  }

  /** The elements of xs inside ys, in the order of xs. */
  function Within<T(==)>(xs: seq<T>, ys: seq<T>): (r: seq<T>) {
    Filter(xs, x => x in ys)
  }

  lemma {:induction false} UniqConcat<T>(xs: seq<T>, ys: seq<T>)
    ensures Uniq(xs + ys) == Uniq(xs) + Without(Uniq(ys), xs)
  {
    if ys == [] {
      assert xs + ys == xs;
    } else {
      var front, last := ys[..|ys| - 1], ys[|ys| - 1];
      assert (xs + ys)[..|xs + ys| - 1] == xs + front;
      UniqConcat(xs, front);
      UniqMembers(xs);
      UniqMembers(front);
      FilterMembers(Uniq(front), x => x !in xs);
      FilterConcat(Uniq(front), [last], x => x !in xs);
      assert Uniq(ys) == if last in front then Uniq(front) else Uniq(front) + [last];
      assert Without([last], xs) == if last in xs then [] else [last];
    }
  }
}
