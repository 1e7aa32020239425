/** A finite set of integers listed in ascending order, as an ORDER BY or a sort produces it. */
module SortedSets {

  ghost predicate Increasing(xs: seq<int>) {
    forall i, j :: 0 <= i < j < |xs| ==> xs[i] < xs[j]
  }

  ghost predicate IsMinimum(m: int, s: set<int>) {
    m in s && forall x <- s :: m <= x
  }

  lemma SomeElement<T>(s: set<T>) returns (x: T)
    requires s != {}
    ensures x in s
  {
    x :| x in s;
  }

  lemma {:induction false} MinimumExists(s: set<int>) returns (m: int)
    requires s != {}
    ensures IsMinimum(m, s)
  {
    m := SomeElement(s);
    var rest := s - {m};
    assert forall x <- s :: x in rest || x == m;
    if rest != {} {
      var n := MinimumExists(rest);
      if n < m {
        m := n;
      }
    }
  }

  function Minimum(s: set<int>): (m: int)
    requires s != {}
    ensures IsMinimum(m, s)
  {
    assert exists m :: m in s && forall x <- s :: m <= x by {
      var m := MinimumExists(s);
    }
    var m :| m in s && forall x <- s :: m <= x;
    m
  }

  function Ascending(s: set<int>): (r: seq<int>) {
    if s == {} then [] else [Minimum(s)] + Ascending(s - {Minimum(s)})
  }

  lemma {:induction false} AscendingLists(s: set<int>)
    ensures |Ascending(s)| == |s|
    ensures forall x :: x in Ascending(s) <==> x in s
    ensures Increasing(Ascending(s))
  {
    if s != {} {
      var m := Minimum(s);
      var rest := s - {m};
      AscendingLists(rest);
      Prepended(m, Ascending(rest), rest, s);
    }
  }

  lemma Prepended(m: int, xs: seq<int>, rest: set<int>, s: set<int>)
    requires IsMinimum(m, s) && rest == s - {m}
    requires Increasing(xs) && forall x :: x in xs <==> x in rest
    ensures Increasing([m] + xs) && forall x :: x in [m] + xs <==> x in s
  {
    forall i, j | 0 <= i < j < |[m] + xs| ensures ([m] + xs)[i] < ([m] + xs)[j] {
      if i == 0 {
        var x := xs[j - 1];
        assert x in xs;
        assert x in rest;
      }
    }
  }

  /** Two increasing lists of the same elements are the same list. */
  lemma {:induction false} IncreasingUnique(xs: seq<int>, ys: seq<int>)
    requires Increasing(xs) && Increasing(ys)
    requires forall x :: x in xs <==> x in ys
    ensures xs == ys
  {
    if xs != [] {
      var x := xs[0];
      assert x in xs;
      assert x in ys;
    }
    if ys != [] {
      var y := ys[0];
      assert y in ys;
      assert y in xs;
      assert xs[0] == y;
      TailMembers(xs);
      TailMembers(ys);
      IncreasingUnique(xs[1..], ys[1..]);
      assert xs == [xs[0]] + xs[1..] && ys == [ys[0]] + ys[1..];
    }
  }

  lemma TailMembers(xs: seq<int>)
    requires Increasing(xs) && xs != []
    ensures forall x :: x in xs[1..] <==> x in xs && x != xs[0]
  {
    assert xs == [xs[0]] + xs[1..];
    assert xs[0] !in xs[1..];
  }

  function Above(s: set<int>, bound: int): (r: set<int>) {
    set x | x in s && x > bound
  }

  lemma TailAbove(xs: seq<int>, n: nat)
    requires Increasing(xs) && 0 < n <= |xs|
    ensures forall x :: x in xs[n..] <==> x in xs && x > xs[n - 1]
  {
    forall x | x in xs && x > xs[n - 1] ensures x in xs[n..] {
      var i :| 0 <= i < |xs| && xs[i] == x;
      assert i >= n;
      assert xs[n..][i - n] == x;
    }
  }

  /** The elements above the n-th smallest are exactly the tail of the listing. */
  lemma AscendingTail(s: set<int>, n: nat)
    requires 0 < n <= |Ascending(s)|
    ensures Ascending(Above(s, Ascending(s)[n - 1])) == Ascending(s)[n..]
  {
    var xs := Ascending(s);
    var above := Above(s, xs[n - 1]);
    AscendingLists(s);
    AscendingLists(above);
    TailAbove(xs, n);
    IncreasingUnique(xs[n..], Ascending(above));
  }
}
