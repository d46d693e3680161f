// Shared datatypes and the ascending enumeration of a finite set of integers.

module Util {

  datatype Option<+T> = None | Some(value: T)

  datatype Result<+T, +E> = Ok(value: T) | Err(error: E)

  ghost predicate Ascending(s: seq<int>) {
    forall i, j :: 0 <= i < j < |s| ==> s[i] < s[j]
  }

  ghost predicate NoDuplicates<T>(s: seq<T>) {
    forall i, j :: 0 <= i < j < |s| ==> s[i] != s[j]
  }

  lemma AppendDistinct<T>(a: seq<T>, b: seq<T>)
    requires NoDuplicates(a) && NoDuplicates(b) && forall x :: x in a ==> x !in b
    ensures NoDuplicates(a + b)
  {
    forall i, j | 0 <= i < j < |a + b|
      ensures (a + b)[i] != (a + b)[j]
    {
      if i < |a| <= j {
        assert a[i] in a && b[j - |a|] in b;
      }
    }
  }

  lemma HasMember(s: set<int>)
    ensures s == {} || exists x :: x in s
  {
    if forall x :: x !in s {
      assert s == {};
    }
  }

  lemma HasElement(s: seq<int>)
    ensures s != [] ==> s[0] in s
  {
  }

  /** The least element, found by dropping any other one. */
  ghost function Least(s: set<int>): (m: int)
    requires s != {}
    ensures m in s && forall x :: x in s ==> m <= x
  {
    HasMember(s);
    var x :| x in s;
    if s == {x} then
      x
    else
      assert forall y :: y in s ==> y == x || y in s - {x};
      var m := Least(s - {x});
      if x < m then x else m
  }

  /** `sorted(s)` for a set or for the keys of a dictionary. */
  ghost function Sorted(s: set<int>): (r: seq<int>)
    ensures forall x :: x in r <==> x in s
    ensures |r| == |s|
  {
    if s == {} then [] else [Least(s)] + Sorted(s - {Least(s)})
  }

  lemma {:induction false} SortedAscends(s: set<int>)
    ensures Ascending(Sorted(s))
  {
    if s != {} {
      var rest := Sorted(s - {Least(s)});
      SortedAscends(s - {Least(s)});
      forall j | 0 <= j < |rest|
        ensures Least(s) < rest[j]
      {
        assert rest[j] in rest;
      }
    }
  }

  /** An ascending enumeration is determined by its elements. */
  lemma {:induction false} AscendingUnique(a: seq<int>, b: seq<int>)
    requires Ascending(a) && Ascending(b)
    requires forall x :: x in a <==> x in b
    ensures a == b
  {
    if a == [] {
      HasElement(b);
    } else {
      assert a[0] in a;
      assert b[0] in b;
      assert a[0] == b[0];
      forall x
        ensures x in a[1..] <==> x in b[1..]
      {
        assert x in a[1..] <==> x in a && x != a[0] by { TailMembers(a, x); }
        assert x in b[1..] <==> x in b && x != b[0] by { TailMembers(b, x); }
      }
      AscendingUnique(a[1..], b[1..]);
    }
  }

  lemma TailMembers(a: seq<int>, x: int)
    requires Ascending(a) && a != []
    ensures x in a[1..] <==> x in a && x != a[0]
  {
    if x in a && x != a[0] {
      var i :| 0 <= i < |a| && a[i] == x;
      assert a[1..][i - 1] == x;
    }
  }

  /** `min(s)`. */
  method FindLeast(s: set<int>) returns (m: int)
    requires s != {}
    ensures m == Least(s)
  {
    HasMember(s);
    m :| m in s;
    var rest := s - {m};
    while rest != {}
      invariant m in s && rest <= s
      invariant forall x :: x in s && x !in rest ==> m <= x
      decreases rest
    {
      HasMember(rest);
      var x :| x in rest;
      if x < m {
        m := x;
      }
      rest := rest - {x};
    }
  }

  lemma SortedStep(s: set<int>)
    requires s != {}
    ensures Sorted(s) == [Least(s)] + Sorted(s - {Least(s)})
  {
  }

  lemma Shift(r: seq<int>, m: int, tail: seq<int>)
    ensures r + ([m] + tail) == (r + [m]) + tail
  {
  }

  /** `sorted(s)`. */
  method SortSet(s: set<int>) returns (r: seq<int>)
    ensures r == Sorted(s)
  {
    hide Sorted, Least;
    r := [];
    var rest := s;
    while rest != {}
      invariant r + Sorted(rest) == Sorted(s)
      decreases rest
    {
      var m := FindLeast(rest);
      SortedStep(rest);
      Shift(r, m, Sorted(rest - {m}));
      r := r + [m];
      rest := rest - {m};
    }
  }
}
