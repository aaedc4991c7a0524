/** sort.Slice on the values of a map: the rows arrive in any order, the sorted result does not depend on it. */
module Sorting {

  /** A strict order that decides between any two different elements of `s`. */
  ghost predicate Decides<T(!new)>(before: (T, T) -> bool, s: set<T>) {
    && (forall a :: !before(a, a))
    && (forall a, b, c :: before(a, b) && before(b, c) ==> before(a, c))
    && (forall a, b :: a in s && b in s && a != b ==> before(a, b) || before(b, a))
  }

  ghost predicate Sorted<T(!new)>(s: seq<T>, before: (T, T) -> bool) {
    forall i, j :: 0 <= i < j < |s| ==> before(s[i], s[j])
  }

  function Elements<T(==)>(s: seq<T>): set<T> {
    set x | x in s
  }

  method InsertSorted<T(==, !new)>(s: seq<T>, x: T, before: (T, T) -> bool) returns (r: seq<T>)
    requires Sorted(s, before) && x !in s && Decides(before, Elements(s) + {x})
    ensures Sorted(r, before) && Elements(r) == Elements(s) + {x}
    ensures exists i :: 0 <= i <= |s| && r == s[..i] + [x] + s[i..]
  {
    var i := 0;
    while i < |s| && before(s[i], x)
      invariant 0 <= i <= |s|
      invariant forall j :: 0 <= j < i ==> before(s[j], x)
    {
      i := i + 1;
    }
    assert i < |s| ==> s[i] in Elements(s);
    assert s == s[..i] + s[i..];
    InsertBetween(s[..i], x, s[i..], before);
    r := s[..i] + [x] + s[i..];
  }

  lemma InsertBetween<T(!new)>(a: seq<T>, x: T, b: seq<T>, before: (T, T) -> bool)
    requires Sorted(a + b, before) && Decides(before, {})
    requires (forall y :: y in a ==> before(y, x)) && (b != [] ==> before(x, b[0]))
    ensures Sorted(a + [x] + b, before) && Elements(a + [x] + b) == Elements(a + b) + {x}
  {
    var r := a + [x] + b;
    forall i, j | 0 <= i < j < |r| ensures before(r[i], r[j]) {
      var p, q := if i < |a| then i else i - 1, if j < |a| then j else j - 1;
      if i != |a| && j != |a| {
        assert (a + b)[p] == r[i] && (a + b)[q] == r[j];
      } else if i == |a| {
        assert (a + b)[|a|] == b[0] && (a + b)[q] == r[j];
      }
    }
  }

  /** Sorts the elements of a set, taken in any order. */
  method SortSet<T(==, !new)>(s: set<T>, before: (T, T) -> bool) returns (r: seq<T>)
    requires Decides(before, s)
    ensures Sorted(r, before) && Elements(r) == s
  {
    r := [];
    var todo := s;
    while todo != {}
      invariant todo <= s && Elements(r) == s - todo && Sorted(r, before)
      decreases todo
    {
      var x :| x in todo;
      assert x !in Elements(r);
      r := InsertSorted(r, x, before);
      todo := todo - {x};
    }
  }

  lemma FirstIsLeast<T(!new)>(s: seq<T>, before: (T, T) -> bool, x: T)
    requires Sorted(s, before) && x in s
    ensures x == s[0] || before(s[0], x)
    ensures Decides(before, {}) ==> (x in s[1..] <==> x != s[0])
  {
    var i :| 0 <= i < |s| && s[i] == x;
    if i > 0 {
      assert s[1..][i - 1] == x;
    }
  }

  lemma NoElements<T(!new)>(s: seq<T>)
    ensures Elements(s) == {} <==> s == []
  {
    if s != [] {
      assert s[0] in Elements(s);
    }
  }

  /** There is only one sorted arrangement, whatever algorithm or iteration order produced it. */
  lemma {:induction false} SortedIsUnique<T(!new)>(a: seq<T>, b: seq<T>, before: (T, T) -> bool)
    requires Sorted(a, before) && Sorted(b, before)
    requires Elements(a) == Elements(b)
    requires Decides(before, {})
    ensures a == b
  {
    assert forall x :: x in a <==> x in Elements(a);
    assert forall x :: x in b <==> x in Elements(b);
    NoElements(a);
    NoElements(b);
    if a != [] {
      assert a[0] in a;
      assert b[0] in b;
      FirstIsLeast(a, before, b[0]);
      FirstIsLeast(b, before, a[0]);
      assert a[0] == b[0];
      forall x ensures x in a[1..] <==> x in b[1..] {
        if x in a {
          FirstIsLeast(a, before, x);
          FirstIsLeast(b, before, x);
        }
      }
      SortedIsUnique(a[1..], b[1..], before);
      assert a == [a[0]] + a[1..] && b == [b[0]] + b[1..];
    }
  }
}
