/** Selecting the elements of a sequence, in order: WHERE clauses, loops that skip entries, rows of one channel. */
module Selecting {

  function Select<T>(s: seq<T>, keep: T -> bool): seq<T> {
    if s == [] then [] else (if keep(s[0]) then [s[0]] else []) + Select(s[1..], keep)
  }

  lemma {:induction false} SelectConcat<T>(a: seq<T>, b: seq<T>, keep: T -> bool)
    ensures Select(a + b, keep) == Select(a, keep) + Select(b, keep)
  {
    if a == [] {
      assert a + b == b;
    } else {
      SelectConcat(a[1..], b, keep);
      ConcatStep(a, b);
      Associative(if keep(a[0]) then [a[0]] else [], Select(a[1..], keep), Select(b, keep));
    }
  }

  lemma ConcatStep<T>(a: seq<T>, b: seq<T>)
    requires a != []
    ensures a + b != [] && (a + b)[0] == a[0] && (a + b)[1..] == a[1..] + b
  {
  }

  lemma Associative<T>(a: seq<T>, b: seq<T>, c: seq<T>)
    ensures a + (b + c) == a + b + c
  {
  }

  lemma SelectOne<T>(x: T, keep: T -> bool)
    ensures Select([x], keep) == if keep(x) then [x] else []
  {
    assert [x][1..] == [];
  }

  /** One more element at the end, as a loop reads them. */
  lemma SelectAppend<T>(s: seq<T>, x: T, keep: T -> bool)
    ensures Select(s + [x], keep) == Select(s, keep) + (if keep(x) then [x] else [])
  {
    SelectConcat(s, [x], keep);
    SelectOne(x, keep);
  }

  lemma SelectNext<T>(s: seq<T>, i: nat, keep: T -> bool)
    requires i < |s|
    ensures Select(s[..i + 1], keep) == Select(s[..i], keep) + (if keep(s[i]) then [s[i]] else [])
  {
    assert s[..i + 1] == s[..i] + [s[i]];
    SelectAppend(s[..i], s[i], keep);
  }

  lemma {:induction false} SelectElements<T>(s: seq<T>, keep: T -> bool)
    ensures forall x :: x in Select(s, keep) <==> x in s && keep(x)
  {
    if s != [] {
      SelectElements(s[1..], keep);
      assert s == [s[0]] + s[1..];
    }
  }

  /** A selection keeps everything exactly when every element passes, and then only does it keep the length. */
  lemma {:induction false} SelectKeepsAll<T>(s: seq<T>, keep: T -> bool)
    ensures |Select(s, keep)| <= |s|
    ensures Select(s, keep) == s <==> forall x :: x in s ==> keep(x)
    ensures |Select(s, keep)| == |s| <==> Select(s, keep) == s
  {
    if s != [] {
      SelectKeepsAll(s[1..], keep);
      assert s == [s[0]] + s[1..];
      assert s[0] in s;
    }
  }

  /** It drops everything exactly when none passes. */
  lemma SelectDropsAll<T>(s: seq<T>, keep: T -> bool)
    ensures Select(s, keep) == [] <==> forall x :: x in s ==> !keep(x)
  {
    SelectElements(s, keep);
    if Select(s, keep) != [] {
      assert Select(s, keep)[0] in Select(s, keep);
    }
  }

  /** Two tests that agree on the elements select the same. */
  lemma {:induction false} SelectAlike<T>(s: seq<T>, f: T -> bool, g: T -> bool)
    requires forall x :: x in s ==> f(x) == g(x)
    ensures Select(s, f) == Select(s, g)
  {
    if s != [] {
      assert s[0] in s;
      SelectAlike(s[1..], f, g);
    }
  }

  lemma {:induction false} SelectBag<T>(s: seq<T>, keep: T -> bool)
    ensures multiset(Select(s, keep)) <= multiset(s)
  {
    if s != [] {
      SelectBag(s[1..], keep);
      assert s == [s[0]] + s[1..];
    }
  }

  /** Selecting twice is selecting by both conditions. */
  lemma {:induction false} SelectTwice<T>(s: seq<T>, f: T -> bool, g: T -> bool, both: T -> bool)
    requires forall x :: x in s ==> both(x) == (f(x) && g(x))
    ensures Select(Select(s, f), g) == Select(s, both)
  {
    if s != [] {
      assert s[0] in s;
      SelectTwice(s[1..], f, g, both);
      SelectConcat(if f(s[0]) then [s[0]] else [], Select(s[1..], f), g);
      SelectOne(s[0], g);
    }
  }
}
