/** Optional values, for Python's `None`. */
module Wrappers {
  datatype Option<+T> = None | Some(value: T)
}

/** The list operations the server performs on its player lists: Python's
    `filter`, the "delete the first match and break" loop, and the
    distinctness and ordering facts the tables rely on. */
module Sequences {

  ghost predicate Distinct<T>(s: seq<T>) {
    forall i, j :: 0 <= i < j < |s| ==> s[i] != s[j]
  }

  ghost predicate Increasing(s: seq<int>) {
    forall i, j :: 0 <= i < j < |s| ==> s[i] < s[j]
  }

  /** `list(filter(lambda y: y != x, s))`: every element other than `x`, in order. */
  function Without<T(==)>(s: seq<T>, x: T): (r: seq<T>)
    ensures |r| <= |s|
  {
    if s == [] then []
    else (if s[0] == x then [] else [s[0]]) + Without(s[1..], x)
  }

  lemma {:induction false} WithoutMembers<T>(s: seq<T>, x: T)
    ensures forall y :: y in Without(s, x) <==> y in s && y != x
  {
    if s != [] {
      WithoutMembers(s[1..], x);
      assert s == [s[0]] + s[1..];
    }
  }

  /** Filtering keeps the relative order: it distributes over concatenation. */
  lemma {:induction false} WithoutConcat<T>(a: seq<T>, b: seq<T>, x: T)
    ensures Without(a + b, x) == Without(a, x) + Without(b, x)
  {
    if a == [] {
      assert a + b == b;
    } else {
      assert (a + b)[1..] == a[1..] + b;
      WithoutConcat(a[1..], b, x);
    }
  }

  /** Every occurrence of `x` goes and every other element keeps its multiplicity. */
  lemma {:induction false} WithoutMultiset<T>(s: seq<T>, x: T)
    ensures multiset(Without(s, x)) == multiset(s)[x := 0]
  {
    if s != [] {
      WithoutMultiset(s[1..], x);
      assert s == [s[0]] + s[1..];
    }
  }

  /** The head of the filtered list is the first element of `s` other than `x`. */
  lemma {:induction false} WithoutHead<T>(s: seq<T>, x: T)
    requires |Without(s, x)| > 0
    ensures exists k :: 0 <= k < |s| && s[k] != x && Without(s, x)[0] == s[k] && forall j :: 0 <= j < k ==> s[j] == x
  {
    if s[0] != x {
      assert Without(s, x)[0] == s[0];
    } else {
      assert Without(s, x) == Without(s[1..], x);
      WithoutHead(s[1..], x);
      var k :| 0 <= k < |s[1..]| && s[1..][k] != x && Without(s[1..], x)[0] == s[1..][k] && forall j :: 0 <= j < k ==> s[1..][j] == x;
      assert s[k + 1] == s[1..][k];
      forall j | 0 <= j < k + 1 ensures s[j] == x {
        if j > 0 { assert s[j] == s[1..][j - 1]; }
      }
    }
  }

  lemma {:induction false} WithoutAbsent<T>(s: seq<T>, x: T)
    requires x !in s
    ensures Without(s, x) == s
  {
    if s != [] {
      assert s == [s[0]] + s[1..];
      WithoutAbsent(s[1..], x);
    }
  }

  lemma {:induction false} WithoutDistinct<T>(s: seq<T>, x: T)
    requires Distinct(s)
    ensures Distinct(Without(s, x))
  {
    if s != [] {
      WithoutDistinct(s[1..], x);
      WithoutMembers(s[1..], x);
      assert s[0] !in s[1..];
    }
  }

  lemma {:induction false} WithoutIncreasing(s: seq<int>, x: int)
    requires Increasing(s)
    ensures Increasing(Without(s, x))
  {
    if s != [] {
      WithoutIncreasing(s[1..], x);
      WithoutMembers(s[1..], x);
      var t := Without(s[1..], x);
      forall y | y in t ensures s[0] < y {
        var k :| 1 <= k < |s| && s[k] == y;
      }
      var r := (if s[0] == x then [] else [s[0]]) + t;
      forall i, j | 0 <= i < j < |r| ensures r[i] < r[j] {
        if s[0] != x && i == 0 {
          assert r[j] == t[j - 1] && r[j] in t;
        }
      }
    }
  }

  /** The index at which the loop `for i, c in enumerate(s): if c == x: ... break` stops. */
  function FirstIndex<T(==)>(s: seq<T>, x: T): (i: nat)
    requires x in s
    ensures i < |s| && s[i] == x
    ensures forall j :: 0 <= j < i ==> s[j] != x
  {
    if s[0] == x then 0 else 1 + FirstIndex(s[1..], x)
  }

  /** `del s[i]` for the first index `i` holding `x`; `s` itself when there is none. */
  function RemoveFirst<T(==)>(s: seq<T>, x: T): (r: seq<T>)
  {
    if x in s then s[..FirstIndex(s, x)] + s[FirstIndex(s, x) + 1..] else s
  }

  /** Deleting the first match removes one element when there is one, and none otherwise. */
  lemma {:induction false} RemoveFirstMembers<T>(s: seq<T>, x: T)
    ensures x in s ==> |RemoveFirst(s, x)| == |s| - 1
    ensures x !in s ==> RemoveFirst(s, x) == s
    ensures forall y :: y != x ==> (y in RemoveFirst(s, x) <==> y in s)
  {
    if x in s {
      RemoveFirstMultiset(s, x);
      forall y | y != x ensures y in RemoveFirst(s, x) <==> y in s {
        assert y in multiset(s) <==> y in multiset(RemoveFirst(s, x));
      }
    }
  }

  /** Exactly one occurrence of `x` goes, when there is one. */
  lemma {:induction false} RemoveFirstMultiset<T>(s: seq<T>, x: T)
    ensures multiset(RemoveFirst(s, x)) == multiset(s) - multiset{x}
  {
    if x in s {
      var i := FirstIndex(s, x);
      assert s == s[..i] + [x] + s[i + 1..];
      assert multiset(s) == multiset(s[..i]) + multiset{x} + multiset(s[i + 1..]);
    } else {
      assert multiset(s)[x] == 0;
    }
  }
}
