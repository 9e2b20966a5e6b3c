/**
 * `Array.prototype.sort` with a comparator that reads one key per element and
 * answers "before", "after" or "tie": a stable sort, written as insertion
 * sort, with its three promises (ordered, a permutation, ties kept in input
 * order). Keys are numbers or strings, compared as JavaScript's `<` does.
 */
module Sorting {

  /** A comparison key: a number, or a string compared code point by code point. */
  datatype SortKey = NumKey(n: int) | TextKey(s: string)

  /** JavaScript's `<` on two strings: lexicographic, a proper prefix first. */
  predicate LexLess(a: string, b: string)
    decreases |a|
  {
    if a == [] then b != []
    else if b == [] then false
    else if a[0] != b[0] then a[0] < b[0]
    else LexLess(a[1..], b[1..])
  }

  lemma {:induction false} LexLessIrreflexive(a: string)
    ensures !LexLess(a, a)
  {
    if a != [] { LexLessIrreflexive(a[1..]); }
  }

  lemma {:induction false} LexLessTransitive(a: string, b: string, c: string)
    requires LexLess(a, b) && LexLess(b, c)
    ensures LexLess(a, c)
    decreases |a|
  {
    if a != [] && b != [] && c != [] && a[0] == b[0] && b[0] == c[0] {
      LexLessTransitive(a[1..], b[1..], c[1..]);
    }
  }

  lemma {:induction false} LexLessTotal(a: string, b: string)
    requires a != b
    ensures LexLess(a, b) || LexLess(b, a)
    decreases |a|
  {
    if a != [] && b != [] && a[0] == b[0] {
      assert a == [a[0]] + a[1..] && b == [b[0]] + b[1..];
      LexLessTotal(a[1..], b[1..]);
    }
  }

  lemma {:induction false} LexLessAsymmetric(a: string, b: string)
    requires LexLess(a, b)
    ensures !LexLess(b, a)
    decreases |a|
  {
    if a != [] && b != [] && a[0] == b[0] {
      LexLessAsymmetric(a[1..], b[1..]);
    }
  }

  /** `a < b` between two keys of the same criterion (numbers sort before strings, a case that never arises). */
  predicate KeyLess(a: SortKey, b: SortKey)
  {
    match (a, b)
    case (NumKey(x), NumKey(y)) => x < y
    case (TextKey(x), TextKey(y)) => LexLess(x, y)
    case (NumKey(_), TextKey(_)) => true
    case (TextKey(_), NumKey(_)) => false
  }

  /** `KeyLess` is a strict total order: irreflexive, transitive and total. */
  lemma KeyLessOrder(a: SortKey, b: SortKey, c: SortKey)
    ensures !KeyLess(a, a)
    ensures KeyLess(a, b) && KeyLess(b, c) ==> KeyLess(a, c)
    ensures a != b ==> KeyLess(a, b) || KeyLess(b, a)
    ensures !(KeyLess(a, b) && KeyLess(b, a))
  {
    match (a, b, c)
    case (TextKey(x), TextKey(y), TextKey(z)) =>
      LexLessIrreflexive(x);
      if LexLess(x, y) {
        LexLessAsymmetric(x, y);
        if LexLess(y, z) { LexLessTransitive(x, y, z); }
      }
      if x != y { LexLessTotal(x, y); }
    case (TextKey(x), TextKey(y), _) =>
      LexLessIrreflexive(x);
      if LexLess(x, y) { LexLessAsymmetric(x, y); }
      if x != y { LexLessTotal(x, y); }
    case (TextKey(x), _, _) =>
      LexLessIrreflexive(x);
    case _ =>
  }

  /** The comparator's "negative" answer: `a` goes before `b` in direction `desc`. */
  predicate Before(a: SortKey, b: SortKey, desc: bool)
  {
    if desc then KeyLess(b, a) else KeyLess(a, b)
  }

  lemma BeforeOrder(a: SortKey, b: SortKey, c: SortKey, desc: bool)
    ensures !Before(a, a, desc)
    ensures Before(a, b, desc) && Before(b, c, desc) ==> Before(a, c, desc)
    ensures !Before(a, b, desc) && !Before(b, a, desc) ==> a == b
  {
    KeyLessOrder(a, b, c);
    KeyLessOrder(c, b, a);
    KeyLessOrder(b, a, c);
  }

  /** No element is strictly before an earlier one. */
  ghost predicate Sorted<T>(s: seq<T>, key: T -> SortKey, desc: bool)
  {
    forall i, j :: 0 <= i < j < |s| ==> !Before(key(s[j]), key(s[i]), desc)
  }

  lemma SortedTail<T>(s: seq<T>, key: T -> SortKey, desc: bool)
    requires Sorted(s, key, desc) && s != []
    ensures Sorted(s[1..], key, desc)
  {
    forall i, j | 0 <= i < j < |s[1..]|
      ensures !Before(key(s[1..][j]), key(s[1..][i]), desc)
    {
      assert s[1..][j] == s[j + 1] && s[1..][i] == s[i + 1];
    }
  }

  /** The elements whose key is `k`, in order. */
  function WithKey<T>(s: seq<T>, key: T -> SortKey, k: SortKey): (r: seq<T>)
    ensures |r| <= |s|
  {
    if s == [] then []
    else if key(s[0]) == k then [s[0]] + WithKey(s[1..], key, k)
    else WithKey(s[1..], key, k)
  }

  /** Places `x` after every element it does not strictly precede. */
  function Insert<T>(x: T, s: seq<T>, key: T -> SortKey, desc: bool): (r: seq<T>)
    ensures multiset(r) == multiset(s) + multiset{x}
    ensures |r| == |s| + 1
  {
    if s == [] then [x]
    else if Before(key(x), key(s[0]), desc) then [x] + s
    else
      assert s == [s[0]] + s[1..];
      [s[0]] + Insert(x, s[1..], key, desc)
  }

  /** The stable sort: each element is inserted, in input order, into the sorted prefix. */
  function SortBy<T>(s: seq<T>, key: T -> SortKey, desc: bool): (r: seq<T>)
    ensures multiset(r) == multiset(s)
    ensures |r| == |s|
  {
    if s == [] then []
    else
      assert s == s[..|s| - 1] + [s[|s| - 1]];
      Insert(s[|s| - 1], SortBy(s[..|s| - 1], key, desc), key, desc)
  }

  lemma {:induction false} InsertSorted<T>(x: T, s: seq<T>, key: T -> SortKey, desc: bool)
    requires Sorted(s, key, desc)
    ensures Sorted(Insert(x, s, key, desc), key, desc)
  {
    if s != [] && !Before(key(x), key(s[0]), desc) {
      InsertSorted(x, s[1..], key, desc);
      var r := Insert(x, s, key, desc);
      var t := Insert(x, s[1..], key, desc);
      assert r == [s[0]] + t;
      forall j | 0 <= j < |t|
        ensures !Before(key(t[j]), key(s[0]), desc)
      {
        assert t[j] in multiset(t);
        assert t[j] == x || t[j] in multiset(s[1..]);
        if t[j] != x {
          var k :| 0 <= k < |s[1..]| && s[1..][k] == t[j];
          assert s[k + 1] == t[j];
        }
      }
    } else if s != [] {
      var r := Insert(x, s, key, desc);
      forall i, j | 0 <= i < j < |r|
        ensures !Before(key(r[j]), key(r[i]), desc)
      {
        if i == 0 {
          BeforeOrder(key(x), key(s[0]), key(r[j]), desc);
          BeforeOrder(key(r[j]), key(x), key(s[0]), desc);
          if j > 1 {
            assert r[j] == s[j - 1];
            BeforeOrder(key(s[0]), key(s[j - 1]), key(x), desc);
            BeforeOrder(key(s[j - 1]), key(x), key(s[0]), desc);
          } else {
            BeforeOrder(key(s[0]), key(x), key(s[0]), desc);
          }
        }
      }
    }
  }

  /** The sort's output is ordered by the comparator. */
  lemma {:induction false} SortBySorted<T>(s: seq<T>, key: T -> SortKey, desc: bool)
    ensures Sorted(SortBy(s, key, desc), key, desc)
  {
    if s != [] {
      SortBySorted(s[..|s| - 1], key, desc);
      InsertSorted(s[|s| - 1], SortBy(s[..|s| - 1], key, desc), key, desc);
    }
  }

  lemma WithKeyCons<T>(y: T, t: seq<T>, key: T -> SortKey, k: SortKey)
    ensures WithKey([y] + t, key, k) == (if key(y) == k then [y] else []) + WithKey(t, key, k)
  {
    assert ([y] + t)[0] == y;
    assert ([y] + t)[1..] == t;
  }

  lemma {:induction false} WithKeyAppend<T>(a: seq<T>, b: seq<T>, key: T -> SortKey, k: SortKey)
    ensures WithKey(a + b, key, k) == WithKey(a, key, k) + WithKey(b, key, k)
  {
    if a == [] {
      assert a + b == b;
    } else {
      assert a + b == [a[0]] + (a[1..] + b);
      assert a == [a[0]] + a[1..];
      WithKeyCons(a[0], a[1..] + b, key, k);
      WithKeyCons(a[0], a[1..], key, k);
      WithKeyAppend(a[1..], b, key, k);
    }
  }

  lemma {:induction false} InsertWithKey<T>(x: T, s: seq<T>, key: T -> SortKey, desc: bool, k: SortKey)
    requires Sorted(s, key, desc)
    ensures WithKey(Insert(x, s, key, desc), key, k)
         == WithKey(s, key, k) + (if key(x) == k then [x] else [])
  {
    if s == [] {
      WithKeyCons(x, [], key, k);
      assert [x] + [] == [x];
    } else if Before(key(x), key(s[0]), desc) {
      InsertWithKeyFront(x, s, key, desc, k);
    } else {
      var t := Insert(x, s[1..], key, desc);
      assert Insert(x, s, key, desc) == [s[0]] + t;
      SortedTail(s, key, desc);
      InsertWithKey(x, s[1..], key, desc, k);
      InsertWithKeyStep(s[0], s[1..], t, key, k, if key(x) == k then [x] else []);
    }
  }

  lemma InsertWithKeyFront<T>(x: T, s: seq<T>, key: T -> SortKey, desc: bool, k: SortKey)
    requires Sorted(s, key, desc) && s != [] && Before(key(x), key(s[0]), desc)
    ensures WithKey([x] + s, key, k) == WithKey(s, key, k) + (if key(x) == k then [x] else [])
  {
    WithKeyCons(x, s, key, k);
    if key(x) == k {
      NoneWithKey(s, key, desc, key(x));
    }
  }

  lemma InsertWithKeyStep<T>(y: T, s: seq<T>, t: seq<T>, key: T -> SortKey, k: SortKey, extra: seq<T>)
    requires WithKey(t, key, k) == WithKey(s, key, k) + extra
    ensures WithKey([y] + t, key, k) == WithKey([y] + s, key, k) + extra
  {
    var c := if key(y) == k then [y] else [];
    WithKeyCons(y, t, key, k);
    WithKeyCons(y, s, key, k);
    assert c + (WithKey(s, key, k) + extra) == (c + WithKey(s, key, k)) + extra;
  }

  /** In a sorted sequence whose head comes strictly after `k0`, no element has key `k0`. */
  lemma {:induction false} NoneWithKey<T>(s: seq<T>, key: T -> SortKey, desc: bool, k0: SortKey)
    requires Sorted(s, key, desc) && s != [] && Before(k0, key(s[0]), desc)
    ensures WithKey(s, key, k0) == []
  {
    if |s| > 1 {
      BeforeOrder(k0, key(s[0]), key(s[1]), desc);
      BeforeOrder(key(s[1]), key(s[0]), k0, desc);
      SortedTail(s, key, desc);
      NoneWithKey(s[1..], key, desc, k0);
    }
    BeforeOrder(k0, k0, k0, desc);
  }

  /** Stability: the elements sharing any one key keep their input order. */
  lemma {:induction false} SortByStable<T>(s: seq<T>, key: T -> SortKey, desc: bool, k: SortKey)
    ensures WithKey(SortBy(s, key, desc), key, k) == WithKey(s, key, k)
  {
    if s != [] {
      var init, x := s[..|s| - 1], s[|s| - 1];
      assert s == init + [x];
      var r := SortBy(init, key, desc);
      var extra := if key(x) == k then [x] else [];
      assert SortBy(s, key, desc) == Insert(x, r, key, desc);
      SortByStable(init, key, desc, k);
      SortBySorted(init, key, desc);
      InsertWithKey(x, r, key, desc, k);
      assert WithKey(Insert(x, r, key, desc), key, k) == WithKey(init, key, k) + extra;
      WithKeyAppend(init, [x], key, k);
      assert WithKey([x], key, k) == extra by {
        WithKeyCons(x, [], key, k);
        assert [x] + [] == [x];
      }
    }
  }

  /** Applies `g` to every element, in place. */
  function MapSeq<T>(s: seq<T>, g: T -> T): (r: seq<T>)
    ensures |r| == |s| && forall i :: 0 <= i < |s| ==> r[i] == g(s[i])
  {
    seq(|s|, i requires 0 <= i < |s| => g(s[i]))
  }

  lemma MapSeqCons<T>(y: T, t: seq<T>, g: T -> T)
    ensures MapSeq([y] + t, g) == [g(y)] + MapSeq(t, g)
  {
    assert MapSeq([y] + t, g)[0] == g(y);
  }

  lemma MapSeqSnoc<T>(t: seq<T>, y: T, g: T -> T)
    ensures MapSeq(t + [y], g) == MapSeq(t, g) + [g(y)]
  {
    assert MapSeq(t + [y], g)[|t|] == g(y);
  }

  /** A change that keeps every key commutes with insertion. */
  lemma {:induction false} InsertMap<T>(x: T, s: seq<T>, key: T -> SortKey, desc: bool, g: T -> T)
    requires forall y :: key(g(y)) == key(y)
    ensures Insert(g(x), MapSeq(s, g), key, desc) == MapSeq(Insert(x, s, key, desc), g)
  {
    var m := MapSeq(s, g);
    if s == [] {
      assert MapSeq([x], g) == [g(x)];
    } else {
      assert s == [s[0]] + s[1..];
      MapSeqCons(s[0], s[1..], g);
      assert m[0] == g(s[0]) && m[1..] == MapSeq(s[1..], g);
      assert key(m[0]) == key(s[0]) && key(g(x)) == key(x);
      if Before(key(x), key(s[0]), desc) {
        assert Insert(x, s, key, desc) == [x] + s;
        assert Insert(g(x), m, key, desc) == [g(x)] + m;
        MapSeqCons(x, s, g);
      } else {
        var t := Insert(x, s[1..], key, desc);
        assert Insert(x, s, key, desc) == [s[0]] + t;
        assert Insert(g(x), m, key, desc) == [m[0]] + Insert(g(x), m[1..], key, desc);
        InsertMap(x, s[1..], key, desc, g);
        MapSeqCons(s[0], t, g);
      }
    }
  }

  /** A change that keeps every key commutes with the sort: the sorted order does not depend on it. */
  lemma {:induction false} SortByMap<T>(s: seq<T>, key: T -> SortKey, desc: bool, g: T -> T)
    requires forall y :: key(g(y)) == key(y)
    ensures SortBy(MapSeq(s, g), key, desc) == MapSeq(SortBy(s, key, desc), g)
  {
    if s != [] {
      var m := MapSeq(s, g);
      assert m[..|m| - 1] == MapSeq(s[..|s| - 1], g);
      SortByMap(s[..|s| - 1], key, desc, g);
      InsertMap(s[|s| - 1], SortBy(s[..|s| - 1], key, desc), key, desc, g);
    }
  }
}
