/** Failure-compatible wrappers shared by every module of the model. */
module Base {

  /** A value that may be absent: a missing request field, a null column, a NaN. */
  datatype Option<+T> = None | Some(value: T)

  /** The outcome of a handler: the value it produces or the error it responds with. */
  datatype Result<+R, +E> = Success(value: R) | Failure(error: E)

  /** The number of `Some` entries of a sequence. */
  function CountSome<T>(s: seq<Option<T>>): nat
  {
    if s == [] then 0 else (if s[0].Some? then 1 else 0) + CountSome(s[1..])
  }

  /** The values of the `Some` entries of a sequence, in order. */
  function Somes<T>(s: seq<Option<T>>): (r: seq<T>)
    ensures |r| == CountSome(s)
    ensures forall i :: 0 <= i < |s| && s[i].Some? ==> s[i].value in r
    ensures forall j :: 0 <= j < |r| ==> Some(r[j]) in s
  {
    if s == [] then []
    else
      var rest := Somes(s[1..]);
      assert forall i :: 1 <= i < |s| ==> s[i] == s[1..][i - 1];
      if s[0].Some? then [s[0].value] + rest else rest
  }

  /** `.delete()` of one row: the sequence without the entry at index k, the others in order. */
  function Quitar<T>(s: seq<T>, k: int): (r: seq<T>)
    requires 0 <= k < |s|
    ensures |r| == |s| - 1
    ensures forall j :: 0 <= j < |r| ==> r[j] == if j < k then s[j] else s[j + 1]
  {
    s[..k] + s[k + 1..]
  }

  /** Some row has key `id`: what `.eq('id', id)` finds. */
  predicate TieneClave<T>(rows: seq<T>, key: T -> int, id: int)
  {
    exists k :: 0 <= k < |rows| && key(rows[k]) == id
  }

  /** `.eq('id', id)` on a table: the index of the first row with that key, None when no row has it. */
  function IndicePor<T>(rows: seq<T>, key: T -> int, id: int): (p: Option<nat>)
    ensures p.Some? ==> p.value < |rows| && key(rows[p.value]) == id
    ensures p.Some? ==> forall k :: 0 <= k < p.value ==> key(rows[k]) != id
    ensures p.None? <==> !TieneClave(rows, key, id)
  {
    if rows == [] then None
    else if key(rows[0]) == id then Some(0)
    else
      var p := IndicePor(rows[1..], key, id);
      assert forall k :: 1 <= k < |rows| ==> rows[k] == rows[1..][k - 1];
      if p.Some? then Some(p.value + 1) else None
  }

  /** Two equal entries at different indices count twice in the multiset. */
  lemma MultisetTwo<T>(s: seq<T>, i: int, j: int)
    requires 0 <= i < j < |s| && s[i] == s[j]
    ensures multiset(s)[s[i]] >= 2
  {
    assert s == s[..j] + [s[j]] + s[j + 1..];
    assert s[..j][i] == s[i];
    assert s[i] in multiset(s[..j]);
  }

  /** A value that counts twice in the multiset sits at two different indices. */
  lemma {:induction false} TwoIndices<T>(s: seq<T>, x: T)
    requires multiset(s)[x] >= 2
    ensures exists p, q :: 0 <= p < q < |s| && s[p] == x && s[q] == x
  {
    var n := |s|;
    assert s == s[..n - 1] + [s[n - 1]];
    if s[n - 1] == x {
      assert x in multiset(s[..n - 1]);
      var p :| 0 <= p < n - 1 && s[..n - 1][p] == x;
      assert s[p] == x;
    } else {
      TwoIndices(s[..n - 1], x);
      var p, q :| 0 <= p < q < n - 1 && s[..n - 1][p] == x && s[..n - 1][q] == x;
      assert s[p] == x && s[q] == x;
    }
  }

  /** Reordering a sequence whose elements have pairwise different `f`-values keeps them pairwise different. */
  lemma DistinctPermutation<T>(a: seq<T>, b: seq<T>, f: T -> int)
    requires multiset(a) == multiset(b)
    requires forall i, j :: 0 <= i < j < |a| ==> f(a[i]) != f(a[j])
    ensures forall i, j :: 0 <= i < j < |b| ==> f(b[i]) != f(b[j])
  {
    forall i, j | 0 <= i < j < |b|
      ensures f(b[i]) != f(b[j])
    {
      if b[i] == b[j] {
        MultisetTwo(b, i, j);
        TwoIndices(a, b[i]);
      } else {
        assert b[i] in multiset(a) && b[j] in multiset(a);
        var p :| 0 <= p < |a| && a[p] == b[i];
        var q :| 0 <= q < |a| && a[q] == b[j];
        if p > q {
          assert f(a[q]) != f(a[p]);
        }
      }
    }
  }
}
