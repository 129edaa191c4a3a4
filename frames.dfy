/** Table vocabulary shared by every stage of the pipeline.

    A pandas DataFrame is modelled as an ordered sequence of typed rows; a
    missing cell (NaN/None) is `None`. The whole-table operations the pipeline
    uses are defined here once: mapping a function over rows, boolean-mask
    filtering, `drop_duplicates(keep="first")`, a left `merge`,
    `groupby().cumcount()` and the exact-match `replace` of a single cell. */
module Frames {

  datatype Option<T> = None | Some(value: T) {
    function GetOr(default: T): T {
      if Some? then value else default
    }
  }

  /** The Python exceptions a feed outside the expected shape provokes. */
  datatype Exception =
    | TypeError(message: string)
    | KeyError(key: string)
    | ValueError(message: string)

  datatype Result<T> = Ok(value: T) | Err(error: Exception)

  // ---------------------------------------------------------------------
  // Row-wise map
  // ---------------------------------------------------------------------

  /** Applies `f` to every row, keeping order and count. */
  function MapSeq<A, B>(s: seq<A>, f: A -> B): (r: seq<B>)
    ensures |r| == |s|
    ensures forall i :: 0 <= i < |s| ==> r[i] == f(s[i])
  {
    if s == [] then [] else MapSeq(s[..|s| - 1], f) + [f(s[|s| - 1])]
  }

  /** Extending a prefix by one row extends its image by one value. */
  lemma MapSeqSnoc<A, B>(s: seq<A>, i: nat, f: A -> B)
    requires i < |s|
    ensures MapSeq(s[..i + 1], f) == MapSeq(s[..i], f) + [f(s[i])]
  {
    assert s[..i + 1][..i] == s[..i];
  }

  lemma MapSeqConcat<A, B>(s: seq<A>, t: seq<A>, f: A -> B)
    ensures MapSeq(s + t, f) == MapSeq(s, f) + MapSeq(t, f)
  {
  }

  // ---------------------------------------------------------------------
  // Ordered subsequences
  // ---------------------------------------------------------------------

  /** `a` is obtained from `b` by deleting rows, without reordering. */
  predicate IsSubsequence<T(==)>(a: seq<T>, b: seq<T>)
    decreases |b|
  {
    if a == [] then true
    else if b == [] then false
    else if a[|a| - 1] == b[|b| - 1] then IsSubsequence(a[..|a| - 1], b[..|b| - 1])
    else IsSubsequence(a, b[..|b| - 1])
  }

  lemma {:induction false} SubsequenceExtend<T>(a: seq<T>, b: seq<T>, x: T)
    requires IsSubsequence(a, b)
    ensures IsSubsequence(a, b + [x])
    decreases |b|, 1
  {
    assert (b + [x])[..|b|] == b;
    if a != [] && a[|a| - 1] == x {
      SubsequenceInit(a, b);
    }
  }

  lemma {:induction false} SubsequenceInit<T>(a: seq<T>, b: seq<T>)
    requires a != [] && IsSubsequence(a, b)
    ensures IsSubsequence(a[..|a| - 1], b)
    decreases |b|, 0
  {
    var a', b' := a[..|a| - 1], b[..|b| - 1];
    assert b == b' + [b[|b| - 1]];
    if a[|a| - 1] == b[|b| - 1] {
      SubsequenceExtend(a', b', b[|b| - 1]);
    } else {
      SubsequenceInit(a, b');
      SubsequenceExtend(a', b', b[|b| - 1]);
    }
  }

  /** Every row of a subsequence is a row of the sequence. */
  lemma {:induction false} SubsequenceMembers<T>(a: seq<T>, b: seq<T>, i: nat)
    requires IsSubsequence(a, b) && i < |a|
    ensures a[i] in b
    decreases |b|
  {
    var b' := b[..|b| - 1];
    if a[|a| - 1] == b[|b| - 1] {
      if i < |a| - 1 {
        SubsequenceMembers(a[..|a| - 1], b', i);
        assert a[..|a| - 1][i] == a[i];
      }
    } else {
      SubsequenceMembers(a, b', i);
    }
    assert forall x :: x in b' ==> x in b;
  }

  lemma {:induction false} SubsequenceTransitive<T>(a: seq<T>, b: seq<T>, c: seq<T>)
    requires IsSubsequence(a, b) && IsSubsequence(b, c)
    ensures IsSubsequence(a, c)
    decreases |c|
  {
    if a != [] && b != [] {
      var a', b', c' := a[..|a| - 1], b[..|b| - 1], c[..|c| - 1];
      assert c == c' + [c[|c| - 1]];
      if b[|b| - 1] == c[|c| - 1] {
        if a[|a| - 1] == b[|b| - 1] {
          SubsequenceTransitive(a', b', c');
        } else {
          SubsequenceTransitive(a, b', c');
          SubsequenceExtend(a, c', c[|c| - 1]);
        }
      } else {
        SubsequenceTransitive(a, b, c');
        SubsequenceExtend(a, c', c[|c| - 1]);
      }
    }
  }

  // ---------------------------------------------------------------------
  // Boolean-mask filtering: df[mask]
  // ---------------------------------------------------------------------

  /** The rows satisfying `keep`, in their original order. */
  function Filter<T>(s: seq<T>, keep: T -> bool): (r: seq<T>)
    ensures |r| <= |s|
    ensures forall i :: 0 <= i < |r| ==> keep(r[i])
  {
    if s == [] then []
    else Filter(s[..|s| - 1], keep) + (if keep(s[|s| - 1]) then [s[|s| - 1]] else [])
  }

  /** Filtering keeps exactly the rows the mask selects, in order. */
  lemma {:induction false} FilterExact<T>(s: seq<T>, keep: T -> bool)
    ensures forall x :: x in Filter(s, keep) <==> x in s && keep(x)
    ensures IsSubsequence(Filter(s, keep), s)
  {
    if s != [] {
      var init, last := s[..|s| - 1], s[|s| - 1];
      FilterExact(init, keep);
      assert s == init + [last];
      var f := Filter(init, keep);
      assert s[..|s| - 1] == init;
      if keep(last) {
        assert (f + [last])[..|f|] == f;
        assert Filter(s, keep) == f + [last];
      } else {
        assert Filter(s, keep) == f;
        SubsequenceExtend(f, init, last);
      }
    }
  }

  lemma FilterMember<T>(s: seq<T>, keep: T -> bool, i: nat)
    requires i < |Filter(s, keep)|
    ensures Filter(s, keep)[i] in s
  {
    FilterExact(s, keep);
    assert Filter(s, keep)[i] in Filter(s, keep);
  }

  /** Filtering two tables one after the other is filtering their concatenation. */
  lemma {:induction false} FilterConcat<T>(s: seq<T>, t: seq<T>, keep: T -> bool)
    ensures Filter(s + t, keep) == Filter(s, keep) + Filter(t, keep)
    decreases |t|
  {
    if t != [] {
      var init, last := t[..|t| - 1], t[|t| - 1];
      FilterConcat(s, init, keep);
      var tail := if keep(last) then [last] else [];
      assert (s + t)[..|s + t| - 1] == s + init;
      assert (s + t)[|s + t| - 1] == last;
      assert Filter(s + t, keep) == Filter(s + init, keep) + tail;
      assert Filter(t, keep) == Filter(init, keep) + tail;
    } else {
      assert s + t == s;
    }
  }

  // ---------------------------------------------------------------------
  // drop_duplicates(subset=..., keep="first")
  // ---------------------------------------------------------------------

  /** Some row of `s` has key `k`. */
  predicate HasKey<T, K(==)>(s: seq<T>, key: T -> K, k: K) {
    exists i :: 0 <= i < |s| && key(s[i]) == k
  }

  /** No two rows of `s` share a key. */
  predicate KeysUnique<T, K(==)>(s: seq<T>, key: T -> K) {
    forall i, j :: 0 <= i < j < |s| ==> key(s[i]) != key(s[j])
  }

  lemma KeysUniqueInit<T, K>(s: seq<T>, key: T -> K)
    requires s != [] && KeysUnique(s, key)
    ensures KeysUnique(s[..|s| - 1], key)
    ensures !HasKey(s[..|s| - 1], key, key(s[|s| - 1]))
  {
    var init := s[..|s| - 1];
    forall i, j | 0 <= i < j < |init| ensures key(init[i]) != key(init[j]) {
      assert init[i] == s[i] && init[j] == s[j];
    }
  }

  /** Every row of `s` with key `k` passes the mask. */
  predicate KeyKept<T, K(==)>(s: seq<T>, keep: T -> bool, key: T -> K, k: K) {
    forall i :: 0 <= i < |s| && key(s[i]) == k ==> keep(s[i])
  }

  /** A key whose rows all pass the mask survives the filter. */
  lemma FilterHasKey<T, K>(s: seq<T>, keep: T -> bool, key: T -> K, k: K)
    requires KeyKept(s, keep, key, k)
    ensures HasKey(Filter(s, keep), key, k) <==> HasKey(s, key, k)
  {
    FilterExact(s, keep);
    if HasKey(Filter(s, keep), key, k) {
      var i :| 0 <= i < |Filter(s, keep)| && key(Filter(s, keep)[i]) == k;
      FilterMember(s, keep, i);
    }
    if HasKey(s, key, k) {
      var i :| 0 <= i < |s| && key(s[i]) == k;
      assert s[i] in Filter(s, keep);
    }
  }

  /** Filtering keeps the order of first positions of keys whose rows all
      pass the mask. */
  lemma {:induction false} FilterFirstIndex<T, K>(s: seq<T>, keep: T -> bool, key: T -> K, k1: K, k2: K)
    requires KeyKept(s, keep, key, k1) && KeyKept(s, keep, key, k2)
    requires HasKey(s, key, k1) && HasKey(s, key, k2)
    ensures HasKey(Filter(s, keep), key, k1) && HasKey(Filter(s, keep), key, k2)
    ensures FirstIndex(Filter(s, keep), key, k1) < FirstIndex(Filter(s, keep), key, k2) <==>
            FirstIndex(s, key, k1) < FirstIndex(s, key, k2)
  {
    var init, last := s[..|s| - 1], s[|s| - 1];
    assert s == init + [last];
    var f, fs := Filter(init, keep), Filter(s, keep);
    assert KeyKept(init, keep, key, k1) && KeyKept(init, keep, key, k2) by {
      assert forall i :: 0 <= i < |init| ==> init[i] == s[i];
    }
    FilterHasKey(s, keep, key, k1);
    FilterHasKey(s, keep, key, k2);
    FilterHasKey(init, keep, key, k1);
    FilterHasKey(init, keep, key, k2);
    HasKeySnoc(init, last, key, k1);
    HasKeySnoc(init, last, key, k2);
    if keep(last) {
      assert fs == f + [last] && fs[..|fs| - 1] == f;
    } else {
      assert fs == f;
    }
    if HasKey(init, key, k1) && HasKey(init, key, k2) {
      FilterFirstIndex(init, keep, key, k1, k2);
    } else if HasKey(init, key, k1) {
      assert key(last) == k2 && keep(last);
    } else if HasKey(init, key, k2) {
      assert key(last) == k1 && keep(last);
    }
  }

  /** A filtered table of unique keys still has unique keys. */
  lemma {:induction false} FilterKeepsUniqueKeys<T, K>(s: seq<T>, keep: T -> bool, key: T -> K)
    requires KeysUnique(s, key)
    ensures KeysUnique(Filter(s, keep), key)
  {
    if s != [] {
      var init, last := s[..|s| - 1], s[|s| - 1];
      KeysUniqueInit(s, key);
      FilterKeepsUniqueKeys(init, keep, key);
      var f := Filter(init, keep);
      forall i | 0 <= i < |f| ensures key(f[i]) != key(last) {
        FilterMember(init, keep, i);
        var k :| 0 <= k < |init| && init[k] == f[i];
        assert key(init[k]) != key(last);
      }
    }
  }

  /** The first row of `s`, scanning from the front, whose key is `k`. */
  function FirstWithKey<T, K(==)>(s: seq<T>, key: T -> K, k: K): Option<T> {
    if s == [] then None
    else if key(s[0]) == k then Some(s[0])
    else FirstWithKey(s[1..], key, k)
  }

  /** Keeps a row only when no earlier row has its key. */
  function DropDuplicates<T, K(==)>(s: seq<T>, key: T -> K): (r: seq<T>)
    ensures |r| <= |s|
  {
    if s == [] then []
    else
      var init, last := s[..|s| - 1], s[|s| - 1];
      DropDuplicates(init, key) + (if HasKey(init, key, key(last)) then [] else [last])
  }

  lemma {:induction false} FirstWithKeySnoc<T, K>(s: seq<T>, x: T, key: T -> K, k: K)
    ensures FirstWithKey(s + [x], key, k) ==
            if FirstWithKey(s, key, k).Some? then FirstWithKey(s, key, k)
            else if key(x) == k then Some(x) else None
  {
    if s != [] {
      assert (s + [x])[1..] == s[1..] + [x];
      FirstWithKeySnoc(s[1..], x, key, k);
    }
  }

  lemma {:induction false} FirstWithKeyFound<T, K>(s: seq<T>, key: T -> K, k: K)
    ensures FirstWithKey(s, key, k).Some? <==> HasKey(s, key, k)
    ensures FirstWithKey(s, key, k).Some? ==>
              FirstWithKey(s, key, k).value in s && key(FirstWithKey(s, key, k).value) == k
  {
    if s != [] {
      FirstWithKeyFound(s[1..], key, k);
      if HasKey(s, key, k) && key(s[0]) != k {
        var i :| 0 <= i < |s| && key(s[i]) == k;
        assert key(s[1..][i - 1]) == k;
      }
      if HasKey(s[1..], key, k) {
        var i :| 0 <= i < |s[1..]| && key(s[1..][i]) == k;
        assert key(s[i + 1]) == k;
      }
    }
  }

  lemma HasKeySnoc<T, K>(s: seq<T>, x: T, key: T -> K, k: K)
    ensures HasKey(s + [x], key, k) <==> HasKey(s, key, k) || key(x) == k
  {
    var t := s + [x];
    if HasKey(t, key, k) && key(x) != k {
      var i :| 0 <= i < |t| && key(t[i]) == k;
      assert key(s[i]) == k;
    }
    if HasKey(s, key, k) {
      var i :| 0 <= i < |s| && key(s[i]) == k;
      assert key(t[i]) == k;
    }
    if key(x) == k {
      assert key(t[|s|]) == k;
    }
  }

  /** The position of the first row of `s` whose key is `k`: that row has
      the key and no row before it does. */
  function FirstIndex<T, K(==)>(s: seq<T>, key: T -> K, k: K): (i: nat)
    requires HasKey(s, key, k)
    ensures i < |s| && key(s[i]) == k
    ensures !HasKey(s[..i], key, k)
  {
    var init, last := s[..|s| - 1], s[|s| - 1];
    assert s == init + [last];
    HasKeySnoc(init, last, key, k);
    if HasKey(init, key, k) then
      var i := FirstIndex(init, key, k);
      assert s[..i] == init[..i];
      i
    else
      |s| - 1
  }

  lemma {:induction false} DropDuplicatesKeys<T, K>(s: seq<T>, key: T -> K)
    ensures forall k :: HasKey(DropDuplicates(s, key), key, k) <==> HasKey(s, key, k)
  {
    if s != [] {
      var init, last := s[..|s| - 1], s[|s| - 1];
      assert s == init + [last];
      DropDuplicatesKeys(init, key);
      var d := DropDuplicates(init, key);
      forall k ensures HasKey(DropDuplicates(s, key), key, k) <==> HasKey(s, key, k) {
        HasKeySnoc(init, last, key, k);
        if HasKey(init, key, key(last)) {
          assert DropDuplicates(s, key) == d;
        } else {
          assert DropDuplicates(s, key) == d + [last];
          HasKeySnoc(d, last, key, k);
        }
      }
    }
  }

  lemma {:induction false} DropDuplicatesUnique<T, K>(s: seq<T>, key: T -> K)
    ensures KeysUnique(DropDuplicates(s, key), key)
  {
    if s != [] {
      var init, last := s[..|s| - 1], s[|s| - 1];
      DropDuplicatesUnique(init, key);
      DropDuplicatesKeys(init, key);
      var d := DropDuplicates(init, key);
      if !HasKey(init, key, key(last)) {
        var r := d + [last];
        forall i, j | 0 <= i < j < |r| ensures key(r[i]) != key(r[j]) {
          if j == |d| {
            assert r[i] == d[i];
          }
        }
      }
    }
  }

  lemma {:induction false} DropDuplicatesFirst<T, K>(s: seq<T>, key: T -> K)
    ensures forall x :: x in DropDuplicates(s, key) <==> FirstWithKey(s, key, key(x)) == Some(x)
  {
    if s != [] {
      var init, last := s[..|s| - 1], s[|s| - 1];
      assert s == init + [last];
      DropDuplicatesFirst(init, key);
      var d := DropDuplicates(init, key);
      forall x ensures x in DropDuplicates(s, key) <==> FirstWithKey(s, key, key(x)) == Some(x) {
        FirstWithKeySnoc(init, last, key, key(x));
        FirstWithKeyFound(init, key, key(x));
        FirstWithKeyFound(init, key, key(last));
      }
    }
  }

  lemma {:induction false} DropDuplicatesInOrder<T, K>(s: seq<T>, key: T -> K)
    ensures IsSubsequence(DropDuplicates(s, key), s)
  {
    if s != [] {
      var init, last := s[..|s| - 1], s[|s| - 1];
      assert s == init + [last];
      DropDuplicatesInOrder(init, key);
      var d := DropDuplicates(init, key);
      assert s[..|s| - 1] == init;
      if HasKey(init, key, key(last)) {
        SubsequenceExtend(d, init, last);
        assert DropDuplicates(s, key) == d;
      } else {
        assert (d + [last])[..|d|] == d;
        assert DropDuplicates(s, key) == d + [last];
      }
    }
  }

  /** Every kept row is the row at the first position of its key, and the
      kept rows appear in the order of those first positions. */
  lemma {:induction false} DropDuplicatesPositions<T, K>(s: seq<T>, key: T -> K)
    ensures forall t :: 0 <= t < |DropDuplicates(s, key)| ==>
      HasKey(s, key, key(DropDuplicates(s, key)[t])) &&
      DropDuplicates(s, key)[t] == s[FirstIndex(s, key, key(DropDuplicates(s, key)[t]))]
    ensures forall t, u :: 0 <= t < u < |DropDuplicates(s, key)| ==>
      FirstIndex(s, key, key(DropDuplicates(s, key)[t])) < FirstIndex(s, key, key(DropDuplicates(s, key)[u]))
  {
    if s != [] {
      var init, last := s[..|s| - 1], s[|s| - 1];
      assert s == init + [last];
      DropDuplicatesPositions(init, key);
      var d := DropDuplicates(init, key);
      var r := DropDuplicates(s, key);
      forall t | 0 <= t < |d|
        ensures HasKey(s, key, key(d[t]))
        ensures FirstIndex(s, key, key(d[t])) == FirstIndex(init, key, key(d[t]))
        ensures d[t] == s[FirstIndex(s, key, key(d[t]))]
      {
        HasKeySnoc(init, last, key, key(d[t]));
      }
      if HasKey(init, key, key(last)) {
        assert r == d;
      } else {
        assert r == d + [last];
        HasKeySnoc(init, last, key, key(last));
        assert FirstIndex(s, key, key(last)) == |s| - 1;
        forall t | 0 <= t < |r| ensures HasKey(s, key, key(r[t])) && r[t] == s[FirstIndex(s, key, key(r[t]))] {
          if t < |d| {
            assert r[t] == d[t];
          }
        }
        forall t, u | 0 <= t < u < |r|
          ensures FirstIndex(s, key, key(r[t])) < FirstIndex(s, key, key(r[u]))
        {
          assert r[t] == d[t];
          if u < |d| {
            assert r[u] == d[u];
          }
        }
      }
    }
  }

  /** drop_duplicates keeps one row per key, the first one in input order,
      loses no key, and keeps the surviving rows in their input order. */
  lemma DropDuplicatesKeepsFirst<T, K>(s: seq<T>, key: T -> K)
    ensures KeysUnique(DropDuplicates(s, key), key)
    ensures forall k :: HasKey(DropDuplicates(s, key), key, k) <==> HasKey(s, key, k)
    ensures forall x :: x in DropDuplicates(s, key) <==> FirstWithKey(s, key, key(x)) == Some(x)
    ensures IsSubsequence(DropDuplicates(s, key), s)
    ensures forall t :: 0 <= t < |DropDuplicates(s, key)| ==>
      HasKey(s, key, key(DropDuplicates(s, key)[t])) &&
      DropDuplicates(s, key)[t] == s[FirstIndex(s, key, key(DropDuplicates(s, key)[t]))]
    ensures forall t, u :: 0 <= t < u < |DropDuplicates(s, key)| ==>
      FirstIndex(s, key, key(DropDuplicates(s, key)[t])) < FirstIndex(s, key, key(DropDuplicates(s, key)[u]))
  {
    DropDuplicatesPositions(s, key);
    DropDuplicatesUnique(s, key);
    DropDuplicatesKeys(s, key);
    DropDuplicatesFirst(s, key);
    DropDuplicatesInOrder(s, key);
  }

  /** De-duplicating a table built row by row from a source keeps the key
      of every source element. */
  lemma DropDuplicatesOfMap<A, T, K>(src: seq<A>, f: A -> T, key: T -> K)
    ensures forall i :: 0 <= i < |src| ==> HasKey(DropDuplicates(MapSeq(src, f), key), key, key(f(src[i])))
  {
    var rows := MapSeq(src, f);
    DropDuplicatesKeys(rows, key);
    forall i | 0 <= i < |src| ensures HasKey(DropDuplicates(rows, key), key, key(f(src[i]))) {
      assert key(rows[i]) == key(f(src[i]));
      assert HasKey(rows, key, key(f(src[i])));
    }
  }

  /** The same for a table built row by row: every kept row is built from
      the first source element with its key. */
  lemma DropDuplicatesOfMapPositions<A, T, K>(src: seq<A>, f: A -> T, key: T -> K)
    ensures forall t :: 0 <= t < |DropDuplicates(MapSeq(src, f), key)| ==>
      HasKey(MapSeq(src, f), key, key(DropDuplicates(MapSeq(src, f), key)[t])) &&
      DropDuplicates(MapSeq(src, f), key)[t] ==
        f(src[FirstIndex(MapSeq(src, f), key, key(DropDuplicates(MapSeq(src, f), key)[t]))])
  {
    var rows := MapSeq(src, f);
    var r := DropDuplicates(rows, key);
    DropDuplicatesPositions(rows, key);
    forall t | 0 <= t < |r|
      ensures HasKey(rows, key, key(r[t])) && r[t] == f(src[FirstIndex(rows, key, key(r[t]))])
    {
      var i := FirstIndex(rows, key, key(r[t]));
      assert rows[i] == f(src[i]);
    }
  }

  // ---------------------------------------------------------------------
  // merge(how="left")
  // ---------------------------------------------------------------------

  /** The right rows whose key is `k`, in right-table order. */
  function Matches<R, K(==)>(k: K, right: seq<R>, rkey: R -> K): (m: seq<R>)
    ensures |m| <= |right|
    ensures forall i :: 0 <= i < |m| ==> rkey(m[i]) == k
  {
    if right == [] then []
    else
      var init, last := right[..|right| - 1], right[|right| - 1];
      Matches(k, init, rkey) + (if rkey(last) == k then [last] else [])
  }

  /** The left row `l` paired with each of the right rows `m`. */
  function PairWith<L, R>(l: L, m: seq<R>): (r: seq<(L, Option<R>)>)
    ensures |r| == |m|
    ensures forall i :: 0 <= i < |m| ==> r[i] == (l, Some(m[i]))
  {
    if m == [] then [] else PairWith(l, m[..|m| - 1]) + [(l, Some(m[|m| - 1]))]
  }

  /** What one left row becomes in a left merge: one row per matching
      right row, or a single row with no right part when nothing matches. */
  function MergeBlock<L, R, K(==)>(l: L, right: seq<R>, lkey: L -> K, rkey: R -> K): seq<(L, Option<R>)> {
    var m := Matches(lkey(l), right, rkey);
    if m == [] then [(l, None)] else PairWith(l, m)
  }

  /** pandas `merge(left, right, how="left")`: left rows in order, each
      expanded into its block. A missing key equals a missing key, as in
      pandas. */
  function LeftMerge<L, R, K(==)>(left: seq<L>, right: seq<R>, lkey: L -> K, rkey: R -> K): seq<(L, Option<R>)> {
    if left == [] then []
    else
      LeftMerge(left[..|left| - 1], right, lkey, rkey)
        + MergeBlock(left[|left| - 1], right, lkey, rkey)
  }

  /** Every right row with key `k` is among the matches, and the matches
      are exactly those rows. */
  lemma {:induction false} MatchesExact<R, K>(k: K, right: seq<R>, rkey: R -> K)
    ensures forall r :: r in Matches(k, right, rkey) <==> r in right && rkey(r) == k
    ensures Matches(k, right, rkey) == [] <==> !HasKey(right, rkey, k)
  {
    if right != [] {
      var init, last := right[..|right| - 1], right[|right| - 1];
      assert right == init + [last];
      MatchesExact(k, init, rkey);
      HasKeySnoc(init, last, rkey, k);
      var m := Matches(k, right, rkey);
      assert m == Matches(k, init, rkey) + (if rkey(last) == k then [last] else []);
      forall r ensures r in m <==> r in right && rkey(r) == k {
        assert r in right <==> r in init || r == last;
      }
    }
  }

  lemma MatchAt<R, K>(k: K, right: seq<R>, rkey: R -> K, t: nat)
    requires t < |Matches(k, right, rkey)|
    ensures Matches(k, right, rkey)[t] in right
  {
    var m := Matches(k, right, rkey);
    MatchesExact(k, right, rkey);
    assert m[t] in m;
  }

  /** With unique right keys, a key matches at most one right row. */
  lemma {:induction false} MatchesAtMostOne<R, K>(k: K, right: seq<R>, rkey: R -> K)
    requires KeysUnique(right, rkey)
    ensures |Matches(k, right, rkey)| <= 1
    ensures |Matches(k, right, rkey)| == 1 <==> HasKey(right, rkey, k)
  {
    if right != [] {
      var init, last := right[..|right| - 1], right[|right| - 1];
      assert KeysUnique(init, rkey) by {
        forall i, j | 0 <= i < j < |init| ensures rkey(init[i]) != rkey(init[j]) {
          assert init[i] == right[i] && init[j] == right[j];
        }
      }
      MatchesAtMostOne(k, init, rkey);
      if HasKey(right, rkey, k) && !HasKey(init, rkey, k) {
        var i :| 0 <= i < |right| && rkey(right[i]) == k;
        assert i == |init|;
      }
      if HasKey(init, rkey, k) {
        var i :| 0 <= i < |init| && rkey(init[i]) == k;
        assert rkey(right[i]) == k;
      }
    }
  }

  /** A left row's block is never empty, every row of it carries that left
      row, and it has one row per matching right row (at least one). */
  lemma MergeBlockShape<L, R, K>(l: L, right: seq<R>, lkey: L -> K, rkey: R -> K)
    ensures var b := MergeBlock(l, right, lkey, rkey);
            var m := Matches(lkey(l), right, rkey);
            && |b| == (if m == [] then 1 else |m|)
            && (forall i :: 0 <= i < |b| ==> b[i].0 == l)
            && (m == [] ==> b == [(l, None)])
            && (m != [] ==> forall i :: 0 <= i < |b| ==> b[i].1 == Some(m[i]))
  {
  }

  /** Every left row appears in the merge at least once. */
  lemma LeftMergeKeepsEveryLeftRow<L, R, K>(left: seq<L>, right: seq<R>, lkey: L -> K, rkey: R -> K)
    ensures |LeftMerge(left, right, lkey, rkey)| >= |left|
    ensures forall i :: 0 <= i < |left| ==>
              exists j :: 0 <= j < |LeftMerge(left, right, lkey, rkey)| && LeftMerge(left, right, lkey, rkey)[j].0 == left[i]
  {
    LeftMergeCount(left, right, lkey, rkey);
    LeftMergeKeepsLeftOrder(left, right, lkey, rkey);
    var merged := LeftMerge(left, right, lkey, rkey);
    var lefts := MapSeq(merged, LeftPart<L, R>);
    forall i | 0 <= i < |left| ensures exists j :: 0 <= j < |merged| && merged[j].0 == left[i] {
      SubsequenceMembers(left, lefts, i);
      var j :| 0 <= j < |lefts| && lefts[j] == left[i];
      assert merged[j].0 == lefts[j];
    }
  }

  /** When no two right rows share a key, the left merge keeps the row
      count, row i carries left row i, and its right part is the unique
      matching right row, or missing when there is none. */
  lemma {:induction false} LeftMergeUniqueRight<L, R, K>(left: seq<L>, right: seq<R>, lkey: L -> K, rkey: R -> K)
    requires KeysUnique(right, rkey)
    ensures |LeftMerge(left, right, lkey, rkey)| == |left|
    ensures forall i :: 0 <= i < |left| ==> LeftMerge(left, right, lkey, rkey)[i].0 == left[i]
    ensures forall i :: 0 <= i < |left| ==>
              (LeftMerge(left, right, lkey, rkey)[i].1.None? <==> !HasKey(right, rkey, lkey(left[i])))
    ensures forall i :: 0 <= i < |left| && LeftMerge(left, right, lkey, rkey)[i].1.Some? ==>
              rkey(LeftMerge(left, right, lkey, rkey)[i].1.value) == lkey(left[i])
  {
    if left != [] {
      var init, last := left[..|left| - 1], left[|left| - 1];
      LeftMergeUniqueRight(init, right, lkey, rkey);
      MatchesAtMostOne(lkey(last), right, rkey);
      var a := LeftMerge(init, right, lkey, rkey);
      var b := MergeBlock(last, right, lkey, rkey);
      assert |b| == 1;
      var out := a + b;
      forall i | 0 <= i < |left|
        ensures out[i].0 == left[i]
        ensures out[i].1.None? <==> !HasKey(right, rkey, lkey(left[i]))
        ensures out[i].1.Some? ==> rkey(out[i].1.value) == lkey(left[i])
      {
        if i < |init| {
          assert out[i] == a[i];
        } else {
          assert out[i] == b[0];
        }
      }
    }
  }

  /** The right part of every merged row is a right row with the left
      row's key. */
  lemma {:induction false} LeftMergeRightFromRight<L, R, K>(left: seq<L>, right: seq<R>, lkey: L -> K, rkey: R -> K)
    ensures forall j :: 0 <= j < |LeftMerge(left, right, lkey, rkey)| && LeftMerge(left, right, lkey, rkey)[j].1.Some? ==>
              LeftMerge(left, right, lkey, rkey)[j].1.value in right
              && rkey(LeftMerge(left, right, lkey, rkey)[j].1.value) == lkey(LeftMerge(left, right, lkey, rkey)[j].0)
  {
    if left != [] {
      var init, last := left[..|left| - 1], left[|left| - 1];
      LeftMergeRightFromRight(init, right, lkey, rkey);
      var a: seq<(L, Option<R>)> := LeftMerge(init, right, lkey, rkey);
      var b: seq<(L, Option<R>)> := MergeBlock(last, right, lkey, rkey);
      MergeBlockShape(last, right, lkey, rkey);
      forall j | |a| <= j < |a + b| && (a + b)[j].1.Some?
        ensures (a + b)[j].1.value in right && rkey((a + b)[j].1.value) == lkey((a + b)[j].0)
      {
        var m := Matches(lkey(last), right, rkey);
        var t := j - |a|;
        assert (a + b)[j] == b[t];
        assert m != [];
        assert b[t].1 == Some(m[t]) && b[t].0 == last;
        MatchAt(lkey(last), right, rkey, t);
      }
    }
  }

  /** Under unique keys, two rows with the same key are the same row. */
  lemma SameKeySameRow<R, K>(right: seq<R>, rkey: R -> K, x: R, y: R)
    requires KeysUnique(right, rkey)
    requires x in right && y in right && rkey(x) == rkey(y)
    ensures x == y
  {
    var i :| 0 <= i < |right| && right[i] == x;
    var j :| 0 <= j < |right| && right[j] == y;
    assert rkey(right[i]) == rkey(right[j]);
  }

  /** With unique right keys, the right part of left row i is the right
      row with its key, whichever that is. */
  lemma LeftMergeFindsMatch<L, R, K>(left: seq<L>, right: seq<R>, lkey: L -> K, rkey: R -> K)
    requires KeysUnique(right, rkey)
    ensures forall i, c :: 0 <= i < |left| && c in right && rkey(c) == lkey(left[i]) ==>
              i < |LeftMerge(left, right, lkey, rkey)| && LeftMerge(left, right, lkey, rkey)[i].1 == Some(c)
  {
    LeftMergeUniqueRight(left, right, lkey, rkey);
    LeftMergeRightFromRight(left, right, lkey, rkey);
    var merged := LeftMerge(left, right, lkey, rkey);
    forall i, c | 0 <= i < |left| && c in right && rkey(c) == lkey(left[i])
      ensures merged[i].1 == Some(c)
    {
      assert HasKey(right, rkey, lkey(left[i]));
      SameKeySameRow(right, rkey, merged[i].1.value, c);
    }
  }

  /** The left row of a merged row. */
  function LeftPart<L, R>(p: (L, Option<R>)): L {
    p.0
  }

  lemma {:induction false} SubsequenceAppend<T>(a: seq<T>, b: seq<T>, c: seq<T>)
    requires IsSubsequence(a, b)
    ensures IsSubsequence(a, b + c)
    decreases |c|
  {
    if c != [] {
      var init := c[..|c| - 1];
      SubsequenceAppend(a, b, init);
      assert b + c == (b + init) + [c[|c| - 1]];
      SubsequenceExtend(a, b + init, c[|c| - 1]);
    } else {
      assert b + c == b;
    }
  }

  /** A subsequence grows by one row when a run ending in that row is
      appended. */
  lemma SubsequenceSnocRun<T>(a: seq<T>, x: T, xs: seq<T>, ys: seq<T>)
    requires IsSubsequence(a, xs) && ys != [] && ys[|ys| - 1] == x
    ensures IsSubsequence(a + [x], xs + ys)
  {
    var ys' := ys[..|ys| - 1];
    SubsequenceAppend(a, xs, ys');
    var zs := xs + ys;
    assert zs[..|zs| - 1] == xs + ys';
    assert (a + [x])[..|a|] == a;
  }

  /** The left rows of a merge, read in order, contain the left table in
      order: no left row is lost and none is moved. */
  lemma {:induction false} LeftMergeKeepsLeftOrder<L, R, K>(left: seq<L>, right: seq<R>, lkey: L -> K, rkey: R -> K)
    ensures IsSubsequence(left, MapSeq(LeftMerge(left, right, lkey, rkey), LeftPart<L, R>))
  {
    if left != [] {
      var init, last := left[..|left| - 1], left[|left| - 1];
      assert left == init + [last];
      LeftMergeKeepsLeftOrder(init, right, lkey, rkey);
      var a: seq<(L, Option<R>)> := LeftMerge(init, right, lkey, rkey);
      var b: seq<(L, Option<R>)> := MergeBlock(last, right, lkey, rkey);
      MergeBlockShape(last, right, lkey, rkey);
      MapSeqConcat(a, b, LeftPart<L, R>);
      var xs, ys := MapSeq(a, LeftPart<L, R>), MapSeq(b, LeftPart<L, R>);
      assert LeftMerge(left, right, lkey, rkey) == a + b;
      assert ys[|ys| - 1] == last;
      SubsequenceSnocRun(init, last, xs, ys);
    }
  }

  /** The row count of a left merge: one row per matching right row, or
      one row when nothing matches. */
  function MergeCount<L, R, K(==)>(left: seq<L>, right: seq<R>, lkey: L -> K, rkey: R -> K): nat {
    if left == [] then 0
    else
      var m := |Matches(lkey(left[|left| - 1]), right, rkey)|;
      MergeCount(left[..|left| - 1], right, lkey, rkey) + (if m == 0 then 1 else m)
  }

  /** A left merge has as many rows as its count says, never fewer than the
      left table. */
  lemma {:induction false} LeftMergeCount<L, R, K>(left: seq<L>, right: seq<R>, lkey: L -> K, rkey: R -> K)
    ensures |LeftMerge(left, right, lkey, rkey)| == MergeCount(left, right, lkey, rkey) >= |left|
  {
    if left != [] {
      LeftMergeCount(left[..|left| - 1], right, lkey, rkey);
      MergeBlockShape(left[|left| - 1], right, lkey, rkey);
    }
  }

  /** No left row matches two or more right rows. */
  predicate MatchesAtMostOnce<L, R, K(==)>(left: seq<L>, right: seq<R>, lkey: L -> K, rkey: R -> K) {
    forall i :: 0 <= i < |left| ==> |Matches(lkey(left[i]), right, rkey)| <= 1
  }

  lemma MatchesAtMostOnceSnoc<L, R, K>(left: seq<L>, right: seq<R>, lkey: L -> K, rkey: R -> K)
    requires left != []
    ensures MatchesAtMostOnce(left, right, lkey, rkey) <==>
              MatchesAtMostOnce(left[..|left| - 1], right, lkey, rkey) && |Matches(lkey(left[|left| - 1]), right, rkey)| <= 1
  {
    var init := left[..|left| - 1];
    if MatchesAtMostOnce(init, right, lkey, rkey) && |Matches(lkey(left[|left| - 1]), right, rkey)| <= 1 {
      forall i | 0 <= i < |left| ensures |Matches(lkey(left[i]), right, rkey)| <= 1 {
        if i < |init| {
          assert init[i] == left[i];
        }
      }
    }
    if MatchesAtMostOnce(left, right, lkey, rkey) {
      forall i | 0 <= i < |init| ensures |Matches(lkey(init[i]), right, rkey)| <= 1 {
        assert init[i] == left[i];
      }
    }
  }

  /** The count equals the left table's size exactly when no left row
      matches two or more right rows. */
  lemma {:induction false} MergeCountExact<L, R, K>(left: seq<L>, right: seq<R>, lkey: L -> K, rkey: R -> K)
    ensures MergeCount(left, right, lkey, rkey) == |left| <==> MatchesAtMostOnce(left, right, lkey, rkey)
  {
    if left != [] {
      var init := left[..|left| - 1];
      MergeCountExact(init, right, lkey, rkey);
      LeftMergeCount(init, right, lkey, rkey);
      MatchesAtMostOnceSnoc(left, right, lkey, rkey);
    }
  }

  /** A merged row has no right part exactly when no right row has its key. */
  lemma {:induction false} LeftMergeUnmatched<L, R, K>(left: seq<L>, right: seq<R>, lkey: L -> K, rkey: R -> K)
    ensures forall j :: 0 <= j < |LeftMerge(left, right, lkey, rkey)| ==>
              (LeftMerge(left, right, lkey, rkey)[j].1.None? <==> !HasKey(right, rkey, lkey(LeftMerge(left, right, lkey, rkey)[j].0)))
  {
    LeftMergeRightFromRight(left, right, lkey, rkey);
    if left != [] {
      var init, last := left[..|left| - 1], left[|left| - 1];
      LeftMergeUnmatched(init, right, lkey, rkey);
      var a: seq<(L, Option<R>)> := LeftMerge(init, right, lkey, rkey);
      var b: seq<(L, Option<R>)> := MergeBlock(last, right, lkey, rkey);
      MergeBlockShape(last, right, lkey, rkey);
      MatchesExact(lkey(last), right, rkey);
      assert LeftMerge(left, right, lkey, rkey) == a + b;
      forall j | 0 <= j < |a + b|
        ensures (a + b)[j].1.None? <==> !HasKey(right, rkey, lkey((a + b)[j].0))
      {
        if j < |a| {
          assert (a + b)[j] == a[j];
        } else {
          assert (a + b)[j] == b[j - |a|];
        }
        if (a + b)[j].1.Some? {
          var c := (a + b)[j].1.value;
          var i :| 0 <= i < |right| && right[i] == c;
          assert rkey(right[i]) == lkey((a + b)[j].0);
        }
      }
    }
  }

  // ---------------------------------------------------------------------
  // groupby(key).cumcount() + 1
  // ---------------------------------------------------------------------

  /** How many of `ks` equal `x`. */
  function Occurrences<K(==)>(ks: seq<K>, x: K): nat {
    if ks == [] then 0
    else Occurrences(ks[..|ks| - 1], x) + (if ks[|ks| - 1] == x then 1 else 0)
  }

  /** `groupby().cumcount() + 1`: row i gets one more than the number of
      earlier rows in its group. */
  function CumCounts<K(==)>(ks: seq<K>): (r: seq<nat>)
    ensures |r| == |ks|
  {
    if ks == [] then []
    else CumCounts(ks[..|ks| - 1]) + [Occurrences(ks[..|ks| - 1], ks[|ks| - 1]) + 1]
  }

  /** The values at the positions whose group is `x`, in row order. */
  function SelectGroup<V, K(==)>(vals: seq<V>, ks: seq<K>, x: K): seq<V>
    requires |vals| == |ks|
  {
    if ks == [] then []
    else
      SelectGroup(vals[..|vals| - 1], ks[..|ks| - 1], x)
        + (if ks[|ks| - 1] == x then [vals[|vals| - 1]] else [])
  }

  /** [1, 2, ..., n] */
  function OneTo(n: nat): (r: seq<nat>)
    ensures |r| == n
    ensures forall i :: 0 <= i < n ==> r[i] == i + 1
  {
    if n == 0 then [] else OneTo(n - 1) + [n]
  }

  /** Within every group the counter reads 1, 2, ..., k in row order, where
      k is the size of the group: no gaps and no repeats. */
  lemma {:induction false} CumCountsRunOneToK<K>(ks: seq<K>, x: K)
    ensures SelectGroup(CumCounts(ks), ks, x) == OneTo(Occurrences(ks, x))
  {
    if ks != [] {
      var init := ks[..|ks| - 1];
      CumCountsRunOneToK(init, x);
      var c := CumCounts(ks);
      assert c[..|c| - 1] == CumCounts(init);
    }
  }

  /** Two value lists that agree wherever the group is `x` select the same
      values for that group. */
  lemma {:induction false} SelectGroupAgree<V, K>(a: seq<V>, b: seq<V>, ks: seq<K>, x: K)
    requires |a| == |b| == |ks|
    requires forall i :: 0 <= i < |ks| && ks[i] == x ==> a[i] == b[i]
    ensures SelectGroup(a, ks, x) == SelectGroup(b, ks, x)
  {
    if ks != [] {
      SelectGroupAgree(a[..|a| - 1], b[..|b| - 1], ks[..|ks| - 1], x);
    }
  }

  // ---------------------------------------------------------------------
  // DataFrame.replace(mapping): exact whole-cell replacement
  // ---------------------------------------------------------------------

  /** A mapping none of whose replacement values is itself a key. */
  predicate NoChains(m: map<string, string>) {
    forall k :: k in m ==> m[k] !in m
  }

  /** The replacement of one string cell: a cell equal to a key is replaced
      by that key's value, any other cell is left alone. */
  function Replace(m: map<string, string>, s: string): string {
    if s in m then m[s] else s
  }

  /** The replacement of a nullable string cell; a missing cell stays missing. */
  function ReplaceCell(m: map<string, string>, c: Option<string>): Option<string> {
    if c.Some? then Some(Replace(m, c.value)) else None
  }

  /** A cell changes only when it equals a key in full, and then becomes
      that key's value; with no chains, replacing twice is replacing once. */
  lemma ReplaceExact(m: map<string, string>, s: string)
    ensures s !in m ==> Replace(m, s) == s
    ensures s in m ==> Replace(m, s) == m[s]
    ensures NoChains(m) ==> Replace(m, Replace(m, s)) == Replace(m, s)
    ensures NoChains(m) ==> ReplaceCell(m, ReplaceCell(m, Some(s))) == ReplaceCell(m, Some(s))
  {
  }
}
