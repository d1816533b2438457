/**
  Totals over tables. A table keyed by a caller-chosen key is a map, an append-only
  table is a sequence whose indices are the generated row ids.
 */
module Sums {

  /** SELECT SUM(w) over the rows of a keyed table. */
  ghost function Over<K, V>(m: map<K, V>, w: (K, V) -> int): int
    decreases |m|
  {
    if m == map[] then 0
    else var k :| k in m; w(k, m[k]) + Over(m - {k}, w)
  }

  lemma {:induction false} OverRemove<K, V>(m: map<K, V>, w: (K, V) -> int, k: K)
    requires k in m
    ensures Over(m, w) == w(k, m[k]) + Over(m - {k}, w)
    decreases |m|
  {
    var j :| j in m && Over(m, w) == w(j, m[j]) + Over(m - {j}, w);
    if j != k {
      OverRemove(m - {j}, w, k);
      OverRemove(m - {k}, w, j);
      assert m - {j} - {k} == m - {k} - {j};
    }
  }

  lemma OverUpdate<K, V>(m: map<K, V>, w: (K, V) -> int, k: K, v: V)
    ensures Over(m[k := v], w) == Over(m, w) - (if k in m then w(k, m[k]) else 0) + w(k, v)
  {
    OverRemove(m[k := v], w, k);
    if k in m {
      OverRemove(m, w, k);
      assert m[k := v] - {k} == m - {k};
    } else {
      assert m[k := v] - {k} == m;
    }
  }

  lemma {:induction false} OverMonotone<K, V>(m: map<K, V>, n: map<K, V>, w: (K, V) -> int, u: (K, V) -> int)
    requires m.Keys == n.Keys
    requires forall k | k in m :: w(k, m[k]) <= u(k, n[k])
    ensures Over(m, w) <= Over(n, u)
    decreases |m|
  {
    if m != map[] {
      var k :| k in m;
      OverRemove(m, w, k);
      OverRemove(n, u, k);
      OverMonotone(m - {k}, n - {k}, w, u);
    } else {
      assert n == map[];
    }
  }

  lemma OverCongruent<K, V>(m: map<K, V>, n: map<K, V>, w: (K, V) -> int, u: (K, V) -> int)
    requires m.Keys == n.Keys
    requires forall k | k in m :: w(k, m[k]) == u(k, n[k])
    ensures Over(m, w) == Over(n, u)
  {
    OverMonotone(m, n, w, u);
    OverMonotone(n, m, u, w);
  }

  lemma {:induction false} OverNonNegative<K, V>(m: map<K, V>, w: (K, V) -> int)
    requires forall k | k in m :: 0 <= w(k, m[k])
    ensures 0 <= Over(m, w)
    decreases |m|
  {
    if m != map[] {
      var k :| k in m;
      OverRemove(m, w, k);
      OverNonNegative(m - {k}, w);
    }
  }

  lemma {:induction false} OverZero<K, V>(m: map<K, V>, w: (K, V) -> int)
    requires forall k | k in m :: w(k, m[k]) == 0
    ensures Over(m, w) == 0
    decreases |m|
  {
    if m != map[] {
      var k :| k in m;
      OverRemove(m, w, k);
      OverZero(m - {k}, w);
    }
  }

  lemma {:induction false} OverAdd<K, V>(m: map<K, V>, w: (K, V) -> int, u: (K, V) -> int, v: (K, V) -> int)
    requires forall k | k in m :: v(k, m[k]) == w(k, m[k]) + u(k, m[k])
    ensures Over(m, v) == Over(m, w) + Over(m, u)
    decreases |m|
  {
    if m != map[] {
      var k :| k in m;
      OverRemove(m, w, k);
      OverRemove(m, u, k);
      OverRemove(m, v, k);
      OverAdd(m - {k}, w, u, v);
    }
  }

  /** The database's aggregate query, as a loop over the rows. */
  method Query<K(==), V>(m: map<K, V>, w: (K, V) -> int) returns (total: int)
    ensures total == Over(m, w)
  {
    total := 0;
    var rest := m;
    while rest.Keys != {}
      invariant total + Over(rest, w) == Over(m, w)
      decreases |rest|
    {
      var k :| k in rest.Keys;
      OverRemove(rest, w, k);
      total := total + w(k, rest[k]);
      rest := rest - {k};
    }
    assert rest == map[];
  }

  /** SELECT SUM(w) over an append-only table. */
  function Of<T>(s: seq<T>, w: T -> int): int {
    if s == [] then 0 else Of(s[..|s| - 1], w) + w(s[|s| - 1])
  }

  lemma OfAppend<T>(s: seq<T>, x: T, w: T -> int)
    ensures Of(s + [x], w) == Of(s, w) + w(x)
  {
    assert (s + [x])[..|s|] == s;
  }

  lemma {:induction false} OfUpdate<T>(s: seq<T>, i: nat, x: T, w: T -> int)
    requires i < |s|
    ensures Of(s[i := x], w) == Of(s, w) - w(s[i]) + w(x)
  {
    var n := |s| - 1;
    if i == n {
      assert s[i := x][..n] == s[..n];
    } else {
      assert s[i := x][..n] == s[..n][i := x];
      OfUpdate(s[..n], i, x, w);
    }
  }

  lemma {:induction false} OfCongruent<T>(s: seq<T>, t: seq<T>, w: T -> int, u: T -> int)
    requires |s| == |t|
    requires forall i | 0 <= i < |s| :: w(s[i]) == u(t[i])
    ensures Of(s, w) == Of(t, u)
  {
    if s != [] {
      OfCongruent(s[..|s| - 1], t[..|t| - 1], w, u);
    }
  }

  lemma {:induction false} OfZero<T>(s: seq<T>, w: T -> int)
    requires forall i | 0 <= i < |s| :: w(s[i]) == 0
    ensures Of(s, w) == 0
  {
    if s != [] {
      OfZero(s[..|s| - 1], w);
    }
  }

  lemma {:induction false} OfBounds<T>(s: seq<T>, w: T -> int)
    requires forall i | 0 <= i < |s| :: 0 <= w(s[i])
    ensures 0 <= Of(s, w)
    ensures forall i | 0 <= i < |s| :: w(s[i]) <= Of(s, w)
  {
    if s != [] {
      OfBounds(s[..|s| - 1], w);
    }
  }

  lemma {:induction false} OfAdd<T>(s: seq<T>, w: T -> int, u: T -> int, v: T -> int)
    requires forall i | 0 <= i < |s| :: v(s[i]) == w(s[i]) + u(s[i])
    ensures Of(s, v) == Of(s, w) + Of(s, u)
  {
    if s != [] {
      OfAdd(s[..|s| - 1], w, u, v);
    }
  }

  lemma {:induction false} OfConcat<T>(s: seq<T>, t: seq<T>, w: T -> int)
    ensures Of(s + t, w) == Of(s, w) + Of(t, w)
  {
    if t == [] {
      assert s + t == s;
    } else {
      assert (s + t)[..|s + t| - 1] == s + t[..|t| - 1];
      OfConcat(s, t[..|t| - 1], w);
    }
  }
}
