/** Small shared vocabulary: options, occurrence counts, sums over sequences and maps, pigeonhole. */
module Util {
  datatype Option<+T> = None | Some(value: T)

  function Bit(b: bool): nat {
    if b then 1 else 0
  }

  /** How often `x` occurs in `q`. */
  function Occ<T(==)>(q: seq<T>, x: T): nat {
    if q == [] then 0 else (if q[0] == x then 1 else 0) + Occ(q[1..], x)
  }

  lemma {:induction false} OccAppend<T>(q: seq<T>, y: T, x: T)
    ensures Occ(q + [y], x) == Occ(q, x) + (if x == y then 1 else 0)
  {
    if q == [] {
      assert q + [y] == [y];
    } else {
      assert (q + [y])[1..] == q[1..] + [y];
      OccAppend(q[1..], y, x);
    }
  }

  lemma {:induction false} OccIn<T>(q: seq<T>, x: T)
    ensures x in q <==> Occ(q, x) > 0
  {
    if q != [] {
      assert q == [q[0]] + q[1..];
      OccIn(q[1..], x);
    }
  }

  /** Total weight of a sequence. */
  ghost function Sum<T>(q: seq<T>, f: T -> nat): nat {
    if q == [] then 0 else f(q[0]) + Sum(q[1..], f)
  }

  lemma {:induction false} SumUpdate<T>(q: seq<T>, i: nat, x: T, f: T -> nat)
    requires i < |q|
    ensures Sum(q[i := x], f) + f(q[i]) == Sum(q, f) + f(x)
  {
    if i == 0 {
      assert q[0 := x][1..] == q[1..];
    } else {
      assert q[i := x][1..] == q[1..][i - 1 := x];
      SumUpdate(q[1..], i - 1, x, f);
    }
  }

  lemma {:induction false} SumAtLeast<T>(q: seq<T>, i: nat, f: T -> nat)
    requires i < |q|
    ensures f(q[i]) <= Sum(q, f)
  {
    if i != 0 {
      SumAtLeast(q[1..], i - 1, f);
    }
  }

  /** Total weight of the values of a map. */
  ghost function SumMap<K(!new), V>(m: map<K, V>, f: V -> nat): nat
    decreases |m|
  {
    if m == map[] then 0 else
      var k :| k in m;
      f(m[k]) + SumMap(m - {k}, f)
  }

  lemma {:induction false} SumMapRemove<K(!new), V>(m: map<K, V>, k: K, f: V -> nat)
    requires k in m
    ensures SumMap(m, f) == f(m[k]) + SumMap(m - {k}, f)
    decreases |m|
  {
    var j :| j in m && SumMap(m, f) == f(m[j]) + SumMap(m - {j}, f);
    if j != k {
      SumMapRemove(m - {j}, k, f);
      SumMapRemove(m - {k}, j, f);
      assert m - {j} - {k} == m - {k} - {j};
    }
  }

  lemma SumMapUpdate<K(!new), V>(m: map<K, V>, k: K, v: V, f: V -> nat)
    ensures k in m ==> SumMap(m[k := v], f) + f(m[k]) == SumMap(m, f) + f(v)
    ensures k !in m ==> SumMap(m[k := v], f) == SumMap(m, f) + f(v)
  {
    var m' := m[k := v];
    SumMapRemove(m', k, f);
    assert m' - {k} == m - {k};
    if k in m {
      SumMapRemove(m, k, f);
    } else {
      assert m - {k} == m;
    }
  }

  lemma {:induction false} SumMapShrinks<K(!new), V>(m: map<K, V>, ks: set<K>, f: V -> nat)
    ensures SumMap(m - ks, f) <= SumMap(m, f)
    decreases |ks|
  {
    if ks == {} {
      assert m - ks == m;
    } else {
      var k :| k in ks;
      SumMapShrinks(m - {k}, ks - {k}, f);
      assert m - {k} - (ks - {k}) == m - ks;
      if k in m {
        SumMapRemove(m, k, f);
      } else {
        assert m - {k} == m;
      }
    }
  }

  /** The naturals below `n`. */
  function Below(n: nat): (r: set<nat>)
    ensures forall i :: i in r <==> 0 <= i < n
    ensures |r| == n
  {
    if n == 0 then {} else Below(n - 1) + {n - 1}
  }

  lemma SubsetSize<T>(a: set<T>, b: set<T>)
    requires a <= b
    ensures |a| <= |b|
    ensures |a| == |b| ==> a == b
  {
    assert b == a + (b - a);
    assert |b| == |a| + |b - a|;
  }
}
