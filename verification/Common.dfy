/** Small shared vocabulary: an optional value, sums over a map, sizes of sets, and lists without duplicates. */
module Common {

  datatype Option<+T> = None | Some(value: T)

  /** The sum of f over all values of m. */
  ghost function Sum<V(!new)>(m: map<nat, V>, f: V -> int): int
    decreases |m|
  {
    if m == map[] then 0
    else
      var k :| k in m;
      f(m[k]) + Sum(m - {k}, f)
  }

  /** Any entry may be split off a sum. */
  lemma {:induction false} SumSplit<V(!new)>(m: map<nat, V>, f: V -> int, k: nat)
    requires k in m
    ensures Sum(m, f) == f(m[k]) + Sum(m - {k}, f)
    decreases |m|
  {
    var j :| j in m && Sum(m, f) == f(m[j]) + Sum(m - {j}, f);
    if j != k {
      SumSplit(m - {j}, f, k);
      SumSplit(m - {k}, f, j);
      assert m - {j} - {k} == m - {k} - {j};
    }
  }

  lemma SumUpdate<V(!new)>(m: map<nat, V>, f: V -> int, k: nat, v: V)
    ensures Sum(m[k := v], f) == (if k in m then Sum(m, f) - f(m[k]) else Sum(m, f)) + f(v)
  {
    var m' := m[k := v];
    SumSplit(m', f, k);
    if k in m {
      SumSplit(m, f, k);
      assert m' - {k} == m - {k};
    } else {
      assert m' - {k} == m;
    }
  }

  lemma {:induction false} SumNonNegative<V(!new)>(m: map<nat, V>, f: V -> int)
    requires forall k :: k in m ==> f(m[k]) >= 0
    ensures Sum(m, f) >= 0
    decreases |m|
  {
    if m != map[] {
      var k :| k in m && Sum(m, f) == f(m[k]) + Sum(m - {k}, f);
      SumNonNegative(m - {k}, f);
    }
  }

  lemma {:induction false} SumZero<V(!new)>(m: map<nat, V>, f: V -> int)
    requires forall k :: k in m ==> f(m[k]) == 0
    ensures Sum(m, f) == 0
    decreases |m|
  {
    if m != map[] {
      var k :| k in m && Sum(m, f) == f(m[k]) + Sum(m - {k}, f);
      SumZero(m - {k}, f);
    }
  }

  /** A sum of naturals is at least the number of entries that add to it. */
  lemma {:induction false} SumAtLeast<V(!new)>(m: map<nat, V>, f: V -> int, ids: set<nat>)
    requires forall k :: k in m ==> f(m[k]) >= 0
    requires forall k :: k in ids ==> k in m && f(m[k]) >= 1
    ensures |ids| <= Sum(m, f)
    decreases |ids|
  {
    if ids == {} {
      SumNonNegative(m, f);
    } else {
      var k :| k in ids;
      SumSplit(m, f, k);
      SumAtLeast(m - {k}, f, ids - {k});
    }
  }

  /** A sum is at most the number of entries that add to it, if each adds at most one. */
  lemma {:induction false} SumAtMost<V(!new)>(m: map<nat, V>, f: V -> int, ids: set<nat>)
    requires forall k :: k in m ==> f(m[k]) <= if k in ids then 1 else 0
    ensures Sum(m, f) <= |ids|
    decreases |m|
  {
    if m != map[] {
      var k :| k in m && Sum(m, f) == f(m[k]) + Sum(m - {k}, f);
      SumAtMost(m - {k}, f, ids - {k});
    }
  }

  lemma SubsetSize(a: set<nat>, b: set<nat>)
    requires a <= b
    ensures |a| <= |b|
  {
    assert b == a + (b - a);
  }

  ghost predicate NoDuplicates<T>(s: seq<T>) {
    forall i, j :: 0 <= i < j < |s| ==> s[i] != s[j]
  }

  /** The numbers below n. */
  ghost function Range(n: nat): (r: set<nat>)
    ensures |r| == n && forall x: nat :: x in r <==> x < n
  {
    if n == 0 then {} else Range(n - 1) + {n - 1}
  }
}
