/** Sums over the values of a finite map, and lists without repetition. */
module Sums {

  ghost function Pick(s: set<int>): (k: int)
    requires s != {}
    ensures k in s
  {
    Inhabited(s);
    var x :| x in s;
    x
  }

  lemma Inhabited(s: set<int>)
    ensures s == {} || exists x :: x in s
  {
    if forall x :: x !in s { assert s == {}; }
  }

  ghost function Sum(m: map<int, nat>): nat
    decreases |m|
  {
    if m.Keys == {} then 0 else
      var k := Pick(m.Keys);
      m[k] + Sum(m - {k})
  }

  lemma {:induction false} SumWith(m: map<int, nat>, k: int)
    requires k in m
    ensures Sum(m) == m[k] + Sum(m - {k})
    decreases |m|
  {
    var j := Pick(m.Keys);
    if j != k {
      SumWith(m - {j}, k);
      SumWith(m - {k}, j);
      assert m - {j} - {k} == m - {k} - {j};
    }
  }

  lemma SumUpdate(m: map<int, nat>, k: int, v: nat)
    ensures Sum(m[k := v]) == Sum(m - {k}) + v
  {
    SumWith(m[k := v], k);
    assert m[k := v] - {k} == m - {k};
  }

  lemma SumAbsent(m: map<int, nat>, k: int)
    requires k !in m
    ensures m - {k} == m
  {
  }

  predicate Distinct<T(==)>(q: seq<T>) {
    forall i, j :: 0 <= i < j < |q| ==> q[i] != q[j]
  }

  /** `q` without `x`. */
  function Without<T(==)>(q: seq<T>, x: T): seq<T> {
    if q == [] then [] else
      var rest := Without(q[..|q| - 1], x);
      if q[|q| - 1] == x then rest else rest + [q[|q| - 1]]
  }

  lemma {:induction false} WithoutSays<T>(q: seq<T>, x: T)
    requires Distinct(q)
    ensures |Without(q, x)| <= |q| && Distinct(Without(q, x))
    ensures forall i :: 0 <= i < |Without(q, x)| ==> Without(q, x)[i] in q && Without(q, x)[i] != x
    ensures forall i :: 0 <= i < |q| && q[i] != x ==> q[i] in Without(q, x)
    decreases |q|
  {
    if q != [] {
      var n := |q| - 1;
      var p, d := q[..n], Without(q[..n], x);
      WithoutSays(p, x);
      assert q[n] !in p;
      forall i | 0 <= i < n && q[i] != x ensures q[i] in d { assert p[i] == q[i]; }
      if q[n] != x { assert Without(q, x) == d + [q[n]]; }
    }
  }
}
