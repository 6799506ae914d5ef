/** Octets, and the few facts about integer intervals that the models share. */
module Bytes {

  type byte = x: int | 0 <= x < 256

  datatype Option<+T> = None | Some(value: T)

  /** The big-endian word at `i`. */
  function Be16(d: seq<byte>, i: nat): (w: int)
    requires i + 1 < |d|
    ensures 0 <= w < 0x1_0000
  {
    256 * (d[i] as int) + d[i + 1] as int
  }

  function Min(a: int, b: int): int {
    if a < b then a else b
  }

  function Max(a: int, b: int): int {
    if a < b then b else a
  }

  predicate Between(lo: int, p: int, hi: int) {
    lo <= p < hi
  }

  /** The positions lo, lo+1, ..., hi-1. */
  function Range(lo: int, hi: int): set<int> {
    set p | lo <= p < hi && Between(lo, p, hi)
  }

  lemma {:induction false} RangeSize(lo: int, hi: int)
    ensures |Range(lo, hi)| == Max(0, hi - lo)
    decreases hi - lo
  {
    if lo < hi {
      RangeSize(lo, hi - 1);
      assert Range(lo, hi) == Range(lo, hi - 1) + {hi - 1};
    } else {
      assert Range(lo, hi) == {};
    }
  }

  /** A map is what is left after dropping some keys, with their values put back. */
  lemma SplitMap<T>(m: map<int, T>, n: map<int, T>)
    requires n.Keys <= m.Keys
    requires forall p :: p in n ==> m[p] == n[p]
    ensures m == (m - n.Keys) + n
  {
    var w := (m - n.Keys) + n;
    assert w.Keys == m.Keys;
    assert forall p :: p in m ==> m[p] == w[p];
  }

  lemma PutBack<T>(m: map<int, T>, r: set<int>, n: map<int, T>, cut: set<int>)
    requires n.Keys <= m.Keys && r <= n.Keys + cut
    requires forall p :: p in n ==> m[p] == n[p]
    ensures ((m - r) + n) - cut == m - cut
  {
    var w := ((m - r) + n) - cut;
    assert w.Keys == m.Keys - cut;
    assert forall p :: p in w ==> w[p] == m[p];
  }

  lemma MapAssoc<T>(m: map<int, T>, n: map<int, T>, o: map<int, T>)
    ensures (m + n) + o == m + (n + o)
  {
    assert ((m + n) + o).Keys == (m + (n + o)).Keys;
  }

  /** How many of the positions lie in [s, e). */
  function Meet(x: set<int>, s: int, e: int): nat {
    |x * Range(s, e)|
  }

  lemma MeetSize(z: set<int>, x: set<int>, k: int, l: int, s: int, e: int)
    requires z == x + Range(k, l) && x !! Range(k, l)
    ensures Meet(z, s, e) == Meet(x, s, e) + Max(0, Min(l, e) - Max(k, s))
  {
    var y, w := Range(k, l), Range(s, e);
    RangeMeet(k, l, s, e);
    hide Range;
    assert z * w == x * w + y * w;
  }

  lemma RangeMeet(k: int, l: int, s: int, e: int)
    ensures |Range(k, l) * Range(s, e)| == Max(0, Min(l, e) - Max(k, s))
  {
    assert Range(k, l) * Range(s, e) == Range(Max(k, s), Min(l, e));
    RangeSize(Max(k, s), Min(l, e));
  }

  lemma MeetFull(x: set<int>, s: int, e: int)
    requires s <= e
    ensures Meet(x, s, e) <= e - s
    ensures Meet(x, s, e) == e - s <==> Range(s, e) <= x
  {
    RangeSize(s, e);
    var r := Range(s, e);
    assert x * r + (r - x) == r;
    assert r - x == {} <==> r <= x;
  }

  lemma ReplaceSize(y: set<int>, x: set<int>, r: set<int>)
    requires y == (x - r) + r
    ensures |y| == |x| + |r| - |x * r|
  {
    assert x == (x - r) + x * r;
  }

  lemma MeetIs(x: set<int>, s: int, e: int)
    ensures Meet(x, s, e) == |x * Range(s, e)|
  {
  }

  lemma MaxIs(n: nat)
    ensures Max(0, n) == n
  {
  }
}
