/**
 The out-of-order cache of one flow, as a finite map from stream positions to bytes plus a set of FIN marks.

 A cache is a map from the position of a segment's first byte to the segment; positions are unbounded.  The
 engine keys the same segments by 32-bit sequence number; `Lift` relates the two forms.
 */
module OooCache {
  import opened Bytes
  import opened SeqNum

  datatype Segment = Segment(data: seq<byte>, fin: bool)

  type Cache = map<int, Segment>

  function End(a: Cache, k: int): int
    requires k in a
  {
    k + |a[k].data|
  }

  ghost predicate Covers(a: Cache, k: int, p: int) {
    k in a && k <= p < End(a, k)
  }

  /** No segment starts inside another, and a segment without data is a FIN mark. */
  ghost predicate Apart(a: Cache) {
    && (forall k :: k in a ==> |a[k].data| > 0 || a[k].fin)
    && (forall k, l :: k in a && l in a && k < l ==> End(a, k) <= l)
  }

  /** Touching segments were merged, unless a FIN mark separates them. */
  ghost predicate Coalesced(a: Cache) {
    forall k, l :: k in a && l in a && k != l && End(a, k) == l ==> a[k].fin && |a[l].data| > 0
  }

  ghost function Domain(a: Cache): set<int> {
    set k, p | k in a && p in Range(k, End(a, k)) :: p
  }

  ghost function ByteAt(a: Cache, p: int): byte
    requires p in Domain(a)
  {
    var k :| k in a && p in Range(k, End(a, k));
    a[k].data[p - k]
  }

  /** The bytes held, by position. */
  ghost function Content(a: Cache): map<int, byte> {
    map p | p in Domain(a) :: ByteAt(a, p)
  }

  /** The positions marked as the end of the peer's stream. */
  ghost function Fins(a: Cache): set<int> {
    set k | k in a && a[k].fin :: End(a, k)
  }

  lemma ContentAt(a: Cache, k: int, p: int)
    requires Apart(a) && Covers(a, k, p)
    ensures p in Content(a) && Content(a)[p] == a[k].data[p - k]
  {
    assert p in Range(k, End(a, k));
  }

  lemma ContentFrom(a: Cache, p: int) returns (k: int)
    requires p in Content(a)
    ensures Covers(a, k, p)
    ensures Content(a)[p] == a[k].data[p - k]
  {
    k :| Covers(a, k, p) && ByteAt(a, p) == a[k].data[p - k];
  }

  ghost predicate Covered(a: Cache, p: int) {
    exists k :: Covers(a, k, p)
  }

  /** The content is determined by what the segments say, position by position. */
  lemma ContentIs(a: Cache, m: map<int, byte>)
    requires Apart(a)
    requires forall k, p :: Covers(a, k, p) ==> p in m && m[p] == a[k].data[p - k]
    requires forall p :: p in m ==> Covered(a, p)
    ensures Content(a) == m
  {
    forall p | p in Content(a)
      ensures p in m && m[p] == Content(a)[p]
    {
      var k := ContentFrom(a, p);
    }
    forall p | p in m
      ensures p in Content(a)
    {
      var k :| Covers(a, k, p);
      ContentAt(a, k, p);
    }
  }

  lemma Erase(a: Cache, k: int)
    requires Apart(a) && k in a
    ensures Apart(a - {k})
    ensures Content(a - {k}) == Content(a) - Range(k, End(a, k))
  {
    var b := a - {k};
    assert Apart(b);
    var m := Content(a) - Range(k, End(a, k));
    forall l, p | Covers(b, l, p)
      ensures p in m && m[p] == b[l].data[p - l]
    {
      ContentAt(a, l, p);
    }
    forall p | p in m
      ensures Covered(b, p)
    {
      var l := ContentFrom(a, p);
      assert Covers(b, l, p);
    }
    hide *;
    ContentIs(b, m);
  }

  lemma EraseSize(a: Cache, k: int)
    requires Apart(a) && k in a
    ensures |Content(a - {k})| == |Content(a)| - |a[k].data|
  {
    Erase(a, k);
    forall p | p in Range(k, End(a, k)) ensures p in Content(a) { ContentAt(a, k, p); }
    RemoveSize(Content(a), k, End(a, k));
  }

  lemma RemoveSize(m: map<int, byte>, lo: int, hi: int)
    requires lo <= hi && Range(lo, hi) <= m.Keys
    ensures |m - Range(lo, hi)| == |m| - (hi - lo)
  {
    RangeSize(lo, hi);
    var r := Range(lo, hi);
    assert (m - r).Keys == m.Keys - r;
    assert m.Keys == (m.Keys - r) + r;
  }

  predicate Within(k: int, data: seq<byte>, p: int) {
    k <= p < k + |data|
  }

  /** `data` laid out from position `k`. */
  function Placed(k: int, data: seq<byte>): map<int, byte> {
    map p | k <= p < k + |data| && Within(k, data, p) :: data[p - k]
  }

  /** `m` with the positions from `k` on replaced by `data`. */
  function Overlay(m: map<int, byte>, k: int, data: seq<byte>): map<int, byte> {
    (m - Range(k, k + |data|)) + Placed(k, data)
  }

  /** A segment contributes its bytes, and nothing else. */
  lemma Contribution(b: Cache, k: int)
    requires k in b && Apart(b)
    ensures Content(b) == Content(b - {k}) + Placed(k, b[k].data)
  {
    hide *;
    EndIs(b, k);
    assert b[k].data[0..|b[k].data|] == b[k].data;
    ContentOf(b, k, k, End(b, k));
    PlacedKeys(k, b[k].data);
    Erase(b, k);
    SplitMap(Content(b), Placed(k, b[k].data));
  }

  lemma Insert(a: Cache, k: int, seg: Segment)
    requires k !in a && Apart(a[k := seg])
    ensures Apart(a)
    ensures Content(a[k := seg]) == Content(a) + Placed(k, seg.data)
    ensures |Content(a[k := seg])| == |Content(a)| + |seg.data|
  {
    hide *;
    Contribution(a[k := seg], k);
    Erase(a[k := seg], k);
    EraseSize(a[k := seg], k);
    assert a[k := seg] - {k} == a;
  }

  lemma EndIs(a: Cache, k: int)
    requires k in a
    ensures End(a, k) == k + |a[k].data|
  {
  }

  lemma PlacedKeys(k: int, data: seq<byte>)
    ensures Placed(k, data).Keys == Range(k, k + |data|)
  {
  }

  /** Part [lo, hi) of segment `k`, read back from the content. */
  lemma ContentOf(a: Cache, k: int, lo: int, hi: int)
    requires Apart(a) && k in a && k <= lo <= hi <= End(a, k)
    ensures Placed(lo, a[k].data[lo - k..hi - k]).Keys <= Content(a).Keys
    ensures forall p :: p in Placed(lo, a[k].data[lo - k..hi - k]) ==>
                          Content(a)[p] == Placed(lo, a[k].data[lo - k..hi - k])[p]
  {
    var n := Placed(lo, a[k].data[lo - k..hi - k]);
    forall p | p in n
      ensures p in Content(a) && Content(a)[p] == n[p]
    {
      ContentAt(a, k, p);
    }
  }

  // ---- trimming one cached segment against an incoming range [s, e) ----

  /** The cached segment shares data with [s, e), or is a bare FIN mark inside it. */
  predicate Collides(a: Cache, k: int, s: int, e: int)
    requires k in a
  {
    || Max(k, s) < Min(End(a, k), e)
    || (a[k].data == [] && a[k].fin && s <= k < e)
  }

  predicate Spans(a: Cache, k: int, s: int, e: int)
    requires k in a
  {
    k < s && End(a, k) > e
  }

  /** Cut the part of segment `k` that lies in [s, e). */
  function Cut(a: Cache, k: int, s: int, e: int): Cache
    requires k in a && s < e && !Spans(a, k, s, e)
  {
    if !Collides(a, k, s, e) then a
    else if k < s then a[k := Segment(a[k].data[..s - k], false)]
    else if End(a, k) > e then (a - {k})[e := Segment(a[k].data[e - k..], a[k].fin)]
    else a - {k}
  }

  lemma CutKeepsApart(a: Cache, k: int, s: int, e: int)
    requires Apart(a) && k in a && s < e && !Spans(a, k, s, e)
    ensures Apart(Cut(a, k, s, e))
    ensures Collides(a, k, s, e) && k >= s && End(a, k) > e ==> e !in a
  {
  }

  lemma CutKeepsCoalesced(a: Cache, k: int, s: int, e: int)
    requires Apart(a) && Coalesced(a) && k in a && s < e && !Spans(a, k, s, e)
    ensures Coalesced(Cut(a, k, s, e))
  {
    hide Apart;
    var b := Cut(a, k, s, e);
    forall p, q | p in b && q in b && p != q && End(b, p) == q ensures b[p].fin && |b[q].data| > 0 {
      CutPair(a, k, s, e, p, q);
    }
  }

  /** Two segments that touch after a cut touched before it, or the cut moved one of them away from the other. */
  lemma CutPair(a: Cache, k: int, s: int, e: int, p: int, q: int)
    requires Apart(a) && Coalesced(a) && k in a && s < e && !Spans(a, k, s, e)
    requires p in Cut(a, k, s, e) && q in Cut(a, k, s, e) && p != q && End(Cut(a, k, s, e), p) == q
    ensures Cut(a, k, s, e)[p].fin && |Cut(a, k, s, e)[q].data| > 0
  {
    var b := Cut(a, k, s, e);
    if p in a && b[p] == a[p] && q in a && b[q] == a[q] {
      assert End(a, p) == q;
    }
  }

  lemma CutContent(a: Cache, k: int, s: int, e: int)
    requires Apart(a) && k in a && s < e && !Spans(a, k, s, e)
    ensures Content(Cut(a, k, s, e)) - Range(s, e) == Content(a) - Range(s, e)
  {
    hide Content, Apart;
    if Collides(a, k, s, e) {
      CutKeepsApart(a, k, s, e);
      Erase(a, k);
      if k < s {
        var seg := Segment(a[k].data[..s - k], false);
        assert a[k := seg] == (a - {k})[k := seg];
        Recut(a, k, k, s, s, e, seg);
      } else if End(a, k) > e {
        Recut(a, k, e, End(a, k), s, e, Segment(a[k].data[e - k..], a[k].fin));
      } else {
        PutBack(Content(a), Range(k, End(a, k)), map[], Range(s, e));
      }
    }
  }

  lemma Recut(a: Cache, k: int, lo: int, hi: int, s: int, e: int, seg: Segment)
    requires Apart(a) && k in a && k <= lo <= hi <= End(a, k)
    requires seg.data == a[k].data[lo - k..hi - k]
    requires lo !in a - {k} && Apart((a - {k})[lo := seg])
    requires Range(k, End(a, k)) <= Range(lo, hi) + Range(s, e)
    ensures Content((a - {k})[lo := seg]) - Range(s, e) == Content(a) - Range(s, e)
  {
    hide *;
    EndIs(a, k);
    Erase(a, k);
    Insert(a - {k}, lo, seg);
    ContentOf(a, k, lo, hi);
    PlacedKeys(lo, seg.data);
    PutBack(Content(a), Range(k, End(a, k)), Placed(lo, seg.data), Range(s, e));
  }

  /** No cached segment reaches into [s, e) any more. */
  predicate Settled(a: Cache, k: int, s: int, e: int)
    requires k in a
  {
    k >= e || (k < s && End(a, k) <= s)
  }

  lemma CutSettles(a: Cache, k: int, s: int, e: int)
    requires Apart(a) && k in a && s < e && !Spans(a, k, s, e)
    ensures k in Cut(a, k, s, e) ==> Settled(Cut(a, k, s, e), k, s, e)
    ensures forall l :: l in Cut(a, k, s, e) && l != k ==>
                          (l in a && a[l] == Cut(a, k, s, e)[l]) || l == e
    ensures |Cut(a, k, s, e)| <= |a|
  {
    if Collides(a, k, s, e) && k >= s && End(a, k) > e {
      assert e !in a - {k};
      assert |(a - {k}).Keys| == |a.Keys - {k}| by { assert (a - {k}).Keys == a.Keys - {k}; }
      assert Cut(a, k, s, e).Keys == (a - {k}).Keys + {e};
    } else if Collides(a, k, s, e) && k < s {
      assert Cut(a, k, s, e).Keys == a.Keys;
    } else if Collides(a, k, s, e) {
      assert (a - {k}).Keys == a.Keys - {k};
    }
  }

  /** A FIN mark at `s` carried by a segment with data. */
  ghost predicate FinBefore(a: Cache, s: int) {
    exists k :: k in a && a[k].fin && a[k].data != [] && End(a, k) == s
  }

  lemma CutFins(a: Cache, k: int, s: int, e: int)
    requires Apart(a) && k in a && s < e && !Spans(a, k, s, e)
    ensures Fins(Cut(a, k, s, e)) <= Fins(a)
    ensures forall p :: p in Fins(a) && !(s <= p <= e) ==> p in Fins(Cut(a, k, s, e))
  {
    var b := Cut(a, k, s, e);
    forall p | p in Fins(a) && !(s <= p <= e)
      ensures p in Fins(b)
    {
      var l :| l in a && a[l].fin && End(a, l) == p;
      assert l != k ==> l in b && b[l] == a[l];
      assert l == k && k >= s && End(a, k) > e && k < e ==> b[e].fin && End(b, e) == p;
    }
  }

  lemma CutFinBefore(a: Cache, k: int, s: int, e: int)
    requires Apart(a) && k in a && s < e && !Spans(a, k, s, e)
    ensures FinBefore(a, s) <==> FinBefore(Cut(a, k, s, e), s)
  {
    var b := Cut(a, k, s, e);
    if FinBefore(a, s) {
      var l :| l in a && a[l].fin && a[l].data != [] && End(a, l) == s;
      assert l in b && b[l] == a[l];
    }
  }

  // ---- merging touching segments ----

  predicate Touch(a: Cache, k: int, l: int) {
    k in a && l in a && k != l && End(a, k) == l
  }

  /** Append segment `l` to segment `k`. */
  function Fused(a: Cache, k: int, l: int): Cache
    requires Touch(a, k, l)
  {
    (a - {l})[k := Segment(a[k].data + a[l].data, a[l].fin)]
  }

  lemma FuseKeeps(a: Cache, k: int, l: int)
    requires Apart(a) && Touch(a, k, l) && !a[k].fin
    ensures Apart(Fused(a, k, l))
    ensures Fins(Fused(a, k, l)) == Fins(a)
    ensures |Fused(a, k, l)| == |a| - 1
  {
    hide *;
    FuseApart(a, k, l);
    FuseFins(a, k, l);
    FuseSize(a, k, l);
  }

  lemma FuseSize(a: Cache, k: int, l: int)
    requires Touch(a, k, l)
    ensures |Fused(a, k, l)| == |a| - 1
  {
    assert Fused(a, k, l).Keys == a.Keys - {l};
  }

  lemma FuseApart(a: Cache, k: int, l: int)
    requires Apart(a) && Touch(a, k, l)
    ensures Apart(Fused(a, k, l))
  {
    var b := Fused(a, k, l);
    assert End(b, k) == End(a, l);
    forall p, q | p in b && q in b && p < q ensures End(b, p) <= q {
      assert p in a && q in a;
    }
  }

  lemma FuseFins(a: Cache, k: int, l: int)
    requires Touch(a, k, l) && !a[k].fin
    ensures Fins(Fused(a, k, l)) == Fins(a)
  {
    var b := Fused(a, k, l);
    assert End(b, k) == End(a, l);
    forall p | p in Fins(a) ensures p in Fins(b) {
      var m :| m in a && a[m].fin && End(a, m) == p;
      assert m != l ==> m in b && b[m] == a[m];
    }
    forall p | p in Fins(b) ensures p in Fins(a) {
      var m :| m in b && b[m].fin && End(b, m) == p;
      assert m != k ==> m in a && b[m] == a[m];
    }
  }

  lemma FuseParts(a: Cache, k: int, l: int)
    requires Touch(a, k, l)
    ensures l in a && k in a - {l} && (a - {l})[k] == a[k] && l == k + |a[k].data|
    ensures k in Fused(a, k, l) && Fused(a, k, l)[k].data == a[k].data + a[l].data
    ensures Fused(a, k, l) - {k} == (a - {l}) - {k}
  {
  }

  lemma FuseContent(a: Cache, k: int, l: int)
    requires Apart(a) && Touch(a, k, l) && !a[k].fin
    ensures Content(Fused(a, k, l)) == Content(a)
  {
    hide *;
    FuseKeeps(a, k, l);
    FuseParts(a, k, l);
    var x, y := a[k].data, a[l].data;
    var base := Content((a - {l}) - {k});
    Erase(a, l);
    Contribution(a, l);
    Contribution(a - {l}, k);
    Contribution(Fused(a, k, l), k);
    assert Content(a) == (base + Placed(k, x)) + Placed(l, y);
    PlacedSum(k, x, y);
    MapAssoc(base, Placed(k, x), Placed(l, y));
  }

  lemma PlacedSum(k: int, x: seq<byte>, y: seq<byte>)
    ensures Placed(k, x + y) == Placed(k, x) + Placed(k + |x|, y)
  {
    var m := Placed(k, x) + Placed(k + |x|, y);
    assert Placed(k, x + y).Keys == m.Keys;
    assert forall p :: p in m ==> m[p] == Placed(k, x + y)[p];
  }

  /** A bare FIN mark right behind a segment that already ends in FIN says nothing new. */
  lemma DropEcho(a: Cache, k: int, l: int)
    requires Apart(a) && Touch(a, k, l) && a[k].fin && a[l].data == []
    ensures Apart(a - {l})
    ensures Content(a - {l}) == Content(a)
    ensures Fins(a - {l}) == Fins(a)
    ensures |a - {l}| == |a| - 1
  {
    assert (a - {l}).Keys == a.Keys - {l};
    EchoFins(a, k, l);
    assert Range(l, End(a, l)) == {};
    hide Content, Fins;
    Erase(a, l);
    assert Content(a) - {} == Content(a);
  }

  lemma EchoFins(a: Cache, k: int, l: int)
    requires Touch(a, k, l) && a[k].fin && a[l].data == []
    ensures Fins(a - {l}) == Fins(a)
  {
    var b := a - {l};
    assert b[k] == a[k] && End(b, k) == End(a, l) && End(b, k) in Fins(b);
    forall p | p in Fins(a)
      ensures p in Fins(b)
    {
      var m :| m in a && a[m].fin && End(a, m) == p;
      assert m != l ==> m in b && b[m] == a[m];
    }
  }

  // ---- counting the overlap ----

  lemma InsertKeys(a: Cache, k: int, seg: Segment)
    requires k !in a && Apart(a[k := seg])
    ensures Content(a[k := seg]).Keys == Content(a).Keys + Range(k, k + |seg.data|)
    ensures Content(a).Keys !! Range(k, k + |seg.data|)
  {
    hide *;
    Insert(a, k, seg);
    PlacedKeys(k, seg.data);
    EndIs(a[k := seg], k);
    Erase(a[k := seg], k);
    assert a[k := seg] - {k} == a;
  }

  lemma OverlapStep(a: Cache, k: int, seg: Segment, s: int, e: int)
    requires k !in a && Apart(a[k := seg])
    ensures Meet(Content(a[k := seg]).Keys, s, e)
         == Meet(Content(a).Keys, s, e) + Max(0, Min(k + |seg.data|, e) - Max(k, s))
  {
    hide *;
    InsertKeys(a, k, seg);
    MeetSize(Content(a[k := seg]).Keys, Content(a).Keys, k, k + |seg.data|, s, e);
  }

  lemma SpanCovers(a: Cache, k: int, s: int, e: int)
    requires Apart(a) && k in a && s < e && Spans(a, k, s, e)
    ensures Range(s, e) <= Content(a).Keys
  {
    forall p | p in Range(s, e) ensures p in Content(a) { ContentAt(a, k, p); }
  }
}
