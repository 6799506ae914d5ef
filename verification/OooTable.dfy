/**
 The out-of-order cache as the engine stores it: a map keyed by 32-bit sequence number and walked in unsigned key
 order.  Every loop is proved against the cache over unbounded positions.
 */
module OooTable {
  import opened Bytes
  import opened SeqNum
  import opened OooCache

  type Table = map<u32, Segment>

  ghost function Places(c: Table, o: int): set<int> {
    set k | k in c :: Unwrap(o, k)
  }

  /** The cache a table stands for when its sequence numbers lie within half a circle of position `o`. */
  ghost function Lift(c: Table, o: int): Cache {
    map p | p in Places(c, o) :: c[Wrap(p)]
  }

  lemma LiftKey(c: Table, o: int, k: u32)
    requires k in c
    ensures Unwrap(o, k) in Lift(c, o) && Lift(c, o)[Unwrap(o, k)] == c[k]
  {
  }

  lemma LiftBack(c: Table, o: int, p: int)
    requires p in Lift(c, o)
    ensures Wrap(p) in c && Unwrap(o, Wrap(p)) == p && Lift(c, o)[p] == c[Wrap(p)]
    ensures o - HALF <= p < o + HALF
  {
  }

  lemma LiftRemove(c: Table, o: int, k: u32)
    ensures Lift(c - {k}, o) == Lift(c, o) - {Unwrap(o, k)}
  {
    var m, n := Lift(c - {k}, o), Lift(c, o) - {Unwrap(o, k)};
    forall p ensures p in m <==> p in n {
      if p in m { LiftBack(c - {k}, o, p); LiftKey(c, o, Wrap(p)); }
      if p in n { LiftBack(c, o, p); LiftKey(c - {k}, o, Wrap(p)); }
    }
    assert m.Keys == n.Keys;
  }

  lemma LiftUpdate(c: Table, o: int, k: u32, seg: Segment)
    ensures Lift(c[k := seg], o) == Lift(c, o)[Unwrap(o, k) := seg]
  {
    var m, n := Lift(c[k := seg], o), Lift(c, o)[Unwrap(o, k) := seg];
    forall p ensures p in m <==> p in n {
      if p in m { LiftBack(c[k := seg], o, p); if Wrap(p) != k { LiftKey(c, o, Wrap(p)); } }
      if p in n { if p != Unwrap(o, k) { LiftBack(c, o, p); } LiftKey(c[k := seg], o, Wrap(p)); }
    }
    assert m.Keys == n.Keys;
  }

  /** The origin may move as long as every cached position stays within half a circle of it. */
  lemma LiftMove(c: Table, o: int, o': int)
    requires forall p :: p in Lift(c, o) ==> o' - HALF <= p < o' + HALF
    ensures Lift(c, o') == Lift(c, o)
  {
    var m, n := Lift(c, o), Lift(c, o');
    forall k | k in c ensures Unwrap(o, k) == Unwrap(o', k) {
      LiftKey(c, o, k);
      UnwrapOfWrap(o', Unwrap(o, k));
    }
    forall p ensures p in m <==> p in n {
      if p in m { LiftBack(c, o, p); LiftKey(c, o', Wrap(p)); }
      if p in n { LiftBack(c, o', p); LiftKey(c, o, Wrap(p)); }
    }
    assert m.Keys == n.Keys;
  }

  lemma LiftSize(c: Table, o: int)
    ensures |Lift(c, o)| == |c|
  {
    if c != map[] {
      var k :| k in c;
      LiftKey(c, o, k);
      LiftSize(c - {k}, o);
      LiftRemove(c, o, k);
      assert (c - {k}).Keys == c.Keys - {k};
      assert (Lift(c, o) - {Unwrap(o, k)}).Keys == Lift(c, o).Keys - {Unwrap(o, k)};
    }
  }

  /** Every cached segment lies ahead of `o`, within half a circle. */
  ghost predicate Ahead(a: Cache, o: int) {
    forall k :: k in a ==> o < k && End(a, k) < o + HALF
  }

  // ---- walking the table in unsigned key order ----

  /** The iterator position: the least key not below `n`. */
  function NextKey(c: Table, n: nat): (r: Option<u32>)
    requires n <= MODULUS
    ensures r.Some? ==> r.value in c && r.value >= n && forall k :: k in c && k >= n ==> k >= r.value
    ensures r.None? ==> forall k :: k in c ==> k < n
    decreases MODULUS - n
  {
    if n == MODULUS then None else if n in c then Some(n) else NextKey(c, n + 1)
  }

  /** The part of the cache whose sequence numbers are below `n`. */
  ghost function Visited(a: Cache, n: int): Cache {
    map p | p in a && Wrap(p) < n :: a[p]
  }

  lemma VisitStep(c: Table, o: int, n: nat, k: u32)
    requires n <= MODULUS && NextKey(c, n) == Some(k)
    ensures var a, p := Lift(c, o), Unwrap(o, k);
            p !in Visited(a, n) && Visited(a, k + 1) == Visited(a, n)[p := c[k]]
  {
    var a, p := Lift(c, o), Unwrap(o, k);
    LiftKey(c, o, k);
    var m, w := Visited(a, k + 1), Visited(a, n)[p := c[k]];
    forall q ensures q in m <==> q in w {
      if q in a { LiftBack(c, o, q); }
    }
    assert m.Keys == w.Keys;
  }

  lemma VisitAll(c: Table, o: int, n: nat)
    requires n <= MODULUS && NextKey(c, n) == None
    ensures Visited(Lift(c, o), n) == Lift(c, o)
  {
    var a := Lift(c, o);
    forall q | q in a ensures q in Visited(a, n) { LiftBack(c, o, q); }
    assert Visited(a, n).Keys == a.Keys;
  }

  lemma VisitedApart(a: Cache, n: int)
    requires Apart(a)
    ensures Apart(Visited(a, n))
  {
  }

  // ---- first pass: how much of the incoming range is already cached ----

  /** Some cached segment overlaps or adjoins [s, e]. */
  ghost predicate Adjoins(a: Cache, s: int, e: int) {
    exists k :: k in a && k <= e && End(a, k) >= s
  }

  /** Some cached segment ends at `e` without a FIN mark. */
  ghost predicate EndsBare(a: Cache, e: int) {
    exists k :: k in a && End(a, k) == e && !a[k].fin
  }

  lemma InsertMarks(a: Cache, k: int, seg: Segment, s: int, e: int)
    requires k !in a
    ensures Fins(a[k := seg]) == Fins(a) + if seg.fin then {k + |seg.data|} else {}
    ensures Adjoins(a[k := seg], s, e) <==> Adjoins(a, s, e) || (k <= e && k + |seg.data| >= s)
    ensures EndsBare(a[k := seg], e) <==> EndsBare(a, e) || (k + |seg.data| == e && !seg.fin)
  {
    var b := a[k := seg];
    assert forall l :: l in a ==> l in b && b[l] == a[l] && End(b, l) == End(a, l);
    assert End(b, k) == k + |seg.data|;
    forall p | p in Fins(a) ensures p in Fins(b) {
      var l :| l in a && a[l].fin && End(a, l) == p;
    }
  }

  /** The engine's own relative offset is the distance of the positions. */
  lemma OffsetIs(c: Table, o: int, k: u32, sq: u32)
    requires k in c && Ahead(Lift(c, o), o) && o < Unwrap(o, sq)
    ensures Signed(Sub32(k, sq)) == Unwrap(o, k) - Unwrap(o, sq)
    ensures c[k] == Lift(c, o)[Unwrap(o, k)]
  {
    LiftKey(c, o, k);
    SignedDistance(Unwrap(o, k), Unwrap(o, sq));
  }

  /** What the first pass of an insertion of [s, e) finds in the cache. */
  datatype Scan = Scan(overlap: int, finCovered: bool, touches: bool, endsBare: bool)

  ghost function ScanOf(a: Cache, s: int, e: int): Scan {
    Scan(Meet(Content(a).Keys, s, e), e in Fins(a), Adjoins(a, s, e), EndsBare(a, e))
  }

  function ScanAdd(r: Scan, start: int, seg: Segment, len: int): Scan {
    var end := start + |seg.data|;
    var lo, hi := Max(start, 0), Min(end, len);
    Scan(r.overlap + (if lo < hi then hi - lo else 0),
         r.finCovered || (end == len && seg.fin),
         r.touches || (start <= len && end >= 0),
         r.endsBare || (end == len && !seg.fin))
  }

  lemma ScanStep(a: Cache, k: int, seg: Segment, s: int, e: int)
    requires k !in a && Apart(a[k := seg])
    ensures ScanOf(a[k := seg], s, e) == ScanAdd(ScanOf(a, s, e), k - s, seg, e - s)
  {
    hide Content, Meet, Fins, Adjoins, EndsBare, Apart;
    OverlapStep(a, k, seg, s, e);
    InsertMarks(a, k, seg, s, e);
  }

  lemma ScanOne(c: Table, o: int, sq: u32, len: nat, n: nat, k: u32)
    requires Apart(Lift(c, o)) && Ahead(Lift(c, o), o) && o < Unwrap(o, sq)
    requires n <= MODULUS && NextKey(c, n) == Some(k)
    ensures Unwrap(o, k) - Unwrap(o, sq) == Signed(Sub32(k, sq))
    ensures ScanOf(Visited(Lift(c, o), (k as int) + 1), Unwrap(o, sq), Unwrap(o, sq) + len)
         == ScanAdd(ScanOf(Visited(Lift(c, o), n), Unwrap(o, sq), Unwrap(o, sq) + len),
                    Signed(Sub32(k, sq)), c[k], len)
  {
    var a, s, p := Lift(c, o), Unwrap(o, sq), Unwrap(o, k);
    hide *;
    OffsetIs(c, o, k, sq);
    VisitStep(c, o, n, k);
    VisitedApart(a, (k as int) + 1);
    ScanStep(Visited(a, n), p, c[k], s, s + len);
  }

  method ScanOverlap(c: Table, sq: u32, len: nat, ghost o: int)
    returns (overlap: nat, finCovered: bool, touches: bool, extension: Option<u32>)
    requires Apart(Lift(c, o)) && Ahead(Lift(c, o), o)
    requires o < Unwrap(o, sq) && Unwrap(o, sq) + len < o + HALF
    ensures Scan(overlap, finCovered, touches, extension.Some?)
         == ScanOf(Lift(c, o), Unwrap(o, sq), Unwrap(o, sq) + len)
    ensures extension.Some? ==> && extension.value in c && !c[extension.value].fin
                                && Unwrap(o, extension.value) + |c[extension.value].data| == Unwrap(o, sq) + len
  {
    hide ScanOf, Visited, Lift, Apart, Ahead, Unwrap, Signed, Sub32, NextKey, Max, Min;
    overlap, finCovered, touches, extension := 0, false, false, None;
    ghost var a, s := Lift(c, o), Unwrap(o, sq);
    var n: nat := 0;
    var it := NextKey(c, 0);
    ScanNothing(a, s, s + len);
    while it.Some?
      invariant n <= MODULUS && it == NextKey(c, n)
      invariant Scan(overlap, finCovered, touches, extension.Some?) == ScanOf(Visited(a, n), s, s + len)
      invariant extension.Some? ==> && extension.value in c && !c[extension.value].fin
                                    && Unwrap(o, extension.value) + |c[extension.value].data| == s + len
      decreases MODULUS - n
    {
      var k: int := it.value;
      var start := Signed(Sub32(k, sq));
      var end := start + |c[k].data|;
      var lo, hi := Max(start, 0), Min(end, len);
      ScanOne(c, o, sq, len, n, k);
      overlap := overlap + if lo < hi then hi - lo else 0;
      touches := touches || (start <= len && end >= 0);
      finCovered := finCovered || (end == len && c[k].fin);
      extension := if end == len && !c[k].fin then Some(k) else extension;
      n := k + 1;
      it := NextKey(c, n);
    }
    VisitAll(c, o, n);
  }

  lemma ScanNothing(a: Cache, s: int, e: int)
    ensures ScanOf(Visited(a, 0), s, e) == Scan(0, false, false, false)
  {
    assert Visited(a, 0) == map[];
    assert Content(map[]).Keys * Range(s, e) == {};
  }

  // ---- second pass: cut away what the incoming range replaces ----

  ghost predicate Tidy(a: Cache, o: int) {
    Apart(a) && Coalesced(a) && Ahead(a, o)
  }

  ghost predicate NoSpan(a: Cache, s: int, e: int) {
    forall k :: k in a ==> !Spans(a, k, s, e)
  }

  /** `b` is `a` with nothing changed but inside [s, e]. */
  ghost predicate Trims(a: Cache, b: Cache, s: int, e: int) {
    && Content(b) - Range(s, e) == Content(a) - Range(s, e)
    && Fins(b) <= Fins(a)
    && (forall p :: p in Fins(a) && !(s <= p <= e) ==> p in Fins(b))
    && (FinBefore(a, s) <==> FinBefore(b, s))
    && |b| <= |a|
    && (|b| == |a| && Adjoins(a, s, e) ==> Adjoins(b, s, e))
  }

  lemma TrimsTrans(a: Cache, b: Cache, d: Cache, s: int, e: int)
    requires Trims(a, b, s, e) && Trims(b, d, s, e)
    ensures Trims(a, d, s, e)
  {
    hide Content, Fins, FinBefore, Adjoins, Range;
  }

  lemma CutTrims(a: Cache, k: int, s: int, e: int)
    requires Apart(a) && k in a && s < e && !Spans(a, k, s, e)
    ensures Trims(a, Cut(a, k, s, e), s, e)
  {
    CutContent(a, k, s, e);
    CutFins(a, k, s, e);
    CutFinBefore(a, k, s, e);
    CutSettles(a, k, s, e);
    CutAdjoins(a, k, s, e);
    hide *;
  }

  lemma CutAdjoins(a: Cache, k: int, s: int, e: int)
    requires Apart(a) && k in a && s < e && !Spans(a, k, s, e)
    ensures |Cut(a, k, s, e)| == |a| && Adjoins(a, s, e) ==> Adjoins(Cut(a, k, s, e), s, e)
  {
    var b := Cut(a, k, s, e);
    if |b| == |a| && Adjoins(a, s, e) {
      var l :| l in a && l <= e && End(a, l) >= s;
      if l != k {
        assert l in b && b[l] == a[l];
      } else if k in b {
        assert End(b, k) >= s;
      } else if e in b && End(a, k) > e {
        assert End(b, e) >= s;
      }
    }
  }

  lemma CutStaysTidy(a: Cache, k: int, s: int, e: int, o: int)
    requires Tidy(a, o) && NoSpan(a, s, e) && k in a && o < s < e
    ensures Tidy(Cut(a, k, s, e), o) && NoSpan(Cut(a, k, s, e), s, e)
  {
    CutKeepsApart(a, k, s, e);
    CutKeepsCoalesced(a, k, s, e);
    hide Apart, Coalesced;
  }

  /** What the pass does to the entry at `k`; an entry reaching over both ends of the range never gets here. */
  function TrimAt(c: Table, k: u32, sq: u32, len: nat): Table
    requires k in c && len > 0
    requires !(Signed(Sub32(k, sq)) < 0 && Signed(Sub32(k, sq)) + |c[k].data| > len)
  {
    var start := Signed(Sub32(k, sq));
    var end := start + |c[k].data|;
    var dataOverlap := Max(start, 0) < Min(end, len);
    var finInside := c[k].data == [] && c[k].fin && 0 <= start < len;
    if !dataOverlap && !finInside then c
    else if start < 0 then c[k := Segment(c[k].data[..-start], false)]
    else if end > len then (c - {k})[Add32(sq, len) := Segment(c[k].data[len - start..], c[k].fin)]
    else c - {k}
  }

  lemma TrimAtIsCut(c: Table, o: int, k: u32, sq: u32, len: nat)
    requires k in c && len > 0 && Ahead(Lift(c, o), o)
    requires o < Unwrap(o, sq) && Unwrap(o, sq) + len < o + HALF
    requires NoSpan(Lift(c, o), Unwrap(o, sq), Unwrap(o, sq) + len)
    ensures !(Signed(Sub32(k, sq)) < 0 && Signed(Sub32(k, sq)) + |c[k].data| > len)
    ensures Unwrap(o, k) in Lift(c, o)
    ensures Lift(TrimAt(c, k, sq, len), o)
         == Cut(Lift(c, o), Unwrap(o, k), Unwrap(o, sq), Unwrap(o, sq) + len)
  {
    hide Lift, Ahead, Unwrap, Signed, Sub32, Add32, Wrap;
    var a, p, s, e := Lift(c, o), Unwrap(o, k), Unwrap(o, sq), Unwrap(o, sq) + len;
    var data := c[k].data;
    OffsetIs(c, o, k, sq);
    LiftKey(c, o, k);
    assert !Spans(a, p, s, e);
    hide NoSpan;
    if Collides(a, p, s, e) {
      if p < s {
        LiftUpdate(c, o, k, Segment(data[..s - p], false));
      } else if End(a, p) > e {
        WrapAdd(s, len);
        UnwrapOfWrap(o, e);
        LiftRemove(c, o, k);
        LiftUpdate(c - {k}, o, Add32(sq, len), Segment(data[e - p..], c[k].fin));
      } else {
        LiftRemove(c, o, k);
      }
    }
  }

  ghost predicate SettledBelow(a: Cache, n: int, s: int, e: int) {
    forall p :: p in a && Wrap(p) < n ==> Settled(a, p, s, e)
  }

  lemma TrimStep(c: Table, o: int, n: nat, k: u32, n': nat, sq: u32, len: nat)
    requires len > 0 && o < Unwrap(o, sq) && Unwrap(o, sq) + len < o + HALF
    requires Tidy(Lift(c, o), o) && NoSpan(Lift(c, o), Unwrap(o, sq), Unwrap(o, sq) + len)
    requires SettledBelow(Lift(c, o), n, Unwrap(o, sq), Unwrap(o, sq) + len)
    requires n <= MODULUS && NextKey(c, n) == Some(k) && k < n' <= MODULUS
    requires forall l :: l in c && l > k ==> l >= n'
    ensures !(Signed(Sub32(k, sq)) < 0 && Signed(Sub32(k, sq)) + |c[k].data| > len)
    ensures SettledBelow(Lift(TrimAt(c, k, sq, len), o), n', Unwrap(o, sq), Unwrap(o, sq) + len)
  {
    hide Lift, Unwrap, Signed, Sub32, Add32, Wrap, NextKey, Coalesced, TrimAt, Ahead, Settled;
    var a, p, s, e := Lift(c, o), Unwrap(o, k), Unwrap(o, sq), Unwrap(o, sq) + len;
    TrimAtIsCut(c, o, k, sq, len);
    CutSettles(a, p, s, e);
    var b := Cut(a, p, s, e);
    hide Cut, Apart, NoSpan, Tidy;
    forall q | q in b && Wrap(q) < n'
      ensures Settled(b, q, s, e)
    {
      if q == p {
      } else if q == e {
        SettledAtEnd(b, s, e);
      } else {
        SettledEarlier(c, o, n, k, n', q);
        SettledSame(a, b, q, s, e);
      }
    }
  }

  /** A key below the next bound that is not the one just visited lies below the bound before. */
  lemma SettledEarlier(c: Table, o: int, n: nat, k: u32, n': nat, q: int)
    requires n <= MODULUS && NextKey(c, n) == Some(k) && (forall l :: l in c && l > k ==> l >= n')
    requires q in Lift(c, o) && q != Unwrap(o, k) && Wrap(q) < n'
    ensures Wrap(q) < n
  {
    hide Lift, Unwrap, Wrap;
    LiftBack(c, o, q);
    LiftKey(c, o, k);
  }


  lemma SettledAtEnd(b: Cache, s: int, e: int)
    requires e in b
    ensures Settled(b, e, s, e)
  {
  }

  lemma SettledSame(a: Cache, b: Cache, q: int, s: int, e: int)
    requires q in a && q in b && a[q] == b[q] && Settled(a, q, s, e)
    ensures Settled(b, q, s, e)
  {
  }

  method TrimOverlaps(c0: Table, sq: u32, len: nat, ghost o: int) returns (c: Table)
    requires len > 0 && o < Unwrap(o, sq) && Unwrap(o, sq) + len < o + HALF
    requires Tidy(Lift(c0, o), o) && NoSpan(Lift(c0, o), Unwrap(o, sq), Unwrap(o, sq) + len)
    ensures Tidy(Lift(c, o), o)
    ensures Trims(Lift(c0, o), Lift(c, o), Unwrap(o, sq), Unwrap(o, sq) + len)
    ensures SettledBelow(Lift(c, o), MODULUS, Unwrap(o, sq), Unwrap(o, sq) + len)
  {
    hide Lift, Unwrap, Signed, Sub32, Trims, Tidy, NoSpan, TrimAt, NextKey, SettledBelow;
    c := c0;
    ghost var s, e := Unwrap(o, sq), Unwrap(o, sq) + len;
    var n: nat := 0;
    var it := NextKey(c, 0);
    TrimNothing(Lift(c, o), s, e);
    while it.Some?
      invariant n <= MODULUS && it == NextKey(c, n)
      invariant Tidy(Lift(c, o), o) && NoSpan(Lift(c, o), s, e) && Trims(Lift(c0, o), Lift(c, o), s, e)
      invariant SettledBelow(Lift(c, o), n, s, e)
      decreases MODULUS - n
    {
      var k: int := it.value;
      var succ := NextKey(c, k + 1);
      var n' := if succ.Some? then succ.value else MODULUS;
      TrimStep(c, o, n, k, n', sq, len);
      TrimAdvance(c0, c, o, k, sq, len);
      c := TrimAt(c, k, sq, len);
      n := n';
      it := NextKey(c, n);
    }
    SettledAll(c, o, n, s, e);
  }

  lemma TrimNothing(a: Cache, s: int, e: int)
    ensures Trims(a, a, s, e) && SettledBelow(a, 0, s, e)
  {
  }

  lemma TrimAdvance(c0: Table, c: Table, o: int, k: u32, sq: u32, len: nat)
    requires len > 0 && o < Unwrap(o, sq) && Unwrap(o, sq) + len < o + HALF && k in c
    requires Tidy(Lift(c, o), o) && NoSpan(Lift(c, o), Unwrap(o, sq), Unwrap(o, sq) + len)
    requires Trims(Lift(c0, o), Lift(c, o), Unwrap(o, sq), Unwrap(o, sq) + len)
    requires !(Signed(Sub32(k, sq)) < 0 && Signed(Sub32(k, sq)) + |c[k].data| > len)
    ensures Tidy(Lift(TrimAt(c, k, sq, len), o), o)
    ensures NoSpan(Lift(TrimAt(c, k, sq, len), o), Unwrap(o, sq), Unwrap(o, sq) + len)
    ensures Trims(Lift(c0, o), Lift(TrimAt(c, k, sq, len), o), Unwrap(o, sq), Unwrap(o, sq) + len)
  {
    hide Lift, Unwrap, Signed, Sub32, Trims, Apart, Coalesced, Ahead, TrimAt;
    var a, p, s, e := Lift(c, o), Unwrap(o, k), Unwrap(o, sq), Unwrap(o, sq) + len;
    TrimAtIsCut(c, o, k, sq, len);
    CutTrims(a, p, s, e);
    CutStaysTidy(a, p, s, e, o);
    TrimsTrans(Lift(c0, o), a, Cut(a, p, s, e), s, e);
  }

  lemma SettledAll(c: Table, o: int, n: nat, s: int, e: int)
    requires n <= MODULUS && NextKey(c, n) == None && SettledBelow(Lift(c, o), n, s, e)
    ensures SettledBelow(Lift(c, o), MODULUS, s, e)
  {
    forall p | p in Lift(c, o) ensures Wrap(p) < n { LiftBack(c, o, p); }
  }

  // ---- third pass: join touching segments ----

  ghost predicate CoalescedBut(a: Cache, x: int) {
    forall k, l :: Touch(a, k, l) && k != x && l != x ==> a[k].fin && |a[l].data| > 0
  }

  /** The bytes, the FIN marks and the layout invariants survive; the table only shrinks. */
  ghost predicate Joins(a: Cache, b: Cache) {
    Content(b) == Content(a) && Fins(b) == Fins(a) && (b == a || |b| < |a|)
  }

  lemma TouchOnTable(c: Table, o: int, k: u32, l: u32)
    requires k in c && l in c && Ahead(Lift(c, o), o)
    ensures Touch(Lift(c, o), Unwrap(o, k), Unwrap(o, l)) <==> k != l && Add32(k, |c[k].data|) == l
  {
    var a, p, q := Lift(c, o), Unwrap(o, k), Unwrap(o, l);
    LiftKey(c, o, k);
    LiftKey(c, o, l);
    WrapAdd(p, |c[k].data|);
    CompareIsOrder(End(a, p), q);
  }

  /** The segment in front of `cur` that it continues, if there is one without a FIN mark. */
  method FindLeft(c: Table, cur: u32) returns (r: Option<u32>)
    ensures r.Some? ==> r.value in c && r.value != cur && !c[r.value].fin && Add32(r.value, |c[r.value].data|) == cur
    ensures r.None? ==> forall k :: k in c && k != cur && Add32(k, |c[k].data|) == cur ==> c[k].fin
  {
    hide Add32, NextKey;
    var n: nat := 0;
    var it := NextKey(c, 0);
    while it.Some?
      invariant n <= MODULUS && it == NextKey(c, n)
      invariant forall k :: k in c && k < n && k != cur && Add32(k, |c[k].data|) == cur ==> c[k].fin
      decreases MODULUS - n
    {
      var k: int := it.value;
      if k != cur && !c[k].fin && Add32(k, |c[k].data|) == cur {
        return Some(k);
      }
      n := k + 1;
      it := NextKey(c, n);
    }
    return None;
  }

  lemma FuseOnTable(c: Table, o: int, k: u32, l: u32)
    requires Apart(Lift(c, o)) && Ahead(Lift(c, o), o)
    requires k in c && l in c && k != l && Add32(k, |c[k].data|) == l && !c[k].fin
    ensures var a, p, q := Lift(c, o), Unwrap(o, k), Unwrap(o, l);
      && Touch(a, p, q) && !a[p].fin
      && Lift((c - {l})[k := Segment(c[k].data + c[l].data, c[l].fin)], o) == Fused(a, p, q)
  {
    hide Lift, Unwrap, Apart, Ahead, Add32;
    TouchOnTable(c, o, k, l);
    LiftKey(c, o, k);
    LiftKey(c, o, l);
    LiftRemove(c, o, l);
    LiftUpdate(c - {l}, o, k, Segment(c[k].data + c[l].data, c[l].fin));
  }

  lemma FuseStays(a: Cache, k: int, l: int, x: int, o: int)
    requires Apart(a) && Ahead(a, o) && Touch(a, k, l) && !a[k].fin && CoalescedBut(a, x) && (x == k || x == l)
    ensures Apart(Fused(a, k, l)) && Ahead(Fused(a, k, l), o) && CoalescedBut(Fused(a, k, l), k)
    ensures Joins(a, Fused(a, k, l))
  {
    FuseKeeps(a, k, l);
    FuseContent(a, k, l);
    hide Content, Fins, Apart;
  }

  lemma EchoStays(a: Cache, k: int, l: int, o: int)
    requires Apart(a) && Ahead(a, o) && Touch(a, k, l) && a[k].fin && a[l].data == [] && CoalescedBut(a, k)
    ensures Apart(a - {l}) && Ahead(a - {l}, o) && CoalescedBut(a - {l}, k)
    ensures Joins(a, a - {l})
  {
    DropEcho(a, k, l);
    hide Content, Fins, Apart;
  }

  lemma JoinsTrans(a: Cache, b: Cache, d: Cache)
    requires Joins(a, b) && Joins(b, d)
    ensures Joins(a, d)
  {
    hide Content, Fins;
  }

  /** The state of the joining loop: only the pairs that involve the current segment may still touch. */
  ghost predicate Joining(c0: Table, c: Table, cur: u32, o: int) {
    && cur in c && c[cur].data != []
    && Apart(Lift(c, o)) && Ahead(Lift(c, o), o)
    && CoalescedBut(Lift(c, o), Unwrap(o, cur))
    && Joins(Lift(c0, o), Lift(c, o))
  }

  /** Append the entry at `l` to the entry at `k`. */
  function JoinAt(c: Table, k: u32, l: u32): Table
    requires k in c && l in c
  {
    (c - {l})[k := Segment(c[k].data + c[l].data, c[l].fin)]
  }

  lemma JoinStep(c0: Table, c: Table, cur: u32, k: u32, l: u32, o: int)
    requires Joining(c0, c, cur, o) && (cur == k || cur == l)
    requires k in c && l in c && k != l && Add32(k, |c[k].data|) == l && !c[k].fin
    ensures Joining(c0, JoinAt(c, k, l), k, o) && |JoinAt(c, k, l)| < |c|
  {
    hide Lift, Unwrap, Apart, Ahead, Add32, CoalescedBut, Joins, Touch, Fused;
    var a, p, q := Lift(c, o), Unwrap(o, k), Unwrap(o, l);
    FuseOnTable(c, o, k, l);
    FuseStays(a, p, q, Unwrap(o, cur), o);
    JoinsTrans(Lift(c0, o), a, Fused(a, p, q));
    assert JoinAt(c, k, l).Keys == c.Keys - {l};
  }

  lemma EchoStep(c0: Table, c: Table, cur: u32, l: u32, o: int)
    requires Joining(c0, c, cur, o) && l in c && cur != l
    requires Add32(cur, |c[cur].data|) == l && c[cur].fin && c[l].data == []
    ensures Joining(c0, c - {l}, cur, o) && |c - {l}| < |c|
  {
    hide Lift, Unwrap, Apart, Ahead, Add32, CoalescedBut, Joins, Touch;
    var a, p, q := Lift(c, o), Unwrap(o, cur), Unwrap(o, l);
    TouchOnTable(c, o, cur, l);
    LiftKey(c, o, cur);
    LiftKey(c, o, l);
    LiftRemove(c, o, l);
    EchoStays(a, p, q, o);
    JoinsTrans(Lift(c0, o), a, a - {q});
    assert (c - {l}).Keys == c.Keys - {l};
  }

  lemma JoinDone(c0: Table, c: Table, cur: u32, o: int)
    requires Joining(c0, c, cur, o)
    requires forall k :: k in c && k != cur && Add32(k, |c[k].data|) == cur ==> c[k].fin
    requires var l := Add32(cur, |c[cur].data|); l in c && l != cur ==> c[cur].fin && c[l].data != []
    ensures Tidy(Lift(c, o), o) && Joins(Lift(c0, o), Lift(c, o))
  {
    hide Unwrap, Apart, Ahead, Add32, Joins, Lift;
    var a, x := Lift(c, o), Unwrap(o, cur);
    forall k, l | k in a && l in a && k != l && End(a, k) == l
      ensures a[k].fin && |a[l].data| > 0
    {
      LiftBack(c, o, k);
      LiftBack(c, o, l);
      TouchOnTable(c, o, Wrap(k), Wrap(l));
    }
  }

  method JoinNeighbours(c0: Table, sq: u32, ghost o: int) returns (c: Table)
    requires Joining(c0, c0, sq, o)
    ensures Tidy(Lift(c, o), o) && Joins(Lift(c0, o), Lift(c, o))
  {
    hide Joining, Lift, Tidy, Joins, Add32, JoinAt;
    c := c0;
    var cur := sq;
    var merged := true;
    JoiningCur(c0, c, cur, o);
    while merged
      invariant Joining(c0, c, cur, o)
      invariant !merged ==> Tidy(Lift(c, o), o) && Joins(Lift(c0, o), Lift(c, o))
      decreases |c|, merged
    {
      JoiningCur(c0, c, cur, o);
      var left := FindLeft(c, cur);
      if left.Some? {
        JoinStep(c0, c, cur, left.value, cur, o);
        c := JoinAt(c, left.value, cur);
        cur := left.value;
      } else {
        var next := Add32(cur, |c[cur].data|);
        if next !in c || next == cur || (c[cur].fin && c[next].data != []) {
          merged := false;
          JoinDone(c0, c, cur, o);
        } else if c[cur].fin {
          EchoStep(c0, c, cur, next, o);
          c := c - {next};
        } else {
          JoinStep(c0, c, cur, cur, next, o);
          c := JoinAt(c, cur, next);
        }
      }
    }
  }

  lemma JoiningCur(c0: Table, c: Table, cur: u32, o: int)
    requires Joining(c0, c, cur, o)
    ensures cur in c && c[cur].data != []
  {
  }

  // ---- the three passes together ----

  /** The FIN marks after [s, e) was replaced by a segment that ends in a mark iff `fin`. */
  ghost function FinsAfter(a: Cache, s: int, e: int, fin: bool): set<int> {
    (set p | p in Fins(a) && (p < s || p > e))
    + (if FinBefore(a, s) then {s} else {})
    + (if fin then {e} else {})
  }

  /** All cached bytes lie before `f`, and `f` is the only place a FIN mark may be. */
  ghost predicate OneStream(a: Cache, f: int) {
    (forall p :: p in Content(a) ==> p < f) && Fins(a) <= {f}
  }

  lemma PlaceApart(b: Cache, s: int, seg: Segment)
    requires Apart(b) && seg.data != [] && SettledBelow(b, MODULUS, s, s + |seg.data|)
    ensures s !in b && Apart(b[s := seg])
  {
  }

  lemma PlaceCoalesced(b: Cache, s: int, seg: Segment)
    requires Coalesced(b) && s !in b
    ensures CoalescedBut(b[s := seg], s)
  {
  }

  /** Once nothing reaches into [s, e), no byte and no mark is left inside. */
  lemma SettledMarks(b: Cache, s: int, e: int)
    requires Apart(b) && SettledBelow(b, MODULUS, s, e)
    ensures forall p :: p in Fins(b) ==> p < s || p >= e || (p == s && FinBefore(b, s))
    ensures FinBefore(b, s) ==> s in Fins(b)
  {
    forall p | p in Fins(b)
      ensures p < s || p >= e || (p == s && FinBefore(b, s))
    {
      var k :| k in b && b[k].fin && End(b, k) == p;
      assert Settled(b, k, s, e);
    }
  }

  lemma SettledContent(b: Cache, s: int, e: int)
    requires SettledBelow(b, MODULUS, s, e)
    ensures Content(b) - Range(s, e) == Content(b)
  {
    forall p | p in Content(b)
      ensures p !in Range(s, e)
    {
      var k := ContentFrom(b, p);
      assert Settled(b, k, s, e);
    }
    hide Content, Range;
  }

  lemma TrimsParts(a: Cache, b: Cache, s: int, e: int)
    requires Trims(a, b, s, e)
    ensures Content(b) - Range(s, e) == Content(a) - Range(s, e)
    ensures Fins(b) <= Fins(a) && (FinBefore(a, s) <==> FinBefore(b, s))
    ensures forall p :: p in Fins(a) && !(s <= p <= e) ==> p in Fins(b)
  {
  }

  lemma PlaceFins(a: Cache, b: Cache, s: int, seg: Segment)
    requires Trims(a, b, s, s + |seg.data|) && SettledBelow(b, MODULUS, s, s + |seg.data|)
    requires Apart(b) && s !in b && seg.data != [] && (s + |seg.data| in Fins(a) ==> seg.fin)
    ensures Fins(b[s := seg]) == FinsAfter(a, s, s + |seg.data|, seg.fin)
  {
    hide *;
    var e := s + |seg.data|;
    InsertMarks(b, s, seg, s, e);
    TrimsParts(a, b, s, e);
    SettledMarks(b, s, e);
    KeptMarks(a, Fins(b), s, e, seg.fin);
  }

  lemma KeptMarks(a: Cache, left: set<int>, s: int, e: int, fin: bool)
    requires s < e && left <= Fins(a) && (e in Fins(a) ==> fin)
    requires forall p :: p in Fins(a) && !(s <= p <= e) ==> p in left
    requires forall p :: p in left ==> p < s || p >= e || (p == s && FinBefore(a, s))
    requires FinBefore(a, s) ==> s in left
    ensures left + (if fin then {e} else {}) == FinsAfter(a, s, e, fin)
  {
    hide Fins, FinBefore;
  }

  lemma PlaceContent(a: Cache, b: Cache, s: int, seg: Segment)
    requires Content(b) - Range(s, s + |seg.data|) == Content(a) - Range(s, s + |seg.data|)
    requires SettledBelow(b, MODULUS, s, s + |seg.data|) && s !in b && Apart(b[s := seg])
    ensures Content(b[s := seg]) == Overlay(Content(a), s, seg.data)
  {
    hide *;
    SettledContent(b, s, s + |seg.data|);
    OverlayIs(Content(a), Content(b), s, seg.data);
    Insert(b, s, seg);
  }

  lemma OverlayIs(m: map<int, byte>, n: map<int, byte>, k: int, data: seq<byte>)
    requires n == m - Range(k, k + |data|)
    ensures n + Placed(k, data) == Overlay(m, k, data)
  {
    hide Range, Placed;
  }

  /** In one stream, nothing can be left touching a segment that was placed and not joined. */
  lemma PlaceLonely(b: Cache, d: Cache, s: int, seg: Segment, f: int, o: int)
    requires SettledBelow(b, MODULUS, s, s + |seg.data|) && s !in b && seg.data != []
    requires d == b[s := seg] && Tidy(d, o)
    requires OneStream(d, f)
    ensures !Adjoins(b, s, s + |seg.data|)
  {
    TidyParts(d, o);
    hide OneStream, Tidy, Apart, Coalesced, Ahead, Settled;
    forall t | t in b
      ensures !(t <= s + |seg.data| && End(b, t) >= s)
    {
      LonelyAt(b, d, s, seg, f, t);
    }
  }

  /** No segment touches one that is placed in one stream with one FIN and not joined with it. */
  lemma LonelyAt(b: Cache, d: Cache, s: int, seg: Segment, f: int, t: int)
    requires t in b && Settled(b, t, s, s + |seg.data|) && s !in b && seg.data != []
    requires d == b[s := seg] && Apart(d) && Coalesced(d) && OneStream(d, f)
    ensures !(t <= s + |seg.data| && End(b, t) >= s)
  {
    var e := s + |seg.data|;
    ContentAt(d, s, e - 1);
    if t == e && |d[e].data| > 0 { ContentAt(d, e, e); }
    hide Content, Apart;
    Mark(d, s);
    Mark(d, t);
  }

  lemma Mark(a: Cache, k: int)
    requires k in a
    ensures a[k].fin ==> End(a, k) in Fins(a)
  {
  }

  method InsertSegment(c0: Table, sq: u32, data: seq<byte>, fin: bool, ghost o: int) returns (c: Table)
    requires data != [] && o < Unwrap(o, sq) && Unwrap(o, sq) + |data| < o + HALF
    requires Tidy(Lift(c0, o), o)
    requires !(Range(Unwrap(o, sq), Unwrap(o, sq) + |data|) <= Content(Lift(c0, o)).Keys)
    requires Unwrap(o, sq) + |data| in Fins(Lift(c0, o)) ==> fin
    ensures Tidy(Lift(c, o), o)
    ensures Content(Lift(c, o)) == Overlay(Content(Lift(c0, o)), Unwrap(o, sq), data)
    ensures Fins(Lift(c, o)) == FinsAfter(Lift(c0, o), Unwrap(o, sq), Unwrap(o, sq) + |data|, fin)
    ensures |Lift(c, o)| <= |Lift(c0, o)| + 1
    ensures forall f :: OneStream(Lift(c, o), f) && Adjoins(Lift(c0, o), Unwrap(o, sq), Unwrap(o, sq) + |data|) ==>
                          |Lift(c, o)| <= |Lift(c0, o)|
  {
    hide *;
    ghost var a, s, e := Lift(c0, o), Unwrap(o, sq), Unwrap(o, sq) + |data|;
    TidyParts(a, o);
    NothingSpans(a, s, e);
    var trimmed := TrimOverlaps(c0, sq, |data|, o);
    var seg := Segment(data, fin);
    PlaceSegment(c0, trimmed, sq, seg, o);
    c := JoinNeighbours(trimmed[sq := seg], sq, o);
    JoinsParts(Lift(trimmed[sq := seg], o), Lift(c, o));
    PlaceDone(a, Lift(trimmed, o), Lift(c, o), s, seg, o);
  }

  lemma PlaceSegment(c0: Table, t: Table, sq: u32, seg: Segment, o: int)
    requires seg.data != [] && o < Unwrap(o, sq) && Unwrap(o, sq) + |seg.data| < o + HALF
    requires Tidy(Lift(t, o), o)
    requires Trims(Lift(c0, o), Lift(t, o), Unwrap(o, sq), Unwrap(o, sq) + |seg.data|)
    requires SettledBelow(Lift(t, o), MODULUS, Unwrap(o, sq), Unwrap(o, sq) + |seg.data|)
    requires Unwrap(o, sq) + |seg.data| in Fins(Lift(c0, o)) ==> seg.fin
    ensures sq !in t && Joining(t[sq := seg], t[sq := seg], sq, o)
    ensures Unwrap(o, sq) !in Lift(t, o) && Lift(t[sq := seg], o) == Lift(t, o)[Unwrap(o, sq) := seg]
    ensures Content(Lift(t[sq := seg], o)) == Overlay(Content(Lift(c0, o)), Unwrap(o, sq), seg.data)
    ensures Fins(Lift(t[sq := seg], o)) == FinsAfter(Lift(c0, o), Unwrap(o, sq), Unwrap(o, sq) + |seg.data|, seg.fin)
  {
    hide *;
    var a, b, s, e := Lift(c0, o), Lift(t, o), Unwrap(o, sq), Unwrap(o, sq) + |seg.data|;
    TidyParts(b, o);
    PlaceApart(b, s, seg);
    if sq in t { LiftKey(t, o, sq); }
    LiftUpdate(t, o, sq, seg);
    PlaceCoalesced(b, s, seg);
    PlaceAhead(b, s, seg, o);
    PlaceFins(a, b, s, seg);
    TrimsParts(a, b, s, e);
    PlaceContent(a, b, s, seg);
    JoiningStart(t[sq := seg], sq, o);
  }

  lemma PlaceAhead(b: Cache, s: int, seg: Segment, o: int)
    requires Ahead(b, o) && o < s && s + |seg.data| < o + HALF
    ensures Ahead(b[s := seg], o)
  {
  }

  lemma JoinsParts(a: Cache, b: Cache)
    requires Joins(a, b)
    ensures Content(b) == Content(a) && Fins(b) == Fins(a)
  {
  }

  lemma TidyParts(a: Cache, o: int)
    requires Tidy(a, o)
    ensures Apart(a) && Coalesced(a) && Ahead(a, o)
  {
  }

  lemma JoiningStart(c: Table, sq: u32, o: int)
    requires sq in c && c[sq].data != []
    requires Apart(Lift(c, o)) && Ahead(Lift(c, o), o) && CoalescedBut(Lift(c, o), Unwrap(o, sq))
    ensures Joining(c, c, sq, o)
  {
  }

  lemma PlaceDone(a: Cache, b: Cache, r: Cache, s: int, seg: Segment, o: int)
    requires Trims(a, b, s, s + |seg.data|) && SettledBelow(b, MODULUS, s, s + |seg.data|)
    requires s !in b && seg.data != [] && Joins(b[s := seg], r) && Tidy(r, o)
    ensures |r| <= |a| + 1
    ensures forall f :: OneStream(r, f) && Adjoins(a, s, s + |seg.data|) ==> |r| <= |a|
  {
    var d := b[s := seg];
    assert d.Keys == b.Keys + {s};
    assert |b| <= |a| && (|b| == |a| && Adjoins(a, s, s + |seg.data|) ==> Adjoins(b, s, s + |seg.data|));
    assert d == r || |r| < |d|;
    hide *;
    forall f | OneStream(r, f) && Adjoins(a, s, s + |seg.data|)
      ensures |r| <= |a|
    {
      if d == r { PlaceLonely(b, d, s, seg, f, o); }
    }
  }

  lemma NothingSpans(a: Cache, s: int, e: int)
    requires Apart(a) && s < e && !(Range(s, e) <= Content(a).Keys)
    ensures NoSpan(a, s, e)
  {
    forall k | k in a ensures !Spans(a, k, s, e) {
      if Spans(a, k, s, e) { SpanCovers(a, k, s, e); }
    }
  }

  // ---- a FIN without data ----

  /** What the walk over the cache finds at the position of a bare FIN. */
  datatype FinSlot = Free | Reject | Extend(k: u32)

  ghost predicate Clear(a: Cache, s: int) {
    forall k :: k in a ==> End(a, k) != s && !(k <= s < End(a, k))
  }

  /** The mark can be put on a segment that ends at `s`, is already there or illegal, or stands alone. */
  method FindFinSlot(c: Table, sq: u32, ghost o: int) returns (r: FinSlot)
    requires Tidy(Lift(c, o), o) && o < Unwrap(o, sq)
    ensures r.Reject? ==> Unwrap(o, sq) in Fins(Lift(c, o)) || Covered(Lift(c, o), Unwrap(o, sq))
    ensures r.Extend? ==> r.k in c && !c[r.k].fin && Unwrap(o, r.k) + |c[r.k].data| == Unwrap(o, sq)
    ensures r.Free? ==> Clear(Lift(c, o), Unwrap(o, sq))
  {
    hide Lift, Unwrap, Visited, Signed, Sub32, NextKey, Clear, Tidy, Fins, Covered;
    ghost var a, s := Lift(c, o), Unwrap(o, sq);
    var n: nat := 0;
    var it := NextKey(c, 0);
    ClearNothing(a, s);
    while it.Some?
      invariant n <= MODULUS && it == NextKey(c, n)
      invariant Clear(Visited(a, n), s)
      decreases MODULUS - n
    {
      var k: int := it.value;
      var start := Signed(Sub32(k, sq));
      var end := start + |c[k].data|;
      TidyParts(a, o);
      OffsetIs(c, o, k, sq);
      LiftKey(c, o, k);
      VisitStep(c, o, n, k);
      FinHit(a, Unwrap(o, k), s);
      if end == 0 {
        return if c[k].fin then Reject else Extend(k);
      }
      if start <= 0 && end > 0 {
        return Reject;
      }
      ClearStep(Visited(a, n), Unwrap(o, k), c[k], s);
      n := k + 1;
      it := NextKey(c, n);
    }
    VisitAll(c, o, n);
    return Free;
  }

  lemma ClearNothing(a: Cache, s: int)
    ensures Clear(Visited(a, 0), s)
  {
  }

  lemma ClearStep(a: Cache, k: int, seg: Segment, s: int)
    requires Clear(a, s) && k !in a && k + |seg.data| != s && !(k <= s < k + |seg.data|)
    ensures Clear(a[k := seg], s)
  {
  }

  lemma FinHit(a: Cache, k: int, s: int)
    requires k in a
    ensures k + |a[k].data| == s && a[k].fin ==> s in Fins(a)
    ensures k <= s < k + |a[k].data| ==> Covered(a, s)
  {
    if k <= s < k + |a[k].data| { assert Covers(a, k, s); }
  }

  /** Marking the end of a segment changes neither the bytes nor the layout. */
  lemma MarkEnd(a: Cache, k: int, o: int)
    requires Tidy(a, o) && k in a && !a[k].fin
    ensures Tidy(a[k := Segment(a[k].data, true)], o)
    ensures Content(a[k := Segment(a[k].data, true)]) == Content(a)
    ensures Fins(a[k := Segment(a[k].data, true)]) == Fins(a) + {End(a, k)}
    ensures |a[k := Segment(a[k].data, true)]| == |a|
    ensures End(a, k) !in Fins(a)
  {
    var seg := Segment(a[k].data, true);
    var b := a[k := seg];
    assert b.Keys == a.Keys;
    assert b - {k} == a - {k};
    MarkEndTidy(a, k, o);
    MarkEndFins(a, k);
    assert b[k].data == a[k].data;
    hide *;
    TidyParts(a, o);
    TidyParts(b, o);
    Contribution(a, k);
    Contribution(b, k);
  }

  lemma MarkEndTidy(a: Cache, k: int, o: int)
    requires Tidy(a, o) && k in a && !a[k].fin
    ensures Tidy(a[k := Segment(a[k].data, true)], o)
    ensures End(a, k) !in Fins(a)
  {
    var b := a[k := Segment(a[k].data, true)];
    assert forall l :: l in b ==> l in a && End(b, l) == End(a, l) && b[l].data == a[l].data;
  }

  lemma MarkEndFins(a: Cache, k: int)
    requires k in a && !a[k].fin
    ensures Fins(a[k := Segment(a[k].data, true)]) == Fins(a) + {End(a, k)}
  {
    var b := a[k := Segment(a[k].data, true)];
    assert End(b, k) == End(a, k) && End(b, k) in Fins(b);
    forall p | p in Fins(a) ensures p in Fins(b) {
      var l :| l in a && a[l].fin && End(a, l) == p;
      assert l in b && b[l] == a[l];
    }
    forall p | p in Fins(b) ensures p in Fins(a) || p == End(a, k) {
      var l :| l in b && b[l].fin && End(b, l) == p;
      assert l != k ==> a[l] == b[l];
    }
  }

  /** A FIN mark on its own. */
  lemma MarkAlone(a: Cache, s: int, o: int)
    requires Tidy(a, o) && Clear(a, s) && o < s < o + HALF
    ensures s !in a && Tidy(a[s := Segment([], true)], o)
    ensures Content(a[s := Segment([], true)]) == Content(a)
    ensures Fins(a[s := Segment([], true)]) == Fins(a) + {s} && s !in Fins(a)
    ensures |a[s := Segment([], true)]| == |a| + 1
  {
    hide *;
    var seg := Segment([], true);
    MarkAloneTidy(a, s, o);
    TidyParts(a[s := seg], o);
    InsertMarks(a, s, seg, s, s);
    Insert(a, s, seg);
    PlacedNothing(Content(a), s);
    assert a[s := seg].Keys == a.Keys + {s};
  }

  lemma PlacedNothing(m: map<int, byte>, s: int)
    ensures m + Placed(s, []) == m
  {
  }

  lemma MarkAloneTidy(a: Cache, s: int, o: int)
    requires Tidy(a, o) && Clear(a, s) && o < s < o + HALF
    ensures s !in a && Tidy(a[s := Segment([], true)], o) && s !in Fins(a)
  {
  }

  // ---- what an insertion does to the accounting ----

  lemma OverlaySize(m: map<int, byte>, k: int, data: seq<byte>)
    ensures |Overlay(m, k, data)| == |m| + |data| - Meet(m.Keys, k, k + |data|)
  {
    hide *;
    RangeSize(k, k + |data|);
    MaxIs(|data|);
    OverlayKeysSize(m, k, data);
  }

  lemma OverlayKeysSize(m: map<int, byte>, k: int, data: seq<byte>)
    ensures |Overlay(m, k, data)| == |m| + |Range(k, k + |data|)| - Meet(m.Keys, k, k + |data|)
  {
    OverlayKeys(m, k, data);
    hide *;
    KeysSize(m);
    KeysSize(Overlay(m, k, data));
    MeetIs(m.Keys, k, k + |data|);
    ReplaceSize(Overlay(m, k, data).Keys, m.Keys, Range(k, k + |data|));
  }

  lemma KeysSize(m: map<int, byte>)
    ensures |m| == |m.Keys|
  {
  }

  lemma OverlayKeys(m: map<int, byte>, k: int, data: seq<byte>)
    ensures Overlay(m, k, data).Keys == (m.Keys - Range(k, k + |data|)) + Range(k, k + |data|)
  {
    hide Range, Placed;
    PlacedKeys(k, data);
  }

  /** A segment of the stream keeps the cache within the stream. */
  lemma OverlayStream(a: Cache, b: Cache, s: int, data: seq<byte>, fin: bool, f: int)
    requires OneStream(a, f) && data != [] && s + |data| <= f && (fin ==> s + |data| == f)
    requires Content(b) == Overlay(Content(a), s, data) && Fins(b) == FinsAfter(a, s, s + |data|, fin)
    ensures OneStream(b, f)
  {
    forall p | p in Content(b) ensures p < f {
      assert p in Content(a) || p in Placed(s, data);
    }
    assert FinBefore(a, s) ==> s in Fins(a);
    hide Content;
  }

  lemma ClearSays(a: Cache, s: int)
    requires Clear(a, s)
    ensures s !in Fins(a) && !Covered(a, s) && !EndsBare(a, s)
  {
  }

  /** Where a bare segment ends there is neither a mark nor data. */
  lemma BareSays(a: Cache, k: int, o: int)
    requires Tidy(a, o) && k in a && !a[k].fin
    ensures EndsBare(a, End(a, k)) && End(a, k) !in Fins(a) && !Covered(a, End(a, k))
  {
    MarkEndTidy(a, k, o);
  }
}
