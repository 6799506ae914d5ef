/** What the receive path of a flow keeps, and the steps of its loops, as facts about values. */
module RecvFacts {
  import opened Bytes
  import opened SeqNum
  import opened OooCache
  import opened OooTable
  import RxQueue

  datatype State = SynRcvd | SynAckSent | Established | FinWait1 | FinWait2 | CloseWait | LastAck | TimeWait | Closed

  datatype Config = Config(maxRxQueue: nat, oooMaxSegments: nat, mss: nat, persistMaxProbes: nat, rtoMaxRetransmits: nat)

  predicate Open(s: State) {
    s != SynRcvd && s != Closed
  }

  /** Reads have completed with the first bytes that were accepted, and with end-of-file only behind the last one. */
  ghost predicate Told(q: RxQueue.Queue, accepted: seq<byte>, fin: bool) {
    q.delivered <= accepted && (q.eof ==> fin && q.delivered == accepted)
  }

  /** The queue holds what was accepted in order and not read yet, unless the application gave up receiving. */
  ghost predicate QueueSound(q: RxQueue.Queue, accepted: seq<byte>, fin: bool, shut: bool, lost: bool, cap: nat) {
    && q.Sound() && q.bytes <= cap
    && (q.read.Some? ==> !fin && !shut && !lost)
    && (!shut && !lost ==> q.History() == accepted)
    && (shut ==> q.data == [])
    && Told(q, accepted, fin)
  }

  lemma DiscardSound(q: RxQueue.Queue, accepted: seq<byte>, data: seq<byte>, lost: bool, cap: nat)
    requires QueueSound(q, accepted, false, true, lost, cap)
    ensures QueueSound(q, accepted + data, false, true, lost, cap)
  {
  }

  /** At the FIN a waiting read on the empty queue has been given everything. */
  lemma EndSound(q: RxQueue.Queue, q': RxQueue.Queue, accepted: seq<byte>, shut: bool, lost: bool, cap: nat)
    requires QueueSound(q, accepted, false, shut, lost, cap)
    requires q'.Sound() && q'.History() == q.History() && q'.delivered == q.delivered && q'.bytes == q.bytes
    requires q'.read.None? && q'.eof == (q.eof || (q.bytes == 0 && q.read.Some?))
    ensures QueueSound(q', accepted, true, shut, lost, cap)
  {
    if q.read.Some? { assert q.delivered + [] == q.delivered; }
  }

  /** What one flush of the reads does to the queue. */
  ghost predicate ReadsFlushed(q: RxQueue.Queue, q': RxQueue.Queue, fin: bool)
    requires q.head + q.bytes == |q.data| && q'.head <= |q'.data|
  {
    var n := if q.read.Some? then Min(q.read.value, q.bytes) else 0;
    && q'.History() == q.History()
    && q'.bytes == q.bytes - n
    && q'.delivered == q.delivered + q.Rest()[..n]
    && q'.read == (if q.bytes > 0 || fin then None else q.read)
    && q'.eof == (q.eof || (q.bytes == 0 && fin && q.read.Some?))
  }

  lemma FlushedSound(q0: RxQueue.Queue, q: RxQueue.Queue, q': RxQueue.Queue, accepted: seq<byte>, fin: bool,
                     shut: bool, lost: bool, cap: nat)
    requires QueueSound(q0, accepted, fin, shut, lost, cap)
    requires q == q0 || (q0.read.None? && !shut && !lost && q.read.Some? && q.read.value > 0 && q == q0.(read := q.read))
    requires q'.Sound() && ReadsFlushed(q, q', fin)
    ensures QueueSound(q', accepted, fin, shut, lost, cap)
  {
    HistoryTold(q', accepted);
    if q.read.None? {
      assert q.delivered + q.Rest()[..0] == q.delivered;
      hide *;
      IdleSound(q, q', accepted, fin, shut, lost, cap);
    } else {
      assert q.History() == accepted;
      hide RxQueue.Queue.History, RxQueue.Queue.Rest;
    }
  }

  /** Without a read nothing happens but that the buffer may be compacted. */
  lemma IdleSound(q: RxQueue.Queue, q': RxQueue.Queue, accepted: seq<byte>, fin: bool, shut: bool, lost: bool, cap: nat)
    requires QueueSound(q, accepted, fin, shut, lost, cap) && q.read.None? && q'.Sound() && ReadsFlushed(q, q', fin)
    requires q.delivered + q.Rest()[..0] == q.delivered
    ensures QueueSound(q', accepted, fin, shut, lost, cap)
  {
    hide RxQueue.Queue.History, RxQueue.Queue.Rest;
  }

  lemma HistoryTold(q: RxQueue.Queue, accepted: seq<byte>)
    requires q.Sound()
    ensures q.History() == accepted ==> q.delivered <= accepted && (q.bytes == 0 ==> q.delivered == accepted)
  {
    if q.bytes == 0 { assert q.delivered + [] == q.delivered; }
  }

  ghost predicate PosSound(nxt: u32, pos: int, base: int, accepted: seq<byte>, fin: bool, finAt: int) {
    && nxt == Wrap(pos)
    && pos == base + |accepted| + (if fin then 1 else 0)
    && base + |accepted| <= finAt
    && (fin ==> base + |accepted| == finAt)
  }

  /** Layout and accounting of the out-of-order cache seen from position `o`. */
  ghost predicate CacheSound(c: Table, bytes: nat, o: int, finAt: int) {
    && Tidy(Lift(c, o), o)
    && OneStream(Lift(c, o), finAt)
    && bytes == |Content(Lift(c, o))|
  }

  lemma EmptyCache(o: int, finAt: int)
    ensures CacheSound(map[], 0, o, finAt) && Lift(map[], o) == map[]
    ensures forall bytes: nat :: CacheSound(map[], bytes, o, finAt) ==> bytes == 0
  {
    hide Lift, Content, Tidy, OneStream;
    EmptyLift(o);
    EmptyContent(o, finAt);
  }

  lemma EmptyLift(o: int)
    ensures Lift(map[], o) == map[]
  {
  }

  lemma EmptyContent(o: int, finAt: int)
    ensures Tidy(map[], o) && OneStream(map[], finAt) && |Content(map[])| == 0
  {
    assert Content(map[]) == map[];
    hide Content;
  }

  /** Bytes put behind the accepted ones, with no read waiting. */
  lemma StoredSound(q: RxQueue.Queue, accepted: seq<byte>, data: seq<byte>, cap: nat)
    requires QueueSound(q, accepted, false, false, false, cap) && q.read.None? && data != [] && q.bytes + |data| <= cap
    ensures QueueSound(q.Enqueue(data), accepted + data, false, false, false, cap)
  {
    q.EnqueueSound(data);
    hide RxQueue.Queue.History;
  }

  lemma EmptySound(cap: nat)
    ensures QueueSound(RxQueue.Empty, [], false, false, false, cap)
  {
    assert |RxQueue.Empty.Rest()| == 0;
    assert |RxQueue.Empty.History()| == 0;
    hide RxQueue.Queue.Rest, RxQueue.Queue.History;
  }

  lemma ClearSound(q: RxQueue.Queue, accepted: seq<byte>, fin: bool, shut: bool, lost: bool, cap: nat)
    requires QueueSound(q, accepted, fin, shut, lost, cap)
    ensures QueueSound(q.Clear(), accepted, fin, true, lost, cap) && QueueSound(q.Clear(), accepted, fin, shut, true, cap)
  {
  }

  /** How far a connection has come; `FinWait1` and `CloseWait` are the two ways out of `Established`. */
  function Rank(s: State): nat {
    match s
    case SynRcvd => 0
    case SynAckSent => 1
    case Established => 2
    case FinWait1 => 3
    case CloseWait => 3
    case FinWait2 => 4
    case LastAck => 4
    case TimeWait => 5
    case Closed => 6
  }

  /** The two FIN flags in every state of a connection. */
  predicate FinFlags(s: State, finReceived: bool, finSent: bool) {
    match s
    case SynRcvd => !finReceived && !finSent
    case SynAckSent => !finReceived && !finSent
    case Established => !finReceived && !finSent
    case FinWait1 => finSent
    case FinWait2 => finSent && !finReceived
    case CloseWait => finReceived && !finSent
    case LastAck => finReceived && finSent
    case TimeWait => finReceived && finSent
    case Closed => true
  }

  function AfterFin(s: State): State {
    match s
    case Established => CloseWait
    case FinWait2 => TimeWait
    case _ => s
  }

  ghost predicate InStream(a: Cache, base: int, stream: seq<byte>) {
    forall q :: q in Content(a) ==> base <= q < base + |stream| && Content(a)[q] == stream[q - base]
  }

  lemma SameInStream(a: Cache, b: Cache, base: int, stream: seq<byte>)
    requires Content(a) == Content(b)
    ensures InStream(a, base, stream) <==> InStream(b, base, stream)
  {
  }

  lemma AppendedInStream(a: Cache, b: Cache, s: int, data: seq<byte>, fin: bool, ok: bool, slot: bool, spare: int,
                         base: int, stream: seq<byte>)
    requires Appended(a, b, s, data, fin, ok, slot, spare) && InStream(a, base, stream)
    requires base <= s && s + |data| <= base + |stream| && data == stream[s - base..s - base + |data|]
    ensures InStream(b, base, stream)
  {
    hide Content, Meet, Fins, FinsAfter, EndsBare, Adjoins, Range;
  }

  lemma ContinuedInStream(a0: Cache, a: Cache, base: int, acc0: seq<byte>, acc: seq<byte>, tail: seq<byte>, fits: bool,
                          r: int, stream: seq<byte>)
    requires Continued(a0, a, base, acc0, acc, tail, fits) && InStream(a0, base, stream) && acc0 <= stream
    requires base + |acc0| == r && r + |tail| <= base + |stream| && tail == stream[r - base..r - base + |tail|]
    ensures InStream(a, base, stream) && acc0 <= acc <= stream
    ensures fits ==> |acc| >= |acc0| + |tail|
  {
    hide Content, Fins, FromCache;
    PrefixInStream(Content(a0), base, if fits then acc0 + tail else acc0, acc, stream);
  }

  /** Bytes `k` to `n` of the stream are all the same. */
  predicate Alike(stream: seq<byte>, k: nat, n: nat)
    requires n <= |stream|
  {
    forall i :: k < i < n ==> stream[i] == stream[k]
  }

  lemma HeadTail(stream: seq<byte>, data: seq<byte>, k: nat)
    requires data <= stream && k <= |data|
    ensures data[k..] == stream[k..|data|]
  {
  }

  /** Bytes that were appended one place too early are right if and only if they are all the same. */
  lemma ShiftedInStream(a0: Cache, a: Cache, base: int, acc0: seq<byte>, acc: seq<byte>, n: nat, fits: bool, stream: seq<byte>)
    requires |acc0| < n <= |stream| && Continued(a0, a, base, acc0, acc, stream[|acc0| + 1..n], fits)
    requires InStream(a0, base, stream) && acc0 <= stream
    ensures InStream(a, base, stream) && acc0 <= acc
    ensures acc <= stream <==> !fits || Alike(stream, |acc0|, n)
    ensures fits ==> |acc| >= n - 1
  {
    hide Content, Fins, FromCache;
    var k := |acc0|;
    var mid := if fits then acc0 + stream[k + 1..n] else acc0;
    PrefixOf(Content(a0), base, mid, acc);
    if !fits || Alike(stream, k, n) {
      PrefixInStream(Content(a0), base, mid, acc, stream);
    }
    if fits && acc <= stream {
      assert stream[k + 1..n] == acc[k..n - 1] == stream[k..n - 1] by { assert mid[k..] == stream[k + 1..n]; }
      forall i | k < i < n ensures stream[i] == stream[k] { AllAlike(stream, k, i, n); }
    }
  }

  lemma PrefixOf(m: map<int, byte>, base: int, mid: seq<byte>, acc: seq<byte>)
    requires FromCache(m, base, mid, acc)
    ensures mid <= acc
  {
  }

  lemma {:induction false} AllAlike(stream: seq<byte>, k: nat, i: nat, n: nat)
    requires k <= i < n <= |stream| && stream[k + 1..n] == stream[k..n - 1]
    ensures stream[i] == stream[k]
    decreases i
  {
    if k < i {
      AllAlike(stream, k, i - 1, n);
      assert stream[k + 1..n][i - 1 - k] == stream[k..n - 1][i - 1 - k];
    }
  }

  lemma TailInStream(stream: seq<byte>, data: seq<byte>, at: nat, skip: nat)
    requires at + |data| <= |stream| && data == stream[at..at + |data|] && skip <= |data|
    ensures data[skip..] == stream[at + skip..at + skip + |data[skip..]|]
  {
  }

  lemma PrefixInStream(m: map<int, byte>, base: int, mid: seq<byte>, acc: seq<byte>, stream: seq<byte>)
    requires FromCache(m, base, mid, acc) && mid <= stream
    requires forall q :: q in m ==> base <= q < base + |stream| && m[q] == stream[q - base]
    ensures mid <= acc <= stream
  {
    if |acc| > |mid| { assert Agrees(m, base, acc, |acc| - 1); }
    forall i | 0 <= i < |acc|
      ensures acc[i] == stream[i]
    {
      if i >= |mid| { assert Agrees(m, base, acc, i); }
    }
  }

  lemma FinKeepsCache(c: Table, bytes: nat, o: int, f: int, r: int)
    requires CacheSound(c, bytes, o, f) && (r == o || (o == f && r == f + 1))
    ensures Lift(c, r) == Lift(c, o) && CacheSound(c, bytes, r, f)
  {
    if r != o {
      var a := Lift(c, o);
      TidyParts(a, o);
      if a != map[] {
        var k :| k in a;
        EndInStream(a, k, f);
        assert false;
      }
      Reorigin(c, bytes, o, f, r);
    }
  }

  lemma FlushedParts(a0: Cache, a: Cache, base: int, acc0: seq<byte>, acc: seq<byte>, r: int, room: bool)
    requires Flushed(a0, a, base, acc0, acc, r, room)
    ensures FromCache(Content(a0), base, acc0, acc) && Shrinks(a0, a) && (room ==> Remains(a0, a, r))
  {
  }

  /** `tail` was appended if it fitted, and then only bytes that were cached. */
  ghost predicate Continued(a0: Cache, a: Cache, base: int, acc0: seq<byte>, acc: seq<byte>, tail: seq<byte>, fits: bool) {
    var mid := if fits then acc0 + tail else acc0;
    FromCache(Content(a0), base, mid, acc) && Shrinks(a0, a)
  }

  /**
   The out-of-order cache as a map from positions to bytes: a segment with nothing new only adds its FIN mark, any
   other one replaces exactly its own range, if there is a slot and room for its new bytes.
   */
  ghost predicate Appended(a: Cache, b: Cache, s: int, data: seq<byte>, fin: bool, ok: bool, slot: bool, spare: int) {
    var e := s + |data|;
    var net := |data| - Meet(Content(a).Keys, s, e);
    && net >= 0
    && (net == 0 ==> (ok <==> fin && e !in Fins(a) && EndsBare(a, e)))
    && (net > 0 ==> (ok <==> (slot || Adjoins(a, s, e)) && net <= spare))
    && (!ok ==> b == a)
    && (ok && net == 0 ==> Content(b) == Content(a) && Fins(b) == Fins(a) + {e})
    && (ok && net > 0 ==> Content(b) == Overlay(Content(a), s, data) && Fins(b) == FinsAfter(a, s, e, fin || e in Fins(a)))
  }

  /** What decides about a segment: the next position, the cache, the bytes accepted so far, and the room there is. */
  datatype Scene = Scene(next: int, first: int, cache: Cache, accepted: seq<byte>, shut: bool, room: int, spare: int, slot: bool)

  /** As `o`, but with more room. */
  ghost predicate Widened(o: Scene, o': Scene) {
    o' == o.(room := o'.room, spare := o'.spare) && o.room <= o'.room && o.spare <= o'.spare
  }

  /** More than `tail` was appended: cached bytes followed it. */
  predicate CacheJoined(acc0: seq<byte>, acc: seq<byte>, tail: seq<byte>, fits: bool) {
    acc != acc0 + if fits then tail else []
  }

  /**
   What a segment did.  One that is ahead is cached, or refused and then acknowledged at once; one with nothing new is
   acknowledged; anything else is appended from the next position on, if there is room for it, and acknowledged at once if
   cached bytes follow it.
   */
  ghost predicate Took(o: Scene, p: int, data: seq<byte>, fin: bool, a: Cache, acc: seq<byte>, next: int, acked: bool) {
    if data == [] then fin ==> TookFin(o, p, a, acked) && acc == o.accepted
    else if p > o.next then
      Appended(o.cache, a, p, data, fin, !acked, o.slot, o.spare) && acc == o.accepted && next == o.next
    else if p + |data| <= o.next then a == o.cache && acc == o.accepted && acked
    else
      var tail := data[o.next - p..];
      && Continued(o.cache, a, o.first, o.accepted, acc, tail, o.shut || |tail| <= o.room)
      && (o.shut || |tail| <= o.spare ==> Remains(o.cache, a, next))
      && (CacheJoined(o.accepted, acc, tail, o.shut || |tail| <= o.room) ==> acked)
  }

  /**
   What a FIN without data at `f` did.  One that is ahead is refused and acknowledged at once exactly if it is there
   already, if a cached segment reaches over it, or if it ends no cached segment and there is no slot.
   */
  ghost predicate TookFin(o: Scene, f: int, a: Cache, acked: bool) {
    if f > o.next then
      && (acked <==> f in Fins(o.cache) || Covered(o.cache, f) || (!EndsBare(o.cache, f) && !o.slot))
      && (if acked then a == o.cache else Content(a) == Content(o.cache) && Fins(a) == Fins(o.cache) + {f})
    else a == o.cache && (f + 1 >= o.next ==> acked)
  }

  lemma TookAhead(o: Scene, p: int, data: seq<byte>, fin: bool, a: Cache, acked: bool)
    requires data != [] && p > o.next && Appended(o.cache, a, p, data, fin, !acked, o.slot, o.spare)
    ensures Took(o, p, data, fin, a, o.accepted, o.next, acked)
  {
    hide Appended;
  }

  lemma TookBehind(o: Scene, p: int, data: seq<byte>, fin: bool)
    requires data != [] && p + |data| <= o.next
    ensures Took(o, p, data, fin, o.cache, o.accepted, o.next, true)
  {
  }

  lemma TookNext(o: Scene, p: int, data: seq<byte>, fin: bool, a: Cache, acc: seq<byte>, next: int, acked: bool)
    requires p <= o.next < p + |data|
    requires Continued(o.cache, a, o.first, o.accepted, acc, data[o.next - p..], o.shut || p + |data| - o.next <= o.room)
    requires o.shut || p + |data| - o.next <= o.spare ==> Remains(o.cache, a, next)
    requires CacheJoined(o.accepted, acc, data[o.next - p..], o.shut || p + |data| - o.next <= o.room) ==> acked
    ensures Took(o, p, data, fin, a, acc, next, acked)
  {
    hide Continued, Remains, CacheJoined;
  }

  /** The payload is the peer's at its position, or the head of the stream one place too early. */
  ghost predicate Comes(first: int, p: int, data: seq<byte>, stream: seq<byte>) {
    if p == first - 1 then data <= stream
    else first <= p && p + |data| <= first + |stream| && data == stream[p - first..p - first + |data|]
  }

  /** What a segment leaves is of the stream, unless it was one place too early and brought a byte that was different. */
  lemma TookInStream(o: Scene, p: int, data: seq<byte>, fin: bool, a: Cache, acc: seq<byte>, next: int, acked: bool, stream: seq<byte>)
    requires data != [] && Took(o, p, data, fin, a, acc, next, acked) && Comes(o.first, p, data, stream)
    requires InStream(o.cache, o.first, stream) && o.accepted <= stream && o.first <= o.next
    requires o.next < o.first + |stream| ==> o.next == o.first + |o.accepted|
    ensures InStream(a, o.first, stream) && o.accepted <= acc
    ensures var brings := o.next < p + |data| && (o.shut || p + |data| - o.next <= o.room);
            && (acc <= stream <==> (p == o.first - 1 && brings ==> |data| <= |stream| && Alike(stream, o.next - o.first, |data|)))
            && (p <= o.next && brings ==> o.first + |acc| >= p + |data|)
  {
    hide Took, InStream, Alike;
    if p > o.next {
      AheadInStream(o, p, data, fin, a, acc, next, acked, stream);
    } else if o.next >= p + |data| {
      BehindInStream(o, p, data, fin, a, acc, next, acked, stream);
    } else if p == o.first - 1 {
      EarlyInStream(o, p, data, fin, a, acc, next, acked, stream);
    } else {
      NextInStream(o, p, data, fin, a, acc, next, acked, stream);
    }
  }

  lemma AheadInStream(o: Scene, p: int, data: seq<byte>, fin: bool, a: Cache, acc: seq<byte>, next: int, acked: bool, stream: seq<byte>)
    requires Took(o, p, data, fin, a, acc, next, acked) && Comes(o.first, p, data, stream) && data != []
    requires InStream(o.cache, o.first, stream) && o.first <= o.next < p
    ensures InStream(a, o.first, stream) && acc == o.accepted
  {
    hide Content, Appended, InStream;
    AppendedInStream(o.cache, a, p, data, fin, !acked, o.slot, o.spare, o.first, stream);
  }

  lemma BehindInStream(o: Scene, p: int, data: seq<byte>, fin: bool, a: Cache, acc: seq<byte>, next: int, acked: bool, stream: seq<byte>)
    requires Took(o, p, data, fin, a, acc, next, acked) && data != []
    requires InStream(o.cache, o.first, stream) && p + |data| <= o.next
    ensures InStream(a, o.first, stream) && acc == o.accepted
  {
    hide InStream;
  }

  lemma EarlyInStream(o: Scene, p: int, data: seq<byte>, fin: bool, a: Cache, acc: seq<byte>, next: int, acked: bool, stream: seq<byte>)
    requires Took(o, p, data, fin, a, acc, next, acked) && Comes(o.first, p, data, stream)
    requires InStream(o.cache, o.first, stream) && o.accepted <= stream && p == o.first - 1 < o.next < p + |data|
    requires o.next < o.first + |stream| ==> o.next == o.first + |o.accepted|
    ensures InStream(a, o.first, stream) && o.accepted <= acc && |data| <= |stream|
    ensures var fits := o.shut || p + |data| - o.next <= o.room;
            && (acc <= stream <==> !fits || Alike(stream, o.next - o.first, |data|)) && (fits ==> o.first + |acc| >= p + |data|)
  {
    hide Content, Continued, Remains, InStream, Alike, CacheJoined;
    var k := o.next - o.first;
    HeadTail(stream, data, k + 1);
    ShiftedInStream(o.cache, a, o.first, o.accepted, acc, |data|, o.shut || p + |data| - o.next <= o.room, stream);
  }

  lemma NextInStream(o: Scene, p: int, data: seq<byte>, fin: bool, a: Cache, acc: seq<byte>, next: int, acked: bool, stream: seq<byte>)
    requires Took(o, p, data, fin, a, acc, next, acked) && Comes(o.first, p, data, stream)
    requires InStream(o.cache, o.first, stream) && o.accepted <= stream && o.first <= p <= o.next < p + |data|
    requires o.next < o.first + |stream| ==> o.next == o.first + |o.accepted|
    ensures InStream(a, o.first, stream) && o.accepted <= acc <= stream
    ensures o.shut || p + |data| - o.next <= o.room ==> o.first + |acc| >= p + |data|
  {
    hide Content, Continued, Remains, InStream, CacheJoined;
    TailInStream(stream, data, p - o.first, o.next - p);
    ContinuedInStream(o.cache, a, o.first, o.accepted, acc, data[o.next - p..], o.shut || p + |data| - o.next <= o.room, o.next, stream);
  }

  lemma TookBare(o: Scene, f: int, fin: bool, a: Cache, acc: seq<byte>, next: int, acked: bool)
    requires fin ==> TookFin(o, f, a, acked) && acc == o.accepted
    ensures Took(o, f, [], fin, a, acc, next, acked)
  {
    hide TookFin;
  }

  lemma TookOn(o: Scene, p: int, data: seq<byte>, fin: bool, a: Cache, acc: seq<byte>, next: int, acked: bool, next': int, acked': bool)
    requires data != [] && Took(o, p, data, fin, a, acc, next, acked) && next <= next' && (acked ==> acked')
    requires p > o.next ==> next' == next && acked' == acked
    ensures Took(o, p, data, fin, a, acc, next', acked')
  {
    hide Content, Fins, Appended, Continued, CacheJoined;
  }

  lemma FinInStream(a: Cache, e: int, f: int)
    requires OneStream(a, f)
    ensures e in Fins(a) ==> e == f
  {
  }

  /** A FIN mark put on the segment that ends at the end of the stream. */
  lemma MarkSound(c: Table, k: u32, bytes: nat, o: int, f: int)
    requires CacheSound(c, bytes, o, f) && k in c && !c[k].fin && Unwrap(o, k) + |c[k].data| == f
    ensures CacheSound(c[k := Segment(c[k].data, true)], bytes, o, f)
    ensures Content(Lift(c[k := Segment(c[k].data, true)], o)) == Content(Lift(c, o))
    ensures Fins(Lift(c[k := Segment(c[k].data, true)], o)) == Fins(Lift(c, o)) + {f}
    ensures |c[k := Segment(c[k].data, true)]| == |c|
    ensures EndsBare(Lift(c, o), f) && f !in Fins(Lift(c, o)) && !Covered(Lift(c, o), f)
  {
    hide Lift, Unwrap, Content, Fins, Tidy, Covered, EndsBare, OneStream;
    var a, p := Lift(c, o), Unwrap(o, k);
    LiftKey(c, o, k);
    EndIs(a, p);
    BareSays(a, p, o);
    MarkEnd(a, p, o);
    LiftUpdate(c, o, k, Segment(c[k].data, true));
    FinStream(a, Lift(c[k := Segment(c[k].data, true)], o), f);
    assert c[k := Segment(c[k].data, true)].Keys == c.Keys;
  }

  lemma InsertSound(c: Table, c': Table, bytes: nat, sq: u32, data: seq<byte>, fin: bool, o: int, f: int)
    requires CacheSound(c, bytes, o, f) && data != [] && Tidy(Lift(c', o), o)
    requires Unwrap(o, sq) + |data| <= f && (fin ==> Unwrap(o, sq) + |data| == f)
    requires Content(Lift(c', o)) == Overlay(Content(Lift(c, o)), Unwrap(o, sq), data)
    requires Fins(Lift(c', o)) == FinsAfter(Lift(c, o), Unwrap(o, sq), Unwrap(o, sq) + |data|, fin)
    requires |Lift(c', o)| <= |Lift(c, o)| + 1
    requires forall g :: OneStream(Lift(c', o), g) && Adjoins(Lift(c, o), Unwrap(o, sq), Unwrap(o, sq) + |data|) ==>
                           |Lift(c', o)| <= |Lift(c, o)|
    ensures Meet(Content(Lift(c, o)).Keys, Unwrap(o, sq), Unwrap(o, sq) + |data|) <= |data|
    ensures CacheSound(c', bytes + |data| - Meet(Content(Lift(c, o)).Keys, Unwrap(o, sq), Unwrap(o, sq) + |data|), o, f)
    ensures |c'| <= |c| + 1
    ensures Adjoins(Lift(c, o), Unwrap(o, sq), Unwrap(o, sq) + |data|) ==> |c'| <= |c|
  {
    hide Lift, Unwrap, Content, Fins, Tidy, Adjoins, OneStream, Meet, Overlay, FinsAfter;
    var a, b, s := Lift(c, o), Lift(c', o), Unwrap(o, sq);
    MeetFull(Content(a).Keys, s, s + |data|);
    OverlaySize(Content(a), s, data);
    OverlayStream(a, b, s, data, fin, f);
    LiftSize(c, o);
    LiftSize(c', o);
  }

  /** Adding the stream's own FIN mark keeps the cache within the stream. */
  lemma FinStream(a: Cache, b: Cache, f: int)
    requires OneStream(a, f) && Content(b) == Content(a) && Fins(b) == Fins(a) + {f}
    ensures OneStream(b, f)
  {
    hide Content, Fins;
  }

  ghost predicate Agrees(m: map<int, byte>, base: int, acc: seq<byte>, i: nat)
    requires i < |acc|
  {
    base + i in m && m[base + i] == acc[i]
  }

  /** The bytes accepted since `acc0` are the cached ones, position by position. */
  ghost predicate FromCache(m: map<int, byte>, base: int, acc0: seq<byte>, acc: seq<byte>) {
    && acc0 <= acc
    && forall i :: |acc0| <= i < |acc| ==> Agrees(m, base, acc, i)
  }

  ghost predicate Shrinks(a0: Cache, a: Cache) {
    && (forall q :: q in Content(a) ==> q in Content(a0) && Content(a)[q] == Content(a0)[q])
    && Fins(a) <= Fins(a0)
  }

  /** Where the delivery loop stands: what was taken, what is left, and that nothing else was lost if there was room. */
  ghost predicate Running(a0: Cache, a: Cache, base: int, acc0: seq<byte>, acc: seq<byte>, r: int, room: bool) {
    && FromCache(Content(a0), base, acc0, acc)
    && Shrinks(a0, a)
    && (room ==> Remains(a0, a, r))
    && PastBelow(a, MODULUS, r)
  }

  /** What one call of the flush did to the cache and to the accepted bytes. */
  ghost predicate Flushed(a0: Cache, a: Cache, base: int, acc0: seq<byte>, acc: seq<byte>, r: int, room: bool) {
    && FromCache(Content(a0), base, acc0, acc)
    && Shrinks(a0, a)
    && (room ==> Remains(a0, a, r))
  }

  lemma FlushDone(a0: Cache, a1: Cache, a2: Cache, base: int, acc0: seq<byte>, acc: seq<byte>, r1: int, r2: int, room: bool)
    requires Remains(a0, a1, r1) && Running(a1, a2, base, acc0, acc, r2, room) && r1 <= r2
    ensures Flushed(a0, a2, base, acc0, acc, r2, room)
  {
    if room { RemainsTrans(a0, a1, a2, r1, r2); }
    hide Content, Fins;
    forall i | |acc0| <= i < |acc|
      ensures Agrees(Content(a0), base, acc, i)
    {
      assert Agrees(Content(a1), base, acc, i);
    }
  }

  /** The cache seen from the new `rcvNxt` is the cache seen from the old one. */
  lemma Reorigin(c: Table, bytes: nat, o: int, f: int, r: int)
    requires CacheSound(c, bytes, o, f) && Beyond(Lift(c, o), MODULUS, r) && o <= r <= o + HALF
    ensures Lift(c, r) == Lift(c, o) && CacheSound(c, bytes, r, f)
  {
    hide Content, Lift, OneStream, Apart, Coalesced;
    LiftMove(c, o, r);
  }

  lemma RunStart(a: Cache, base: int, acc: seq<byte>, r: int, room: bool)
    requires PastBelow(a, MODULUS, r)
    ensures Running(a, a, base, acc, acc, r, room)
  {
  }

  lemma RunningPast(a0: Cache, a: Cache, base: int, acc0: seq<byte>, acc: seq<byte>, r: int, room: bool)
    requires Running(a0, a, base, acc0, acc, r, room)
    ensures PastBelow(a, MODULUS, r)
  {
  }

  lemma RunStep(a0: Cache, c: Table, k: u32, bytes: nat, o: int, f: int, r: int, r': int,
                base: int, acc0: seq<byte>, acc: seq<byte>, acc': seq<byte>, room: bool)
    requires k in c && CacheSound(c, bytes, o, f) && Unwrap(o, k) <= r < Unwrap(o, k) + |c[k].data|
    requires Running(a0, Lift(c, o), base, acc0, acc, r, room) && base + |acc| == r
    requires (acc' == acc && r' == r && !room)
          || (acc' == acc + c[k].data[r - Unwrap(o, k)..]
              && r' == Unwrap(o, k) + |c[k].data| + if c[k].fin then 1 else 0)
    ensures Running(a0, Lift(c - {k}, o), base, acc0, acc', r', room)
  {
    hide CacheSound, Lift, Unwrap, FromCache, Shrinks, Remains, PastBelow;
    RunNext(c, k, bytes, o, f, r, r');
    RunEntry(c, k, bytes, o, f, r);
    LiftRemove(c, o, k);
    RunTaken(a0, Lift(c, o), Unwrap(o, k), r, r', base, acc0, acc, acc');
  }

  lemma RunEntry(c: Table, k: u32, bytes: nat, o: int, f: int, r: int)
    requires k in c && CacheSound(c, bytes, o, f) && Unwrap(o, k) <= r < Unwrap(o, k) + |c[k].data|
    ensures Unwrap(o, k) + |c[k].data| < o + HALF && r < f
    ensures Unwrap(o, k) + |c[k].data| <= f
    ensures c[k].fin ==> Unwrap(o, k) + |c[k].data| == f
    ensures Unwrap(o, k) in Lift(c, o) && Lift(c, o)[Unwrap(o, k)] == c[k] && Apart(Lift(c, o))
  {
    hide Lift, Content, Unwrap;
    var a, p := Lift(c, o), Unwrap(o, k);
    LiftKey(c, o, k);
    TidyParts(a, o);
    EndInStream(a, p, f);
    Mark(a, p);
  }

  /** After a segment was taken, what is left lies behind it. */
  lemma RunNext(c: Table, k: u32, bytes: nat, o: int, f: int, r: int, r': int)
    requires k in c && Unwrap(o, k) <= r < Unwrap(o, k) + |c[k].data| && PastBelow(Lift(c, o), MODULUS, r)
    requires CacheSound(c, bytes, o, f)
    requires r' == r || r' == Unwrap(o, k) + |c[k].data| + if c[k].fin then 1 else 0
    ensures PastBelow(Lift(c - {k}, o), MODULUS, r')
  {
    hide Lift, Content, Unwrap;
    var a, p := Lift(c, o), Unwrap(o, k);
    LiftKey(c, o, k);
    LiftRemove(c, o, k);
    forall q | q in a - {p}
      ensures End(a - {p}, q) > r'
    {
      LiftBack(c, o, q);
      assert End(a, q) > r;
      assert q >= End(a, p);
      EndInStream(a, q, f);
      Mark(a, p);
      Mark(a, q);
    }
  }

  lemma RunTaken(a0: Cache, a: Cache, p: int, r: int, r': int, base: int, acc0: seq<byte>, acc: seq<byte>, acc': seq<byte>)
    requires Apart(a) && p in a && p <= r < End(a, p) && base + |acc| == r
    requires Shrinks(a0, a) && FromCache(Content(a0), base, acc0, acc)
    requires acc' == acc || (acc' == acc + a[p].data[r - p..] && r' >= End(a, p) && (a[p].fin ==> r' > End(a, p)))
    ensures FromCache(Content(a0), base, acc0, acc') && Shrinks(a0, a - {p})
    ensures acc' != acc && Remains(a0, a, r) && r <= r' ==> Remains(a0, a - {p}, r')
  {
    Erase(a, p);
    TailFromCache(a0, a, p, r, base, acc0, acc, acc');
    hide FromCache, Content;
    if acc' != acc && Remains(a0, a, r) && r <= r' {
      EraseRemains(a, p, r');
      RemainsTrans(a0, a, a - {p}, r, r');
    }
  }

  lemma TailFromCache(a0: Cache, a: Cache, p: int, r: int, base: int, acc0: seq<byte>, acc: seq<byte>, acc': seq<byte>)
    requires Apart(a) && p in a && p <= r < End(a, p) && base + |acc| == r
    requires Shrinks(a0, a) && FromCache(Content(a0), base, acc0, acc)
    requires acc' == acc || acc' == acc + a[p].data[r - p..]
    ensures FromCache(Content(a0), base, acc0, acc')
  {
    forall i | |acc0| <= i < |acc'|
      ensures Agrees(Content(a0), base, acc', i)
    {
      if i < |acc| { assert Agrees(Content(a0), base, acc, i); } else { ContentAt(a, p, base + i); }
    }
  }

  lemma SkipIs(k: u32, p: int, nxt: u32, r: int)
    requires k == Wrap(p) && nxt == Wrap(r) && p <= r < p + MODULUS
    ensures (if k == nxt then 0 else Sub32(nxt, k)) == r - p
  {
  }

  /** The segments with sequence numbers below `n` all start behind `r`. */
  ghost predicate Beyond(a: Cache, n: int, r: int) {
    forall p :: p in a && Wrap(p) < n ==> p > r
  }

  lemma BeyondNone(a: Cache, r: int)
    ensures Beyond(a, 0, r)
  {
  }

  lemma RunTest(c: Table, k: u32, bytes: nat, o: int, f: int, r: int)
    requires k in c && CacheSound(c, bytes, o, f) && o <= r <= o + HALF && PastBelow(Lift(c, o), MODULUS, r)
    ensures (k == Wrap(r) || (SeqGt(Wrap(r), k) && SeqGt(Add32(k, |c[k].data|), Wrap(r)))) <==> Unwrap(o, k) <= r
    ensures Unwrap(o, k) + |c[k].data| > r
  {
    hide Lift, Content, Apart, Coalesced, OneStream;
    var a, p := Lift(c, o), Unwrap(o, k);
    LiftKey(c, o, k);
    assert o < p && p + |c[k].data| < o + HALF && End(a, p) > r;
    hide *;
    WrapAdd(p, |c[k].data|);
    CompareIsOrder(r, p);
    CompareIsOrder(p + |c[k].data|, r);
  }

  lemma BeyondNext(c: Table, k: u32, o: int, n: nat, r: int)
    requires n <= MODULUS && NextKey(c, n) == Some(k) && Beyond(Lift(c, o), n, r) && Unwrap(o, k) > r
    ensures Beyond(Lift(c, o), (k as int) + 1, r)
  {
    hide NextKey, Unwrap, Lift;
    forall p | p in Lift(c, o) && Wrap(p) < (k as int) + 1
      ensures p > r
    {
      LiftBack(c, o, p);
    }
  }

  lemma BeyondEnd(c: Table, o: int, n: nat, r: int)
    requires n <= MODULUS && NextKey(c, n) == None && Beyond(Lift(c, o), n, r)
    ensures Beyond(Lift(c, o), MODULUS, r)
  {
    forall p | p in Lift(c, o) ensures Wrap(p) < n { LiftBack(c, o, p); }
  }

  /** A FIN at `f` was taken in this step, or nothing happened. */
  predicate FinStep(r: int, r': int, fin: bool, fin': bool, s: State, s': State, f: int) {
    (r' == r && fin' == fin && s' == s)
    || (!fin && fin' && r == f && r' == f + 1 && s' == AfterFin(s))
  }

  /** The segments with sequence numbers below `n` all end behind `r`. */
  ghost predicate PastBelow(a: Cache, n: int, r: int) {
    forall p :: p in a && Wrap(p) < n ==> End(a, p) > r
  }

  lemma RemainsAll(a: Cache, r: int)
    ensures Remains(a, a, r) && PastBelow(a, 0, r)
  {
  }

  lemma FinsShrink(a0: Cache, a: Cache, r: int)
    requires Remains(a0, a, r)
    ensures Fins(a) <= Fins(a0)
  {
  }

  lemma PruneTest(c: Table, k: u32, bytes: nat, o: int, f: int, r: int)
    requires k in c && CacheSound(c, bytes, o, f) && o <= r <= o + HALF
    ensures SeqGe(Wrap(r), Add32(k, |c[k].data|)) <==> Unwrap(o, k) + |c[k].data| <= r
    ensures Unwrap(o, k) in Lift(c, o) && End(Lift(c, o), Unwrap(o, k)) == Unwrap(o, k) + |c[k].data|
    ensures Unwrap(o, k) + |c[k].data| < o + HALF
  {
    hide Lift, Content, Apart, Coalesced, OneStream;
    var a, p := Lift(c, o), Unwrap(o, k);
    LiftKey(c, o, k);
    assert o < p && p + |c[k].data| < o + HALF;
    hide *;
    WrapAdd(p, |c[k].data|);
    CompareIsOrder(r, p + |c[k].data|);
  }

  lemma PruneSkip(c: Table, k: u32, o: int, n: nat, r: int)
    requires n <= MODULUS && NextKey(c, n) == Some(k) && PastBelow(Lift(c, o), n, r)
    requires Unwrap(o, k) + |c[k].data| > r
    ensures PastBelow(Lift(c, o), (k as int) + 1, r)
  {
    var a := Lift(c, o);
    LiftKey(c, o, k);
    forall p | p in a && Wrap(p) < (k as int) + 1
      ensures End(a, p) > r
    {
      LiftBack(c, o, p);
    }
  }

  lemma PruneNext(c: Table, bytes: nat, k: u32, o: int, n: nat, r: int, r': int, f: int)
    requires n <= MODULUS && NextKey(c, n) == Some(k) && PastBelow(Lift(c, o), n, r)
    requires CacheSound(c - {k}, bytes, o, f) && (r' == r || (r == f && r' == f + 1))
    ensures PastBelow(Lift(c - {k}, o), (k as int) + 1, r')
  {
    hide Lift, Content, Apart, Coalesced, OneStream, NextKey, Unwrap, Wrap, Ahead;
    var b := Lift(c - {k}, o);
    LiftRemove(c, o, k);
    TidyParts(b, o);
    forall p | p in b && Wrap(p) < (k as int) + 1
      ensures End(b, p) > r'
    {
      LiftBack(c - {k}, o, p);
      LiftBack(c, o, p);
      EndInStream(b, p, f);
    }
  }

  /** In one stream no segment reaches beyond the FIN. */
  lemma EndInStream(a: Cache, p: int, f: int)
    requires Apart(a) && OneStream(a, f) && p in a
    ensures End(a, p) <= f
  {
    Mark(a, p);
    if |a[p].data| > 0 { ContentAt(a, p, End(a, p) - 1); }
  }

  lemma PruneEnd(c: Table, o: int, n: nat, r: int)
    requires n <= MODULUS && NextKey(c, n) == None && PastBelow(Lift(c, o), n, r)
    ensures PastBelow(Lift(c, o), MODULUS, r)
  {
    forall p | p in Lift(c, o) ensures Wrap(p) < n { LiftBack(c, o, p); }
  }

  /** `a` is `a0` with bytes and marks below `r` dropped, and nothing else. */
  ghost predicate Remains(a0: Cache, a: Cache, r: int) {
    && (forall q :: q in Content(a) ==> q in Content(a0) && Content(a)[q] == Content(a0)[q])
    && (forall q :: q in Content(a0) && q >= r ==> q in Content(a))
    && Fins(a) <= Fins(a0)
    && (forall q :: q in Fins(a0) && q >= r ==> q in Fins(a))
  }

  lemma RemainsTrans(a: Cache, b: Cache, d: Cache, r: int, r': int)
    requires Remains(a, b, r) && Remains(b, d, r') && r <= r'
    ensures Remains(a, d, r')
  {
    hide Content, Fins;
  }

  lemma EraseRemains(a: Cache, p: int, r: int)
    requires Apart(a) && p in a && End(a, p) <= r && (a[p].fin ==> End(a, p) < r)
    ensures Remains(a, a - {p}, r)
  {
    Erase(a, p);
    forall q | q in Fins(a) && q >= r
      ensures q in Fins(a - {p})
    {
      var l :| l in a && a[l].fin && End(a, l) == q;
      assert l in a - {p} && (a - {p})[l] == a[l];
    }
    hide Content;
  }

  /** What a passed entry can say about the FIN. */
  lemma PassedEntry(c: Table, k: u32, bytes: nat, o: int, f: int, r: int)
    requires k in c && CacheSound(c, bytes, o, f) && o <= r <= o + HALF && Unwrap(o, k) + |c[k].data| <= r
    ensures Add32(k, |c[k].data|) == Wrap(Unwrap(o, k) + |c[k].data|)
    ensures o < Unwrap(o, k) && Unwrap(o, k) + |c[k].data| < o + HALF
    ensures c[k].fin ==> Unwrap(o, k) + |c[k].data| == f && f in Fins(Lift(c, o))
    ensures (Add32(k, |c[k].data|) == Wrap(r)) <==> (Unwrap(o, k) + |c[k].data| == r)
  {
    hide Lift, Content, Fins;
    var a, p := Lift(c, o), Unwrap(o, k);
    LiftKey(c, o, k);
    WrapAdd(p, |c[k].data|);
    assert o < p;
    CompareIsOrder(p + |c[k].data|, r);
    Mark(a, p);
  }

  lemma PassedRemains(c: Table, k: u32, bytes: nat, o: int, f: int, r: int)
    requires k in c && CacheSound(c, bytes, o, f) && Unwrap(o, k) + |c[k].data| <= r
    ensures !c[k].fin || f < r ==> Remains(Lift(c, o), Lift(c, o) - {Unwrap(o, k)}, r)
    ensures c[k].fin ==> Remains(Lift(c, o), Lift(c, o) - {Unwrap(o, k)}, r + 1)
  {
    hide Lift, Unwrap, Content, Fins, Remains, Apart;
    var a, p := Lift(c, o), Unwrap(o, k);
    LiftKey(c, o, k);
    Mark(a, p);
    if !c[k].fin || f < r { EraseRemains(a, p, r); }
    if c[k].fin { EraseRemains(a, p, r + 1); }
  }

  lemma UncacheSound(c: Table, k: u32, bytes: nat, o: int, f: int)
    requires k in c && CacheSound(c, bytes, o, f)
    ensures |c[k].data| <= bytes && CacheSound(c - {k}, bytes - |c[k].data|, o, f)
    ensures Lift(c - {k}, o) == Lift(c, o) - {Unwrap(o, k)}
  {
    hide Lift, Unwrap;
    LiftKey(c, o, k);
    LiftRemove(c, o, k);
    var a, p := Lift(c, o), Unwrap(o, k);
    TidyParts(a, o);
    Erase(a, p);
    EraseSize(a, p);
    EraseTidy(a, p, o);
    EraseStream(a, p, f);
    hide *;
  }

  lemma EraseTidy(a: Cache, p: int, o: int)
    requires Tidy(a, o) && p in a
    ensures Tidy(a - {p}, o)
  {
  }

  lemma EraseStream(a: Cache, p: int, f: int)
    requires Apart(a) && OneStream(a, f) && p in a
    ensures OneStream(a - {p}, f)
  {
    Erase(a, p);
    hide Content;
  }
}
