/**
 The Wintun packet ring: one producer and one consumer on a buffer of CAPACITY bytes, with trailing bytes so that a
 packet that starts before the end is stored in one piece.  Each call is one step.
 */
module WintunRing {
  import opened Bytes

  const CAPACITY: nat := 0x800000
  const TRAILING: nat := 0x10000
  const MAX_PACKET: nat := 0xffff
  const ALIGN: nat := 4
  const HEADER: nat := 4

  /** `value & (CAPACITY - 1)` of a 32-bit value; CAPACITY is a power of two that divides 2^32. */
  function RingWrap(value: int): nat {
    value % CAPACITY
  }

  /** The size rounded up to a multiple of four. */
  function PacketAlign(size: nat): nat {
    (size + (ALIGN - 1)) / ALIGN * ALIGN
  }

  predicate OnGrid(p: nat) {
    p % ALIGN == 0
  }

  /** The room a packet takes in the ring. */
  function Room(x: seq<byte>): nat {
    PacketAlign(HEADER + |x|)
  }

  lemma RoomBound(x: seq<byte>)
    ensures HEADER + |x| <= Room(x) < HEADER + |x| + ALIGN && OnGrid(Room(x))
    ensures |x| <= MAX_PACKET ==> Room(x) <= TRAILING + ALIGN
  {
  }

  function SizeField(d: seq<byte>, at: nat): nat
    requires at + 4 <= |d|
  {
    (d[at] as int) + 256 * (d[at + 1] as int) + 65536 * (d[at + 2] as int) + 16777216 * (d[at + 3] as int)
  }

  /** Packet `x` is stored at index `at`: its size, then its bytes. */
  ghost predicate Stored(d: seq<byte>, at: nat, x: seq<byte>) {
    && at + HEADER + |x| <= |d|
    && SizeField(d, at) == |x| <= MAX_PACKET
    && d[at + HEADER..at + HEADER + |x|] == x
  }

  function Total(q: seq<seq<byte>>): nat {
    if q == [] then 0 else Room(q[0]) + Total(q[1..])
  }

  /** The packets follow each other from position `p` on. */
  ghost predicate Laid(d: seq<byte>, p: nat, q: seq<seq<byte>>)
    decreases |q|
  {
    q == [] || (Stored(d, RingWrap(p), q[0]) && Laid(d, p + Room(q[0]), q[1..]))
  }

  /** Two packets within one turn of the ring share no byte, even if one of them runs into the trailing bytes. */
  lemma Disjoint(p: nat, n: nat, p': nat, n': nat, j: nat, j': nat)
    requires p + n <= p' && p' + n' <= p + CAPACITY && j < n && j' < n'
    ensures RingWrap(p) + j != RingWrap(p') + j'
  {
    var d := p' - p;
    assert RingWrap(p') == RingWrap(p) + d || RingWrap(p') == RingWrap(p) + d - CAPACITY by {
      WrapShift(p, d);
    }
  }

  lemma WrapShift(p: nat, d: nat)
    requires d <= CAPACITY
    ensures RingWrap(p + d) == RingWrap(p) + d || RingWrap(p + d) == RingWrap(p) + d - CAPACITY
  {
  }

  /** Only [at, at + n) has changed. */
  ghost predicate Outside(d: seq<byte>, e: seq<byte>, at: nat, n: nat) {
    |d| == |e| && forall i :: 0 <= i < |d| && !(at <= i < at + n) ==> e[i] == d[i]
  }

  lemma StoredKept(d: seq<byte>, e: seq<byte>, p: nat, x: seq<byte>, t: nat, n: nat)
    requires Stored(d, RingWrap(p), x) && Outside(d, e, RingWrap(t), n)
    requires p + Room(x) <= t && t + n <= p + CAPACITY
    ensures Stored(e, RingWrap(p), x)
  {
    RoomBound(x);
    var a, b := RingWrap(p), RingWrap(t);
    hide Room;
    forall i | a <= i < a + HEADER + |x|
      ensures e[i] == d[i]
    {
      if b <= i < b + n { Disjoint(p, Room(x), t, n, i - a, i - b); }
    }
    hide RingWrap;
    assert e[a + HEADER..a + HEADER + |x|] == d[a + HEADER..a + HEADER + |x|];
  }

  /** Writing behind the last packet leaves the packets alone. */
  lemma {:induction false} LaidKept(d: seq<byte>, e: seq<byte>, p: nat, q: seq<seq<byte>>, t: nat, n: nat)
    requires Laid(d, p, q) && Outside(d, e, RingWrap(t), n) && p + Total(q) <= t && t + n <= p + CAPACITY
    ensures Laid(e, p, q)
    decreases |q|
  {
    if q != [] {
      StoredKept(d, e, p, q[0], t, n);
      LaidKept(d, e, p + Room(q[0]), q[1..], t, n);
    }
  }

  lemma {:induction false} LaidMore(d: seq<byte>, p: nat, q: seq<seq<byte>>, x: seq<byte>)
    requires Laid(d, p, q) && Stored(d, RingWrap(p + Total(q)), x)
    ensures Laid(d, p, q + [x]) && Total(q + [x]) == Total(q) + Room(x)
    decreases |q|
  {
    if q == [] {
      assert [x][1..] == [];
    } else {
      LaidMore(d, p + Room(q[0]), q[1..], x);
      assert (q + [x])[1..] == q[1..] + [x];
    }
  }

  datatype Error = NoError | MessageSize | InvalidArgument

  class Ring {
    const data: array<byte>
    var head: nat
    var tail: nat
    // recorded by the model: the packets in the ring, and the unbounded positions of head and tail
    var packets: seq<seq<byte>>
    var headPos: nat
    var tailPos: nat

    constructor ()
      ensures Valid() && packets == [] && fresh(data)
    {
      data := new byte[CAPACITY + TRAILING](_ => 0);
      head, tail, packets, headPos, tailPos := 0, 0, [], 0, 0;
    }

    ghost predicate Valid()
      reads this, data
    {
      && data.Length == CAPACITY + TRAILING
      && head == RingWrap(headPos) && tail == RingWrap(tailPos)
      && OnGrid(headPos) && tailPos == headPos + Total(packets) < headPos + CAPACITY && OnGrid(tailPos)
      && Laid(data[..], headPos, packets)
    }

    /** Put the size and the bytes of `x` at index `at`. */
    method Fill(at: nat, x: seq<byte>)
      requires |x| <= MAX_PACKET && at + HEADER + |x| <= data.Length
      modifies data
      ensures Stored(data[..], at, x) && Outside(old(data[..]), data[..], at, HEADER + |x|)
    {
      data[at], data[at + 1], data[at + 2], data[at + 3] := |x| % 256, |x| / 256, 0, 0;
      forall i | 0 <= i < |x| {
        data[at + HEADER + i] := x[i];
      }
      assert data[..][at + HEADER..at + HEADER + |x|] == x;
    }

    /** Offer a packet: stored behind the others if it fits; the result is its size, and zero when the ring is full. */
    method SendTry(x: seq<byte>) returns (r: int, error: Error)
      requires Valid()
      modifies this, data
      ensures Valid() && error == (if |x| > MAX_PACKET then MessageSize else NoError)
      ensures error == NoError && Room(x) <= CAPACITY - ALIGN - old(Total(packets)) ==>
                r == |x| && packets == old(packets) + [x] && headPos == old(headPos)
      ensures error == NoError && Room(x) > CAPACITY - ALIGN - old(Total(packets)) ==> r == 0 && packets == old(packets)
      ensures error != NoError ==> r == -1 && packets == old(packets)
    {
      hide RingWrap, PacketAlign, OnGrid, Stored, Laid, Total, Outside;
      if |x| > MAX_PACKET {
        return -1, MessageSize;
      }
      Guards();
      RoomBound(x);
      // the three guards of the original never fail
      if head >= CAPACITY || tail >= CAPACITY {
        assert false;
      }
      var aligned := PacketAlign(HEADER + |x|);
      if tail + aligned > data.Length {
        assert false;
      }
      var avail := RingWrap(head - tail - ALIGN);
      if aligned > avail {
        return 0, NoError;
      }
      ghost var d := data[..];
      Fill(tail, x);
      Sent(d, data[..], headPos, packets, tailPos, x);
      WrapSum(tailPos, aligned);
      tail := RingWrap(tail + aligned);
      packets, tailPos := packets + [x], tailPos + aligned;
      return |x|, NoError;
    }

    /** Take the first packet if it fits the caller's buffer; zero when the ring is empty. */
    method RecvOne(capacity: nat) returns (r: int, x: seq<byte>, error: Error)
      requires Valid()
      modifies this
      ensures Valid()
      ensures old(packets) == [] ==> r == 0 && error == NoError && packets == []
      ensures old(packets) != [] && |old(packets)[0]| <= capacity ==>
                r == |x| && x == old(packets)[0] && error == NoError && packets == old(packets)[1..]
      ensures old(packets) != [] && |old(packets)[0]| > capacity ==> r == -1 && error == MessageSize && packets == old(packets)
    {
      hide RingWrap, PacketAlign, OnGrid, Total, Outside, Laid, SizeField;
      Guards();
      x := [];
      if head >= CAPACITY || tail >= CAPACITY {
        assert false;
      }
      if head == tail {
        return 0, x, NoError;
      }
      First(data[..], headPos, packets);
      var content := RingWrap(tail - head);
      if content < HEADER {
        assert false;
      }
      var size := SizeField(data[..], head);
      if size > MAX_PACKET {
        assert false;
      }
      var aligned := PacketAlign(HEADER + size);
      if aligned > content {
        assert false;
      }
      RoomBound(packets[0]);
      if head + aligned > data.Length {
        assert false;
      }
      if capacity < size {
        return -1, x, MessageSize;
      }
      x := data[head + HEADER..head + HEADER + size];
      WrapSum(headPos, aligned);
      head := RingWrap(head + aligned);
      headPos, packets := headPos + aligned, packets[1..];
      return size, x, NoError;
    }

    /** What the indices say about the ring. */
    lemma Guards()
      requires Valid()
      ensures head <= CAPACITY - ALIGN && tail <= CAPACITY - ALIGN
      ensures Total(packets) <= CAPACITY - ALIGN
      ensures RingWrap(head - tail - ALIGN) == CAPACITY - ALIGN - Total(packets)
      ensures RingWrap(tail - head) == Total(packets)
      ensures head == tail <==> packets == []
      ensures packets != [] ==> Total(packets) >= HEADER
    {
      hide Laid, Total;
      Aligned(headPos);
      Aligned(tailPos);
      Distances(headPos, tailPos);
      NoneOrSome(packets);
    }
  }

  /** A step of the producer or of the consumer. */
  datatype Op = Send(x: seq<byte>) | Recv(capacity: nat)

  /** A plain queue of packets, and what went in and came out of it. */
  datatype Pipe = Pipe(queue: seq<seq<byte>>, sent: seq<seq<byte>>, received: seq<seq<byte>>)
  {
    /** A packet goes in if there is room for it, and the first one comes out if it fits the buffer. */
    function Do(op: Op): Pipe {
      match op
      case Send(x) =>
        if |x| <= MAX_PACKET && Room(x) + Total(queue) <= CAPACITY - ALIGN then this.(queue := queue + [x], sent := sent + [x]) else this
      case Recv(capacity) =>
        if queue != [] && |queue[0]| <= capacity then this.(queue := queue[1..], received := received + [queue[0]]) else this
    }
  }

  function Replay(ops: seq<Op>): Pipe {
    if ops == [] then Pipe([], [], []) else Replay(ops[..|ops| - 1]).Do(ops[|ops| - 1])
  }

  /**
   In every interleaving the ring behaves like that queue: the consumer takes out what the producer put in, in order.  The
   results alone tell what went in and out.
   */
  method Exchange(ring: Ring, ops: seq<Op>) returns (sent: seq<seq<byte>>, received: seq<seq<byte>>)
    requires ring.Valid() && ring.packets == []
    requires forall i :: 0 <= i < |ops| && ops[i].Send? ==> ops[i].x != []
    modifies ring, ring.data
    ensures ring.Valid() && sent == received + ring.packets
    ensures Replay(ops) == Pipe(ring.packets, sent, received)
  {
    hide Room, Total, Ring.Valid, Pipe.Do;
    sent, received := [], [];
    for i := 0 to |ops|
      invariant ring.Valid() && sent == received + ring.packets
      invariant forall j :: 0 <= j < |ring.packets| ==> ring.packets[j] != []
      invariant Replay(ops[..i]) == Pipe(ring.packets, sent, received)
    {
      assert ops[..i + 1][..i] == ops[..i];
      sent, received := Try(ring, ops[i], sent, received);
    }
    assert ops[..|ops|] == ops;
  }

  /** One step of either side. */
  method Try(ring: Ring, op: Op, sent: seq<seq<byte>>, received: seq<seq<byte>>)
    returns (sent': seq<seq<byte>>, received': seq<seq<byte>>)
    requires ring.Valid() && sent == received + ring.packets && (op.Send? ==> op.x != [])
    requires forall j :: 0 <= j < |ring.packets| ==> ring.packets[j] != []
    modifies ring, ring.data
    ensures ring.Valid() && sent' == received' + ring.packets
    ensures forall j :: 0 <= j < |ring.packets| ==> ring.packets[j] != []
    ensures Pipe(ring.packets, sent', received') == Pipe(old(ring.packets), sent, received).Do(op)
  {
    hide Room, Total, Ring.Valid;
    sent', received' := sent, received;
    match op
    case Send(x) =>
      var r, error := ring.SendTry(x);
      if r > 0 {
        sent' := sent + [x];
      }
    case Recv(capacity) =>
      var r, x, error := ring.RecvOne(capacity);
      if r > 0 {
        received' := received + [x];
      }
  }

  lemma Aligned(p: nat)
    requires OnGrid(p)
    ensures RingWrap(p) <= CAPACITY - ALIGN
  {
  }

  lemma Distances(p: nat, q: nat)
    requires p <= q < p + CAPACITY && OnGrid(p) && OnGrid(q)
    ensures q - p <= CAPACITY - ALIGN
    ensures RingWrap(RingWrap(p) - RingWrap(q) - ALIGN) == CAPACITY - ALIGN - (q - p)
    ensures RingWrap(RingWrap(q) - RingWrap(p)) == q - p
    ensures RingWrap(p) == RingWrap(q) <==> p == q
  {
    WrapShift(p, q - p);
  }

  lemma WrapSum(p: nat, n: nat)
    ensures RingWrap(RingWrap(p) + n) == RingWrap(p + n)
  {
  }

  lemma NoneOrSome(q: seq<seq<byte>>)
    ensures Total(q) == 0 <==> q == []
    ensures q != [] ==> Total(q) >= HEADER
  {
    if q != [] { RoomBound(q[0]); }
  }

  /** The ring after a packet was stored at its tail. */
  lemma Sent(d: seq<byte>, e: seq<byte>, p: nat, q: seq<seq<byte>>, t: nat, x: seq<byte>)
    requires Laid(d, p, q) && t == p + Total(q) && Room(x) <= CAPACITY - ALIGN - Total(q)
    requires Stored(e, RingWrap(t), x) && Outside(d, e, RingWrap(t), HEADER + |x|)
    ensures Laid(e, p, q + [x]) && Total(q + [x]) == Total(q) + Room(x)
    ensures t + Room(x) < p + CAPACITY && (OnGrid(t) ==> OnGrid(t + Room(x)))
  {
    RoomBound(x);
    hide *;
    AlignSum(t, Room(x));
    LaidKept(d, e, p, q, t, HEADER + |x|);
    LaidMore(e, p, q, x);
  }

  lemma AlignSum(t: nat, n: nat)
    requires OnGrid(n)
    ensures OnGrid(t) ==> OnGrid(t + n)
  {
  }

  lemma First(d: seq<byte>, p: nat, q: seq<seq<byte>>)
    requires Laid(d, p, q) && q != []
    ensures Stored(d, RingWrap(p), q[0]) && Laid(d, p + Room(q[0]), q[1..])
    ensures Total(q) == Room(q[0]) + Total(q[1..]) && (OnGrid(p) ==> OnGrid(p + Room(q[0])))
  {
    RoomBound(q[0]);
    hide Room, RingWrap;
    AlignSum(p, Room(q[0]));
  }
}
