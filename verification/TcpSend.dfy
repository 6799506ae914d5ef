/**
 The sending side of a flow: one write at a time, cut into segments straight from the user's buffers, with zero-window
 probes and retransmission rounds.

 `base` is the position of the first data byte, one after the SYN.
 */
module TcpSend {
  import opened Bytes
  import opened SeqNum
  import opened DelayedAck

  // a window of 65535 << 14 bytes is smaller than this
  const WINDOW_BOUND: nat := 0x4000_0000

  // ---- the user's buffers ----

  function Flat(bs: seq<seq<byte>>): seq<byte> {
    if bs == [] then [] else Flat(bs[..|bs| - 1]) + bs[|bs| - 1]
  }

  /** The offset in the write at which buffer `i` begins. */
  function Start(bs: seq<seq<byte>>, i: nat): nat
    requires i <= |bs|
  {
    |Flat(bs[..i])|
  }

  lemma StartNext(bs: seq<seq<byte>>, i: nat)
    requires i < |bs|
    ensures Start(bs, i + 1) == Start(bs, i) + |bs[i]|
  {
    assert bs[..i + 1][..i] == bs[..i];
  }

  lemma StartEnd(bs: seq<seq<byte>>)
    ensures Start(bs, |bs|) == |Flat(bs)| && Start(bs, 0) == 0
  {
    assert bs[..|bs|] == bs;
  }

  lemma {:induction false} StartOrder(bs: seq<seq<byte>>, i: nat, j: nat)
    requires i <= j <= |bs|
    ensures Start(bs, i) <= Start(bs, j)
    ensures i < j ==> Start(bs, i) + |bs[i]| <= Start(bs, j)
    decreases j - i
  {
    if i < j {
      StartNext(bs, i);
      StartOrder(bs, i + 1, j);
    }
  }

  /** A stretch of one buffer is a stretch of the whole write. */
  lemma {:induction false} FlatSlice(bs: seq<seq<byte>>, i: nat, o: nat, n: nat)
    requires i < |bs| && o + n <= |bs[i]|
    ensures Start(bs, i) + o + n <= |Flat(bs)|
    ensures Flat(bs)[Start(bs, i) + o..Start(bs, i) + o + n] == bs[i][o..o + n]
    decreases |bs|
  {
    var k := |bs| - 1;
    if i < k {
      assert bs[..k][..i] == bs[..i];
      FlatSlice(bs[..k], i, o, n);
    }
  }

  /** (i, o) is the place of `offset` in the buffers. */
  ghost predicate At(bs: seq<seq<byte>>, i: nat, o: nat, offset: nat) {
    && i <= |bs|
    && offset == Start(bs, i) + o
    && (if i < |bs| then o <= |bs[i]| else o == 0)
  }

  /** Step over exhausted buffers. */
  method Locate(bs: seq<seq<byte>>, i0: nat, o0: nat, ghost offset: nat) returns (i: nat, o: nat)
    requires At(bs, i0, o0, offset)
    ensures At(bs, i, o, offset)
    ensures i < |bs| ==> o < |bs[i]|
    ensures i == |bs| <==> offset == |Flat(bs)|
  {
    i, o := i0, o0;
    StartEnd(bs);
    while i < |bs| && o >= |bs[i]|
      invariant At(bs, i, o, offset)
    {
      StartNext(bs, i);
      o := o - |bs[i]|;
      i := i + 1;
    }
    if i < |bs| { StartOrder(bs, i, |bs|); }
  }

  ghost predicate HoldsAt(held: map<int, byte>, pos: int, data: seq<byte>, i: nat)
    requires i < |data|
  {
    pos + i in held && held[pos + i] == data[i]
  }

  /** The peer holds `data` from position `pos` on. */
  ghost predicate Holds(held: map<int, byte>, pos: int, data: seq<byte>) {
    forall i :: 0 <= i < |data| ==> HoldsAt(held, pos, data, i)
  }

  lemma PrefixSlice(s: seq<byte>, m: nat, x: nat, n: nat)
    requires x + n <= m <= |s|
    ensures s[..m][x..x + n] == s[x..x + n]
  {
  }

  lemma TailSlice(s: seq<byte>, x: nat, y: nat, n: nat)
    requires x + y + n <= |s|
    ensures s[x..][y..y + n] == s[x + y..x + y + n]
  {
  }

  // ---- state ----

  datatype WriteOp = WriteOp(buffers: seq<seq<byte>>, total: nat, offset: nat, bufIndex: nat, bufOff: nat, startSeq: u32,
                             implicitAccept: bool, started: bool, startPos: int)

  /** A data segment that was built at some time. */
  datatype Piece = Piece(pos: int, data: seq<byte>)

  /** Where the sending coroutine is suspended. */
  datatype Phase = Idle | Spawned | Handshake | Window | Device | Progress

  /** What wakes it up. */
  datatype Wake = Signal | Timer | DeviceDone(ok: bool)

  /** A write that was completed with success. */
  datatype Written = Written(pos: int, data: seq<byte>)

  /** What every outgoing segment carries about the receiving side. */
  datatype Line = Line(rcvNxt: u32, wnd: nat, early: bool, pos: int)

  /**
   The 32-bit state of the engine, and beside it what the model records: the positions of `una` and `nxt`, the `plan`
   of all bytes that have or will get a position, the pieces put on the wire, and whether the byte at `nxt` was probed.
   */
  datatype Tx = Tx(una: u32, nxt: u32, peerWnd: nat, probe: bool, op: Option<WriteOp>, finSent: bool, finPending: bool,
                   unaPos: int, nxtPos: int, plan: seq<byte>, wire: seq<Piece>, probed: bool)
  {
    /** Bytes of the running write that have not been sent. */
    function Unsent(): int {
      if op.Some? && op.value.started then op.value.total - op.value.offset else 0
    }

    /** The position behind the last byte sent. */
    function Edge(): int {
      nxtPos - if finSent then 1 else 0
    }

    /** The position behind the last byte that may be on the wire. */
    function Front(): int {
      Edge() + if probed then 1 else 0
    }

    ghost predicate Circle(base: int) {
      && una == Wrap(unaPos) && nxt == Wrap(nxtPos) && peerWnd < WINDOW_BOUND
      && base - 1 <= unaPos <= nxtPos <= unaPos + WINDOW_BOUND
      && (finSent ==> base < nxtPos <= unaPos + 1)
    }

    /** The sent bytes and the rest of the running write make up the plan. */
    ghost predicate Planned(base: int) {
      && (nxtPos < base ==> plan == [] && wire == [] && op.None? && !probed)
      && (base <= nxtPos ==> Edge() - base + Unsent() == |plan|)
      && (finSent ==> Unsent() == 0 && !probed && (op.Some? ==> op.value.started))
      && (op.Some? ==> Running(base, op.value))
      && (probed ==> Unsent() > 0 && InBuffer(op.value))
    }

    predicate InBuffer(w: WriteOp) {
      w.bufIndex < |w.buffers| && w.bufOff < |w.buffers[w.bufIndex]|
    }

    ghost predicate Running(base: int, w: WriteOp) {
      && w.total == |Flat(w.buffers)| < MODULUS && w.offset <= w.total && w.total > 0
      && At(w.buffers, w.bufIndex, w.bufOff, w.offset)
      && (!w.started ==> w.offset == 0)
      && (w.started ==>
            && w.startSeq == Wrap(w.startPos) && base <= w.startPos <= base + |plan| && w.startPos + w.offset == Edge()
            && plan[w.startPos - base..] == Flat(w.buffers))
    }

    /** Every piece on the wire is the stretch of the plan at its position. */
    ghost predicate Wired(base: int) {
      forall i :: 0 <= i < |wire| ==> OnPlan(base, wire[i])
    }

    ghost predicate OnPlan(base: int, s: Piece) {
      && base <= s.pos && s.pos + |s.data| <= Front() && s.pos + |s.data| <= base + |plan|
      && s.data == plan[s.pos - base..s.pos - base + |s.data|]
    }

    ghost predicate Sound(base: int) {
      Circle(base) && Planned(base) && Wired(base)
    }

    // ---- the peer ----

    /** The peer's bytes come from the wire, and everything below `una` is among them. */
    ghost predicate Reached(base: int, held: map<int, byte>) {
      && (forall q :: q in held ==> base <= q < Front() && q < base + |plan| && held[q] == plan[q - base])
      && (forall q :: base <= q < unaPos && q < Edge() ==> q in held)
    }

    /** The peer acknowledges only what it holds, and its FIN only after it was sent. */
    predicate Truthful(base: int, held: map<int, byte>, a: int) {
      && unaPos - HALF < a
      && (a >= base ==> base <= nxtPos)
      && forall q :: base <= q < a ==> q in held || (finSent && q == Edge())
    }

    lemma AckBound(base: int, held: map<int, byte>, a: int)
      requires Sound(base) && Reached(base, held) && Truthful(base, held, a)
      ensures a <= nxtPos + if probed then 1 else 0
    {
      var q := nxtPos + if probed then 1 else 0;
      assert base <= q < a ==> q in held || (finSent && q == Edge());
    }

    /** Sending more takes nothing from what the peer holds. */
    lemma MoreReached(t: Tx, base: int, held: map<int, byte>)
      requires Circle(base) && Reached(base, held) && t.plan == plan && t.unaPos == unaPos
      requires t.Edge() == Edge() || (!finSent && t.Edge() >= Edge())
      requires t.Front() >= Front()
      ensures t.Reached(base, held)
    {
      hide Front, Wrap;
    }

    // ---- acknowledgements ----

    /** The probe byte counts as sent once it is acknowledged. */
    function Bump(): Option<WriteOp> {
      if op.Some? && op.value.offset < op.value.total
      then Some(op.value.(offset := op.value.offset + 1, bufOff := op.value.bufOff + 1))
      else op
    }

    function OnAck(ack: u32): Tx {
      if SeqGt(ack, una) && SeqGe(nxt, ack) then
        this.(una := ack, unaPos := Unwrap(unaPos, ack), probe := false)
      else if probe && ack == Add32(nxt, 1) && SeqGt(ack, una) then
        this.(una := ack, nxt := ack, unaPos := nxtPos + 1, nxtPos := nxtPos + 1, op := Bump(), probe := false,
              probed := false)
      else
        this.(probe := false)
    }

    /** This acknowledgement was the last one that a waiting FIN waits for. */
    predicate Frees(ack: u32) {
      OnAck(ack).finPending && OnAck(ack).Drained()
    }

    /** In positions: `una` moves to an acknowledgement of something new, and over the probed byte. */
    lemma OnAckIs(base: int, ack: u32, held: map<int, byte>, a: int)
      requires Sound(base) && Reached(base, held) && Truthful(base, held, a) && ack == Wrap(a)
      ensures var t := OnAck(ack);
              if unaPos < a <= nxtPos then t == this.(una := ack, unaPos := a, probe := false)
              else if probe && a == nxtPos + 1 then
                t == this.(una := ack, nxt := ack, unaPos := a, nxtPos := a, op := Bump(), probe := false, probed := false)
              else t == this.(probe := false)
      ensures a == nxtPos + 1 ==> probed
    {
      AckBound(base, held, a);
      hide Planned, Wired, Reached, Truthful, SeqGt, SeqGe, Wrap, Unwrap, Add32;
      CompareIsOrder(a, unaPos);
      if a > unaPos { CompareIsOrder(nxtPos, a); }
      WrapAdd(nxtPos, 1);
      if ack == Wrap(nxtPos + 1) { WrapInjective(a, nxtPos + 1); }
      UnwrapOfWrap(unaPos, a);
    }

    /** The same bytes are planned and on the wire, and more of them are known to have arrived. */
    lemma OnAckSound(base: int, ack: u32, held: map<int, byte>, a: int)
      requires Sound(base) && Reached(base, held) && Truthful(base, held, a) && ack == Wrap(a)
      ensures OnAck(ack).Sound(base) && OnAck(ack).Reached(base, held)
    {
      OnAckIs(base, ack, held, a);
      hide OnAck;
      if unaPos < a <= nxtPos {
        AckedSound(base, held, a);
      } else if probe && a == nxtPos + 1 {
        BumpedSound(base, held, a);
      } else {
        var t := this.(probe := false);
        WiredKeeps(t, base);
        hide Wired;
      }
    }

    lemma AckedSound(base: int, held: map<int, byte>, a: int)
      requires Sound(base) && Reached(base, held) && Truthful(base, held, a) && unaPos < a <= nxtPos
      ensures var t := this.(una := Wrap(a), unaPos := a, probe := false); t.Sound(base) && t.Reached(base, held)
    {
      var t := this.(una := Wrap(a), unaPos := a, probe := false);
      WiredKeeps(t, base);
      hide Wired, Flat, At;
    }

    lemma BumpedSound(base: int, held: map<int, byte>, a: int)
      requires Sound(base) && Reached(base, held) && Truthful(base, held, a) && a == nxtPos + 1 && probed
      ensures var t := this.(una := Wrap(a), nxt := Wrap(a), unaPos := a, nxtPos := a, op := Bump(), probe := false, probed := false);
              t.Sound(base) && t.Reached(base, held)
    {
      var t := this.(una := Wrap(a), nxt := Wrap(a), unaPos := a, nxtPos := a, op := Bump(), probe := false, probed := false);
      BumpRunning(base);
      assert t.Planned(base) && !finSent && t.Front() == Front() && t.Edge() == Edge() + 1;
      WiredKeeps(t, base);
      hide Wired, Planned, Running;
    }

    lemma OnAckLoop(base: int, ack: u32, held: map<int, byte>, a: int, phase: Phase)
      requires Sound(base) && Reached(base, held) && Truthful(base, held, a) && ack == Wrap(a) && LoopSound(this, phase)
      ensures LoopSound(OnAck(ack), phase) && nxtPos <= OnAck(ack).nxtPos && OnAck(ack).finSent == finSent
      ensures OnAck(ack).unaPos - HALF < a && unaPos <= OnAck(ack).unaPos
      ensures nxtPos < base ==> OnAck(ack).nxtPos == nxtPos
      ensures OnAck(ack).Unsent() == 0 ==> a <= OnAck(ack).unaPos
      ensures unaPos == nxtPos && finSent ==> OnAck(ack).unaPos == OnAck(ack).nxtPos
    {
      AckBound(base, held, a);
      OnAckIs(base, ack, held, a);
      hide OnAck, Wired, Reached, Truthful, Flat, At, Wrap;
    }

    lemma AllSent(base: int)
      requires Sound(base) && finSent
      ensures Unsent() == 0
    {
    }

    /** An acknowledgement that reaches `nxt` after the FIN covers the FIN. */
    lemma FinCovered(base: int, ack: u32, a: int)
      requires Sound(base) && finSent && ack == Wrap(a) && unaPos - HALF < a <= unaPos && SeqGe(ack, nxt)
      ensures unaPos == nxtPos
    {
      CompareIsOrder(a, nxtPos);
    }

    /** What was acknowledged before the FIN was sent does not cover it. */
    lemma FinUncovered(base: int, ack: u32, a: int)
      requires Sound(base) && Drained() && ack == Wrap(a) && unaPos - HALF < a && (Unsent() == 0 ==> a <= unaPos)
      ensures !SeqGe(ack, WithFin().nxt) && Unsent() == 0
    {
      hide Wired;
      CompareIsOrder(unaPos, nxtPos);
      WrapAdd(nxtPos, 1);
      CompareIsOrder(a, nxtPos + 1);
    }

    lemma WiredKeeps(t: Tx, base: int)
      requires Wired(base) && t.wire == wire && t.plan == plan && t.Front() == Front()
      ensures t.Wired(base)
    {
      hide Front;
      forall i | 0 <= i < |wire| ensures t.OnPlan(base, t.wire[i]) { assert OnPlan(base, wire[i]); }
    }

    lemma BumpRunning(base: int)
      requires Planned(base) && probed
      ensures this.(op := Bump(), nxtPos := nxtPos + 1, probe := false, probed := false).Planned(base)
    {
    }
 
    // ---- the life of a write ----

    /** The SYN takes one sequence number. */
    function Accepted(): Tx {
      this.(nxt := Add32(nxt, 1), nxtPos := nxtPos + 1)
    }

    function Queue(buffers: seq<seq<byte>>, implicitAccept: bool): Tx {
      this.(op := Some(WriteOp(buffers, |Flat(buffers)|, 0, 0, 0, 0, implicitAccept, false, 0)))
    }

    /** The sending coroutine starts: the write's bytes get the next positions. */
    function Begin(): Tx
      requires op.Some?
    {
      this.(op := Some(op.value.(started := true, startSeq := nxt, startPos := nxtPos)), plan := plan + Flat(op.value.buffers))
    }

    function Finish(): Tx {
      this.(op := None)
    }

    /** Give up the rest of a write. */
    function Drop(base: int): Tx
      requires base <= Edge() <= base + |plan|
    {
      this.(op := None, plan := plan[..Edge() - base])
    }

    /** The FIN takes the sequence number behind the data. */
    function WithFin(): Tx {
      this.(finSent := true, nxt := Add32(nxt, 1), nxtPos := nxtPos + 1)
    }

    lemma AcceptedSound(base: int, held: map<int, byte>)
      requires Sound(base) && nxtPos == base - 1
      ensures Accepted().Sound(base) && (Reached(base, held) ==> Accepted().Reached(base, held))
    {
      WrapAdd(nxtPos, 1);
    }

    lemma AcceptReady(base: int, phase: Phase, held: map<int, byte>)
      requires Sound(base) && nxtPos == base - 1 && LoopSound(this, phase)
      ensures Accepted().Sound(base) && LoopSound(Accepted(), phase) && (Reached(base, held) ==> Accepted().Reached(base, held))
      ensures Accepted().nxtPos == base && !Accepted().finSent
    {
      hide Wired, Reached;
      AcceptedSound(base, held);
    }

    lemma QueueSound(base: int, buffers: seq<seq<byte>>, implicitAccept: bool, held: map<int, byte>)
      requires Sound(base) && op.None? && !finSent && base <= nxtPos && 0 < |Flat(buffers)| < MODULUS
      ensures var t := Queue(buffers, implicitAccept);
              t.Sound(base) && (Reached(base, held) ==> t.Reached(base, held))
    {
      var t := Queue(buffers, implicitAccept);
      StartEnd(buffers);
      WiredKeeps(t, base);
      hide Flat, Wired;
    }

    lemma BeginSound(base: int, held: map<int, byte>)
      requires Sound(base) && op.Some? && !op.value.started
      ensures Begin().Sound(base) && (Reached(base, held) ==> Begin().Reached(base, held))
    {
      hide Flat;
      var t := Begin();
      assert t.plan[nxtPos - base..] == Flat(op.value.buffers);
      forall i | 0 <= i < |wire| ensures t.OnPlan(base, t.wire[i]) { assert OnPlan(base, wire[i]); }
    }

    lemma FinishSound(base: int, held: map<int, byte>)
      requires Sound(base) && op.Some? && op.value.started && Unsent() == 0
      ensures Finish().Sound(base) && (Reached(base, held) ==> Finish().Reached(base, held))
    {
      WiredKeeps(Finish(), base);
      hide Flat, Wired;
    }

    lemma DropSound(base: int, held: map<int, byte>)
      requires Sound(base) && op.Some? && op.value.started && !probed
      ensures base <= Edge() <= base + |plan|
      ensures Drop(base).Sound(base) && (Reached(base, held) ==> Drop(base).Reached(base, held))
    {
      hide Flat, At;
      var t := Drop(base);
      assert t.Circle(base) && t.Planned(base) && (Reached(base, held) ==> t.Reached(base, held)) by { hide Wired; }
      DropWired(base);
    }

    lemma DropWired(base: int)
      requires Wired(base) && !probed && base <= Edge() <= base + |plan|
      ensures Drop(base).Wired(base)
    {
      var t := Drop(base);
      forall i | 0 <= i < |wire| ensures t.OnPlan(base, t.wire[i]) {
        assert OnPlan(base, wire[i]);
        PrefixSlice(plan, Edge() - base, wire[i].pos - base, |wire[i].data|);
      }
    }

    lemma FinSound(base: int, held: map<int, byte>)
      requires Sound(base) && !finSent && base <= nxtPos == unaPos && Unsent() == 0 && (op.Some? ==> op.value.started)
      ensures WithFin().Sound(base) && (Reached(base, held) ==> WithFin().Reached(base, held))
    {
      hide Flat, At;
      WrapAdd(nxtPos, 1);
      WiredKeeps(WithFin(), base);
      hide Wired;
    }

    /** Everything was sent and acknowledged. */
    predicate Drained() {
      una == nxt && (op.Some? ==> op.value.offset >= op.value.total)
    }

    lemma WindowSound(base: int, wnd: nat)
      requires wnd < WINDOW_BOUND
      ensures Sound(base) ==> this.(peerWnd := wnd).Sound(base)
      ensures forall held :: Reached(base, held) <==> this.(peerWnd := wnd).Reached(base, held)
    {
      var t := this.(peerWnd := wnd);
      if Wired(base) { WiredKeeps(t, base); }
      hide Wired;
    }

    lemma PendingSound(base: int, pending: bool)
      ensures Sound(base) <==> this.(finPending := pending).Sound(base)
      ensures forall held :: Reached(base, held) <==> this.(finPending := pending).Reached(base, held)
    {
      var t := this.(finPending := pending);
      if Wired(base) { WiredKeeps(t, base); }
      if t.Wired(base) { t.WiredKeeps(this, base); }
      hide Wired;
    }

    /** With everything sent and acknowledged the FIN can follow. */
    lemma FinReady(base: int, phase: Phase, held: map<int, byte>)
      requires Sound(base) && LoopSound(this, phase) && !finSent && Drained() && base <= nxtPos
      ensures WithFin().Sound(base) && LoopSound(WithFin(), phase) && (Reached(base, held) ==> WithFin().Reached(base, held))
    {
      hide Flat, At, Wired, Reached;
      CompareIsOrder(unaPos, nxtPos);
      FinSound(base, held);
    }

    /** The test for success: everything was sent and acknowledged to the end of the write. */
    predicate Done()
      requires op.Some?
    {
      op.value.offset == op.value.total && una == Add32(op.value.startSeq, op.value.total)
    }

    /**
     In positions: the test succeeds exactly while the last byte of the write is acknowledged and nothing behind it is,
     which could only be a FIN.
     */
    lemma DoneExactly(base: int)
      requires Sound(base) && op.Some? && op.value.started
      ensures Done() <==> unaPos == op.value.startPos + op.value.total
      ensures unaPos > op.value.startPos + op.value.total ==> finSent && unaPos == nxtPos == op.value.startPos + op.value.total + 1
    {
      hide Flat, At, Wired, Wrap, Add32;
      var w := op.value;
      WrapAdd(w.startPos, w.total);
      if op.value.offset == op.value.total && una == Wrap(w.startPos + w.total) { WrapInjective(unaPos, w.startPos + w.total); }
    }

    /** A write that passes the test is held by the peer, byte for byte. */
    lemma DoneHeld(base: int, held: map<int, byte>)
      requires Sound(base) && Reached(base, held) && op.Some? && op.value.started && Done()
      ensures Holds(held, op.value.startPos, Flat(op.value.buffers))
    {
      hide Flat, At, Wired;
      var w := op.value;
      var f := Flat(w.buffers);
      assert unaPos >= w.startPos + w.total by {
        hide Reached;
        WrapAdd(w.startPos, w.total);
        WrapInjective(unaPos, w.startPos + w.total);
      }
      forall i | 0 <= i < |f| ensures HoldsAt(held, w.startPos, f, i) {
        assert f[i] == plan[w.startPos - base..][i];
      }
    }

    // ---- what goes on the wire ----

    /** A stretch of one buffer, at the position it has in the write. */
    lemma PieceOnPlan(base: int, i: nat, o: nat, n: nat)
      requires Planned(base) && op.Some? && op.value.started && i < |op.value.buffers|
      requires o + n <= |op.value.buffers[i]|
      ensures var w := op.value;
              var s := Piece(w.startPos + Start(w.buffers, i) + o, w.buffers[i][o..o + n]);
              && base <= s.pos && s.pos + n <= base + |plan|
              && s.data == plan[s.pos - base..s.pos - base + n]
    {
      hide Unsent, Edge;
      var w := op.value;
      FlatSlice(w.buffers, i, o, n);
      var x := w.startPos - base;
      var y := Start(w.buffers, i) + o;
      TailSlice(plan, x, y, n);
    }

    /** The positions in flight, counted in 32 bits. */
    lemma InFlight(base: int)
      requires Circle(base)
      ensures Sub32(nxt, una) == nxtPos - unaPos
    {
      hide Edge, Wrap, Sub32;
      Distance(nxtPos, unaPos);
    }

    /** The state after sending the next `n` bytes from the cursor (i, o). */
    function Advanced(i: nat, o: nat, n: nat): Tx
      requires op.Some? && i < |op.value.buffers| && o + n <= |op.value.buffers[i]|
    {
      var w := op.value;
      this.(nxt := Add32(nxt, n), nxtPos := nxtPos + n, probed := false,
            op := Some(w.(offset := w.offset + n, bufIndex := i, bufOff := o + n)),
            wire := wire + [Piece(nxtPos, w.buffers[i][o..o + n])])
    }

    lemma AdvancedSound(base: int, i: nat, o: nat, n: nat)
      requires Sound(base) && op.Some? && op.value.started && !finSent
      requires At(op.value.buffers, i, o, op.value.offset) && i < |op.value.buffers| && o + n <= |op.value.buffers[i]|
      requires 0 < n && nxtPos + n - unaPos <= peerWnd
      ensures Advanced(i, o, n).Sound(base)
    {
      var t := Advanced(i, o, n);
      PieceOnPlan(base, i, o, n);
      assert t.Circle(base) && t.Planned(base) by {
        hide Wired;
        WrapAdd(nxtPos, n);
      }
      WiredGrows(t, base, Piece(nxtPos, op.value.buffers[i][o..o + n]));
      hide *;
    }

    lemma WiredGrows(t: Tx, base: int, s: Piece)
      requires Wired(base) && t.wire == wire + [s] && t.plan == plan && t.Front() >= Front() && t.OnPlan(base, s)
      ensures t.Wired(base)
    {
      hide Front;
      forall i | 0 <= i < |t.wire| ensures t.OnPlan(base, t.wire[i]) {
        if i < |wire| { assert OnPlan(base, wire[i]); }
      }
    }

    lemma CursorSound(base: int, i: nat, o: nat)
      requires Sound(base) && op.Some? && op.value.started && Unsent() == 0 && At(op.value.buffers, i, o, op.value.offset)
      ensures this.(op := Some(op.value.(bufIndex := i, bufOff := o))).Sound(base)
    {
      var t := this.(op := Some(op.value.(bufIndex := i, bufOff := o)));
      WiredKeeps(t, base);
      hide Wired;
    }

    /** The state after probing with the byte under the cursor (i, o). */
    function Probed(i: nat, o: nat): Tx
      requires op.Some? && i < |op.value.buffers| && o < |op.value.buffers[i]|
    {
      var w := op.value;
      this.(probe := true, probed := true, op := Some(w.(bufIndex := i, bufOff := o)),
            wire := wire + [Piece(nxtPos, w.buffers[i][o..o + 1])])
    }

    lemma ProbedSound(base: int, i: nat, o: nat)
      requires Sound(base) && op.Some? && op.value.started && Unsent() > 0
      requires i < |op.value.buffers| && o < |op.value.buffers[i]| && At(op.value.buffers, i, o, op.value.offset)
      ensures Probed(i, o).Sound(base)
    {
      var t := Probed(i, o);
      PieceOnPlan(base, i, o, 1);
      assert t.Circle(base) && t.Planned(base) by {
        hide Wired;
      }
      WiredGrows(t, base, Piece(nxtPos, op.value.buffers[i][o..o + 1]));
      hide *;
    }

    /** The state after sending a stretch of buffer `i` once more. */
    function Again(i: nat, o: nat, n: nat): Tx
      requires op.Some? && i < |op.value.buffers| && o + n <= |op.value.buffers[i]|
    {
      var w := op.value;
      this.(wire := wire + [Piece(w.startPos + Start(w.buffers, i) + o, w.buffers[i][o..o + n])])
    }

    lemma AgainSound(base: int, i: nat, o: nat, n: nat)
      requires Sound(base) && op.Some? && op.value.started
      requires i < |op.value.buffers| && o + n <= |op.value.buffers[i]|
      requires Start(op.value.buffers, i) + o + n <= op.value.offset
      ensures Again(i, o, n).Sound(base)
      ensures op.value.startPos + Start(op.value.buffers, i) + o >= base
    {
      var w := op.value;
      var z := Piece(w.startPos + Start(w.buffers, i) + o, w.buffers[i][o..o + n]);
      PieceOnPlan(base, i, o, n);
      SentBefore(base);
      WirePlanned(base, wire + [z]);
      hide Planned, Circle, Running, Flat, Start, Unsent;
      WiredGrows(Again(i, o, n), base, z);
    }

    lemma SentBefore(base: int)
      requires Planned(base) && op.Some? && op.value.started
      ensures op.value.startPos + op.value.offset == Edge() <= Front() && base <= nxtPos
    {
    }

    lemma WirePlanned(base: int, ps: seq<Piece>)
      requires Circle(base) && Planned(base) && base <= nxtPos
      ensures this.(wire := ps).Circle(base) && this.(wire := ps).Planned(base)
    {
    }
  }

  /** Before the SYN-ACK. */
  function Unsynced(iss: u32, wnd: nat): Tx {
    Tx(iss, iss, wnd, false, None, false, false, iss, iss, [], [], false)
  }

  lemma UnsyncedSound(iss: u32, wnd: nat)
    requires wnd <= 65535
    ensures Unsynced(iss, wnd).Sound(iss + 1) && Unsynced(iss, wnd).Reached(iss + 1, map[])
    ensures LoopSound(Unsynced(iss, wnd), Idle)
  {
  }

  /** The coroutine exists while there is a write, and while it waits for the device no probe is out. */
  ghost predicate LoopSound(tx: Tx, phase: Phase) {
    tx.op.Some? ==> phase != Idle && (phase == Spawned <==> !tx.op.value.started) && (phase == Device ==> !tx.probed)
  }

  lemma NotFin(tx: Tx, base: int)
    requires tx.Sound(base) && tx.Unsent() > 0
    ensures !tx.finSent && base <= tx.nxtPos && tx.nxtPos + tx.Unsent() == base + |tx.plan|
  {
  }

  lemma SentOnPlan(t: Tx, base: int)
    requires t.Sound(base) && base <= t.nxtPos && !t.finSent
    ensures t.nxtPos <= base + |t.plan|
  {
  }

  lemma WithinTotal(t: Tx, base: int)
    requires t.Sound(base) && t.op.Some?
    ensures t.op.value.offset <= t.op.value.total
  {
  }

  lemma OnAckOp(tx: Tx, ack: u32)
    ensures tx.op.None? ==> tx.OnAck(ack).op.None?
    ensures tx.OnAck(ack).finSent == tx.finSent && Quietly(tx, tx.OnAck(ack))
  {
  }

  /** The pieces on the wire, as packets show them. */
  function Marks(wire: seq<Piece>): seq<(u32, seq<byte>)> {
    if wire == [] then [] else
      var s := wire[|wire| - 1];
      Marks(wire[..|wire| - 1]) + [(Wrap(s.pos), s.data)]
  }

  lemma MarksMore(wire: seq<Piece>, s: Piece)
    ensures Marks(wire + [s]) == Marks(wire) + [(Wrap(s.pos), s.data)]
  {
    assert (wire + [s])[..|wire|] == wire;
  }

  lemma {:induction false} MarksAt(wire: seq<Piece>, i: nat)
    requires i < |wire|
    ensures |Marks(wire)| == |wire| && Marks(wire)[i] == (Wrap(wire[i].pos), wire[i].data)
    decreases |wire|
  {
    var n := |wire| - 1;
    if i < n {
      MarksAt(wire[..n], i);
    } else {
      MarksSize(wire[..n]);
    }
  }

  lemma {:induction false} MarksSize(wire: seq<Piece>)
    ensures |Marks(wire)| == |wire|
    decreases |wire|
  {
    if wire != [] { MarksSize(wire[..|wire| - 1]); }
  }

  /** The payloads of the packets are the pieces on the wire, one for one, in order. */
  ghost predicate Tallied(out: seq<Packet>, wire: seq<Piece>) {
    Sends(out) == Marks(wire)
  }

  lemma TallyMore(out: seq<Packet>, wire: seq<Piece>, p: Packet, s: Piece)
    requires Tallied(out, wire) && p.sq == Wrap(s.pos) && p.payload == s.data != []
    ensures Tallied(out + [p], wire + [s])
  {
    SendsMore(out, p);
    MarksMore(wire, s);
  }

  lemma TallySame(out: seq<Packet>, wire: seq<Piece>, p: Packet)
    requires Tallied(out, wire) && p.payload == []
    ensures Tallied(out + [p], wire)
  {
    SendsMore(out, p);
  }

  /** From `t0` to `t` no data went out, and no write was begun. */
  predicate Quietly(t0: Tx, t: Tx) {
    t.wire == t0.wire && (t.op.Some? ==> t0.op.Some? && t.op.value.implicitAccept == t0.op.value.implicitAccept)
  }

  /** The peer holds every byte of every write that succeeded. */
  ghost predicate Kept(writes: seq<Written>, held: map<int, byte>) {
    forall i :: 0 <= i < |writes| ==> Holds(held, writes[i].pos, writes[i].data)
  }

  lemma KeptMore(writes: seq<Written>, w: Written, held: map<int, byte>)
    requires Kept(writes, held) && Holds(held, w.pos, w.data)
    ensures Kept(writes + [w], held)
  {
    hide Holds;
  }

  /** Offset `x` of the write is where a buffer begins or the last one ends. */
  ghost predicate Border(bs: seq<seq<byte>>, x: int) {
    exists i :: 0 <= i <= |bs| && Start(bs, i) == x
  }

  /** The next segment is as long as the MSS and the window allow, unless a buffer ends there. */
  ghost predicate Filled(t0: Tx, t: Tx, mss: nat) {
    && t0.op.Some? && t.op.Some? && t.op.value.offset == t0.op.value.offset + (t.nxtPos - t0.nxtPos)
    && (t.nxtPos - t0.nxtPos == Min(mss, t0.peerWnd - (t0.nxtPos - t0.unaPos)) || Border(t0.op.value.buffers, t.op.value.offset))
  }

  lemma BorderAt(bs: seq<seq<byte>>, i: nat, o: nat, offset: nat, n: nat)
    requires At(bs, i, o, offset) && i < |bs| && o <= |bs[i]|
    ensures n == |bs[i]| - o ==> Border(bs, offset + n)
    ensures Border(bs, |Flat(bs)|)
  {
    StartNext(bs, i);
    StartEnd(bs);
  }

  lemma AdvancedMoves(tx: Tx, i: nat, o: nat, n: nat)
    requires tx.op.Some? && i < |tx.op.value.buffers| && o + n <= |tx.op.value.buffers[i]|
    ensures CursorMoved(tx, tx.Advanced(i, o, n), n)
  {
  }

  /** Build the next data segment; in flight stays within the peer's window. */
  method BuildNext(tx: Tx, acks: Acks, l: Line, mss: nat, ghost base: int, ghost open: bool)
    returns (ok: bool, t: Tx, k: Acks)
    requires tx.Sound(base) && tx.op.Some? && tx.op.value.started && tx.Unsent() > 0 && mss > 0
    requires Sub32(tx.nxt, tx.una) < tx.peerWnd
    requires acks.Sound(l.pos, open) && l.rcvNxt == Wrap(l.pos) && l.wnd <= FIXED_RCV_WND
    ensures ok && t.Sound(base) && k.Sound(l.pos, open)
    ensures t == tx.(nxt := t.nxt, nxtPos := t.nxtPos, op := t.op, wire := t.wire, probed := false)
    ensures tx.nxtPos < t.nxtPos <= tx.nxtPos + mss && t.nxtPos - t.unaPos <= t.peerWnd
    ensures t.wire == tx.wire + [Piece(tx.nxtPos, tx.plan[tx.nxtPos - base..t.nxtPos - base])]
    ensures k == acks.Piggyback(tx.nxt, l.rcvNxt, l.wnd, l.early, tx.plan[tx.nxtPos - base..t.nxtPos - base], l.pos)
    ensures k.out == acks.out + [Packet(Wrap(tx.nxtPos), l.rcvNxt, AckPsh, WindowField(l.wnd, if l.early then 0 else acks.shift),
                                        tx.plan[tx.nxtPos - base..t.nxtPos - base])]
    ensures Tallied(acks.out, tx.wire) ==> Tallied(k.out, t.wire)
    ensures Filled(tx, t, mss) && CursorMoved(tx, t, t.nxtPos - tx.nxtPos)
    ensures t.op.Some? && t.op.value.started && k.pending == acks.pending && k.timer == acks.timer
  {
    hide Acks.Sound, Flat, Start, Acks.Piggyback, Tx.Wired, Tallied, Sends, Border, CursorMoved;
    var w := tx.op.value;
    var i, o := Locate(w.buffers, w.bufIndex, w.bufOff, w.offset);
    if i == |w.buffers| {
      assert false;
    }
    tx.InFlight(base);
    var n := Min(Min(w.total - w.offset, |w.buffers[i]| - o), Min(mss, tx.peerWnd - Sub32(tx.nxt, tx.una)));
    ok := n != 0;
    BorderAt(w.buffers, i, o, w.offset, n);
    tx.PieceOnPlan(base, i, o, n);
    tx.AdvancedSound(base, i, o, n);
    AdvancedMoves(tx, i, o, n);
    acks.PiggybackSound(tx.nxt, l.rcvNxt, l.wnd, l.early, w.buffers[i][o..o + n], l.pos, open);
    t := tx.Advanced(i, o, n);
    k := acks.Piggyback(tx.nxt, l.rcvNxt, l.wnd, l.early, w.buffers[i][o..o + n], l.pos);
    if Tallied(acks.out, tx.wire) { TallyMore(acks.out, tx.wire, k.out[|acks.out|], Piece(tx.nxtPos, w.buffers[i][o..o + n])); }
  }

  /** Probe a zero window with the next byte, without counting it as sent. */
  method Probe(tx: Tx, acks: Acks, l: Line, ghost base: int, ghost open: bool) returns (t: Tx, k: Acks)
    requires tx.Sound(base) && tx.op.Some? && tx.op.value.started
    requires acks.Sound(l.pos, open) && l.rcvNxt == Wrap(l.pos) && l.wnd <= FIXED_RCV_WND
    ensures t.Sound(base) && k.Sound(l.pos, open)
    ensures tx.Unsent() == 0 ==> t.(op := tx.op) == tx && k == acks
    ensures tx.Unsent() > 0 ==>
              && t == tx.(op := t.op, wire := t.wire, probe := true, probed := true)
              && t.wire == tx.wire + [Piece(tx.nxtPos, [tx.plan[tx.nxtPos - base]])] && CursorMoved(tx, t, 0)
              && k == acks.Send(tx.nxt, Ack, l.rcvNxt, l.wnd, l.early, [tx.plan[tx.nxtPos - base]], l.pos)
    ensures tx.Unsent() > 0 ==>
              k.out == acks.out + [Packet(Wrap(tx.nxtPos), l.rcvNxt, Ack, WindowField(l.wnd, if l.early then 0 else acks.shift),
                                          [tx.plan[tx.nxtPos - base]])]
    ensures Tallied(acks.out, tx.wire) ==> Tallied(k.out, t.wire)
    ensures t == tx.(op := t.op, wire := t.wire, probe := t.probe, probed := t.probed) && (tx.probed ==> t.probed)
    ensures t.op.Some? && t.op.value.started && t.Unsent() == tx.Unsent()
    ensures t.op.value.implicitAccept == tx.op.value.implicitAccept && k.shift == acks.shift && acks.out <= k.out
  {
    hide Acks.Sound, Flat, Start, Acks.Send, Tx.Wired, Tx.Circle, Tallied, Sends;
    var w := tx.op.value;
    var i, o := Locate(w.buffers, w.bufIndex, w.bufOff, w.offset);
    if i >= |w.buffers| || w.offset >= w.total {
      t, k := tx.(op := Some(w.(bufIndex := i, bufOff := o))), acks;
      tx.CursorSound(base, i, o);
      return;
    }
    tx.PieceOnPlan(base, i, o, 1);
    tx.ProbedSound(base, i, o);
    var x := w.buffers[i][o..o + 1];
    assert x == [tx.plan[tx.nxtPos - base]];
    SendSound(acks, tx.nxt, Ack, l, x, open);
    t := tx.Probed(i, o);
    k := acks.Send(tx.nxt, Ack, l.rcvNxt, l.wnd, l.early, x, l.pos);
    NxtIs(tx, base);
    if Tallied(acks.out, tx.wire) { TallyMore(acks.out, tx.wire, k.out[|acks.out|], Piece(tx.nxtPos, x)); }
  }

  lemma NxtIs(tx: Tx, base: int)
    requires tx.Sound(base)
    ensures tx.nxt == Wrap(tx.nxtPos)
  {
  }

  lemma SendSound(acks: Acks, sq: u32, flags: Flags, l: Line, x: seq<byte>, open: bool)
    requires acks.Sound(l.pos, open) && l.rcvNxt == Wrap(l.pos) && l.wnd <= FIXED_RCV_WND
    ensures acks.Send(sq, flags, l.rcvNxt, l.wnd, l.early, x, l.pos).Sound(l.pos, open)
    ensures acks.Send(sq, flags, l.rcvNxt, l.wnd, l.early, x, l.pos).shift == acks.shift
    ensures acks.Send(sq, flags, l.rcvNxt, l.wnd, l.early, x, l.pos).out
            == acks.out + [Packet(sq, l.rcvNxt, flags, WindowField(l.wnd, if l.early then 0 else acks.shift), x)]
  {
    acks.SendTraced(sq, flags, l.rcvNxt, l.wnd, l.early, x, l.pos, open);
  }

  /** The FIN was added behind everything sent, and nothing else changed. */
  predicate FinAdded(t0: Tx, t: Tx) {
    t == t0.(finSent := true, nxt := t.nxt, nxtPos := t0.nxtPos + 1) && t.nxt == Add32(t0.nxt, 1)
  }

  /** The running write is the same, `n` bytes further on. */
  predicate CursorMoved(t0: Tx, t: Tx, n: int) {
    && t0.op.Some? && t.op.Some? && t.op.value.offset == t0.op.value.offset + n
    && t.op.value == t0.op.value.(offset := t.op.value.offset, bufIndex := t.op.value.bufIndex, bufOff := t.op.value.bufOff)
  }

  /** From `t0` to `t` the next bytes were sent, and nothing else. */
  ghost predicate NextSent(t0: Tx, t: Tx, base: int) {
    && t == t0.(nxt := t.nxt, nxtPos := t.nxtPos, op := t.op, wire := t.wire, probed := false)
    && base <= t0.nxtPos < t.nxtPos <= base + |t0.plan| && CursorMoved(t0, t, t.nxtPos - t0.nxtPos)
    && t.wire == t0.wire + [Piece(t0.nxtPos, t0.plan[t0.nxtPos - base..t.nxtPos - base])]
  }

  /** From `t0` to `t` the next byte was sent as a probe, and does not count as sent. */
  ghost predicate ProbeSent(t0: Tx, t: Tx, base: int) {
    && t == t0.(op := t.op, wire := t.wire, probe := true, probed := true)
    && base <= t0.nxtPos < base + |t0.plan| && CursorMoved(t0, t, 0)
    && t.wire == t0.wire + [Piece(t0.nxtPos, [t0.plan[t0.nxtPos - base]])]
  }

  // ---- retransmission ----

  /** Non-empty pieces of at most `mss` bytes, one behind the other, from `from` to `to`. */
  ghost predicate Row(ps: seq<Piece>, from: int, to: int, mss: nat) {
    if ps == [] then from == to else
      var z := ps[|ps| - 1];
      0 < |z.data| <= mss && z.pos + |z.data| == to && Row(ps[..|ps| - 1], from, z.pos, mss)
  }

  /** Every piece is as long as the MSS allows, unless a buffer or the round ends there. */
  ghost predicate Packed(ps: seq<Piece>, bs: seq<seq<byte>>, startPos: int, goal: int, mss: nat) {
    forall i :: 0 <= i < |ps| ==> Full(ps[i], bs, startPos, goal, mss)
  }

  ghost predicate Full(s: Piece, bs: seq<seq<byte>>, startPos: int, goal: int, mss: nat) {
    |s.data| == mss || s.pos + |s.data| == goal || Border(bs, s.pos + |s.data| - startPos)
  }

  lemma PackedNext(n: nat, wire: seq<Piece>, s: Piece, bs: seq<seq<byte>>, i: nat, startPos: int, goal: int, mss: nat)
    requires n <= |wire| && Packed(wire[n..], bs, startPos, goal, mss) && i < |bs|
    requires |s.data| == mss || s.pos + |s.data| == goal || s.pos + |s.data| - startPos == Start(bs, i) + |bs[i]|
    ensures Packed((wire + [s])[n..], bs, startPos, goal, mss)
  {
    StartNext(bs, i);
    assert Full(s, bs, startPos, goal, mss);
    assert (wire + [s])[n..] == wire[n..] + [s];
    hide Full;
  }

  lemma NonePacked(wire: seq<Piece>, bs: seq<seq<byte>>, startPos: int, goal: int, mss: nat)
    ensures Packed(wire[|wire|..], bs, startPos, goal, mss)
  {
  }

  ghost predicate Carried(out: seq<Packet>, ps: seq<Piece>, l: Line, sh: nat) {
    && |out| == |ps|
    && forall i :: 0 <= i < |ps| ==>
         out[i] == Packet(Wrap(ps[i].pos), l.rcvNxt, AckPsh, WindowField(l.wnd, sh), ps[i].data)
  }

  /** A buffer without bytes at offset `x` of the write. */
  ghost predicate Gap(bs: seq<seq<byte>>, x: nat) {
    exists j :: 0 <= j < |bs| && bs[j] == [] && Start(bs, j) == x
  }

  /** A round goes from `from` to `goal`, unless it meets an empty buffer on the way. */
  ghost predicate Round(bs: seq<seq<byte>>, from: nat, goal: int, stop: nat) {
    && from <= stop <= Max(from, goal)
    && (forall x: nat :: from < x < stop ==> !Gap(bs, x))
    && (stop < goal ==> from < stop && Gap(bs, stop))
  }

  /** A round is complete exactly if no empty buffer lies strictly inside it. */
  lemma RoundComplete(bs: seq<seq<byte>>, from: nat, goal: nat, stop: nat)
    requires Round(bs, from, goal, stop) && from <= goal
    ensures stop == goal <==> forall x: nat :: from < x < goal ==> !Gap(bs, x)
  {
    hide Gap;
  }

  /** The buffer that holds offset `off`, if there is one. */
  method FindBuffer(bs: seq<seq<byte>>, off: nat) returns (i: nat, begin: nat)
    ensures i <= |bs| && begin == Start(bs, i)
    ensures i < |bs| ==> begin <= off < begin + |bs[i]|
    ensures i == |bs| <==> |Flat(bs)| <= off
    ensures forall j :: 0 <= j < i ==> Start(bs, j) + |bs[j]| <= off
  {
    i, begin := 0, 0;
    StartEnd(bs);
    while i < |bs| && begin + |bs[i]| <= off
      invariant i <= |bs| && begin == Start(bs, i) <= off
      invariant forall j :: 0 <= j < i ==> Start(bs, j) + |bs[j]| <= off
    {
      StartNext(bs, i);
      begin := begin + |bs[i]|;
      i := i + 1;
    }
    if i < |bs| { StartOrder(bs, i, |bs|); }
  }

  /** No empty buffer was passed behind `from`. */
  ghost predicate Passed(bs: seq<seq<byte>>, from: nat, i: nat) {
    i <= |bs| && forall j :: 0 <= j < i && Start(bs, j) > from ==> bs[j] != []
  }

  lemma PassedNoGap(bs: seq<seq<byte>>, from: nat, i: nat, off: nat)
    requires Passed(bs, from, i) && Start(bs, i) <= off && (i < |bs| ==> off <= Start(bs, i) + |bs[i]|)
    ensures forall x: nat :: from < x < off ==> !Gap(bs, x)
  {
    hide Start;
    forall j | 0 <= j < |bs| && bs[j] == []
      ensures !(from < Start(bs, j) < off)
    {
      if i < j { StartOrder(bs, i, j); }
    }
  }
  /** Sequence numbers mapped back to offsets in the write. */
  lemma OffsetsOf(tx: Tx, base: int)
    requires tx.Sound(base) && tx.op.Some? && tx.op.value.started
    ensures var w := tx.op.value;
            && (tx.unaPos < w.startPos + w.offset ==> Min(Sub32(tx.nxt, w.startSeq), w.total) == w.offset)
            && (w.startPos <= tx.unaPos <= w.startPos + w.total ==> Sub32(tx.una, w.startSeq) == tx.unaPos - w.startPos)
            && (tx.unaPos < w.startPos ==> Sub32(tx.una, w.startSeq) >= Min(Sub32(tx.nxt, w.startSeq), w.total))
            && (tx.una != tx.nxt && tx.unaPos < w.startPos + w.total ==> tx.unaPos < w.startPos + w.offset)
            && (tx.una == tx.nxt <==> tx.unaPos == tx.nxtPos)
  {
    hide Flat, At, Tx.Wired, Wrap, Sub32;
    var w := tx.op.value;
    if tx.unaPos < w.startPos + w.offset { Distance(tx.nxtPos, w.startPos); }
    if tx.unaPos < w.startPos + MODULUS { Distance(tx.unaPos, w.startPos); }
    CompareIsOrder(tx.unaPos, tx.nxtPos);
  }

  /** How far a round that was asked for `maxBytes` gets. */
  ghost predicate Resent(tx: Tx, maxBytes: nat, stop: int) {
    if tx.op.None? || tx.unaPos == tx.nxtPos || tx.unaPos < tx.op.value.startPos then stop == tx.unaPos else
      var w := tx.op.value;
      var from := tx.unaPos - w.startPos;
      stop >= w.startPos && Round(w.buffers, from, Min(w.offset, from + maxBytes), stop - w.startPos)
  }

  /** What has been sent again since `tx`, from `from` to `to`. */
  ghost predicate Repeated(tx: Tx, t: Tx, acks: Acks, k: Acks, l: Line, from: int, to: int, mss: nat) {
    && t == tx.(wire := t.wire) && tx.wire <= t.wire && acks.out <= k.out
    && Row(t.wire[|tx.wire|..], from, to, mss)
    && Carried(k.out[|acks.out|..], t.wire[|tx.wire|..], l, acks.Scale(l.early)) && k.shift == acks.shift
  }

  lemma RepeatedMore(tx: Tx, t: Tx, acks: Acks, k: Acks, l: Line, from: int, to: int, mss: nat, data: seq<byte>)
    requires Repeated(tx, t, acks, k, l, from, to, mss) && 0 < |data| <= mss
    ensures Repeated(tx, t.(wire := t.wire + [Piece(to, data)]), acks,
                     k.Send(Wrap(to), AckPsh, l.rcvNxt, l.wnd, l.early, data, l.pos), l, from, to + |data|, mss)
  {
    hide WindowField, Wrap, Row, Carried;
    var z := Piece(to, data);
    var ps, out := t.wire[|tx.wire|..], k.out[|acks.out|..];
    var sh := acks.Scale(l.early);
    var p := Packet(Wrap(to), l.rcvNxt, AckPsh, WindowField(l.wnd, sh), data);
    RowMore(ps, z, from, to, mss);
    CarriedMore(out, p, ps, z, l, sh);
    Extends(tx.wire, t.wire, z);
    Extends(acks.out, k.out, p);
  }

  lemma Extends<T>(a: seq<T>, b: seq<T>, x: T)
    requires a <= b
    ensures a <= b + [x] && (b + [x])[|a|..] == b[|a|..] + [x]
  {
  }

  lemma RowMore(ps: seq<Piece>, z: Piece, from: int, to: int, mss: nat)
    requires Row(ps, from, to, mss) && z.pos == to && 0 < |z.data| <= mss
    ensures Row(ps + [z], from, to + |z.data|, mss)
  {
    assert (ps + [z])[..|ps|] == ps;
  }

  lemma CarriedMore(out: seq<Packet>, p: Packet, ps: seq<Piece>, z: Piece, l: Line, sh: nat)
    requires Carried(out, ps, l, sh)
    requires p == Packet(Wrap(z.pos), l.rcvNxt, AckPsh, WindowField(l.wnd, sh), z.data)
    ensures Carried(out + [p], ps + [z], l, sh)
  {
    hide WindowField, Wrap;
  }

  lemma Adjacent(s: seq<byte>, a: nat, b: nat, c: nat)
    requires a <= b <= c <= |s|
    ensures s[a..b] + s[b..c] == s[a..c]
  {
  }

  function Joined(ps: seq<Piece>): seq<byte> {
    if ps == [] then [] else Joined(ps[..|ps| - 1]) + ps[|ps| - 1].data
  }

  /** Together, the payloads of a round are the planned bytes between its ends. */
  lemma {:induction false} RowJoined(t: Tx, base: int, ps: seq<Piece>, from: int, to: int, mss: nat)
    requires Row(ps, from, to, mss) && forall i :: 0 <= i < |ps| ==> t.OnPlan(base, ps[i])
    ensures ps != [] ==> base <= from <= to <= base + |t.plan| && Joined(ps) == t.plan[from - base..to - base]
    decreases |ps|
  {
    if ps != [] {
      var n := |ps| - 1;
      var z, rest := ps[n], ps[..n];
      assert t.OnPlan(base, z);
      assert base <= z.pos && to <= base + |t.plan| && z.data == t.plan[z.pos - base..to - base] && z.pos <= to;
      assert Joined(ps) == Joined(rest) + z.data && (n == 0 ==> Joined(rest) == [] && from == z.pos);
      RowJoined(t, base, rest, from, z.pos, mss);
      hide *;
      if n > 0 {
        Adjacent(t.plan, from - base, z.pos - base, to - base);
      } else {
        assert [] + z.data == z.data;
      }
    }
  }

  /** Send the write's bytes from offset `off0` up to `end`, at most `budget0` of them. */
  method Resend(tx: Tx, acks: Acks, l: Line, i0: nat, begin0: nat, off0: nat, end: nat, budget0: nat, mss: nat,
                ghost base: int, ghost open: bool)
    returns (t: Tx, k: Acks, ghost stop: nat)
    requires tx.Sound(base) && tx.op.Some? && tx.op.value.started && mss > 0
    requires acks.Sound(l.pos, open) && l.rcvNxt == Wrap(l.pos) && l.wnd <= FIXED_RCV_WND
    requires i0 < |tx.op.value.buffers| && begin0 == Start(tx.op.value.buffers, i0)
    requires begin0 <= off0 < begin0 + |tx.op.value.buffers[i0]| && off0 <= end == tx.op.value.offset
    requires forall j :: 0 <= j < i0 ==> Start(tx.op.value.buffers, j) + |tx.op.value.buffers[j]| <= off0
    ensures t.Sound(base) && k.Sound(l.pos, open)
    ensures Repeated(tx, t, acks, k, l, tx.op.value.startPos + off0, tx.op.value.startPos + stop, mss)
    ensures Round(tx.op.value.buffers, off0, Min(end, off0 + budget0), stop)
    ensures Packed(t.wire[|tx.wire|..], tx.op.value.buffers, tx.op.value.startPos,
                   tx.op.value.startPos + Min(end, off0 + budget0), mss)
    ensures Tallied(acks.out, tx.wire) ==> Tallied(k.out, t.wire)
  {
    hide Acks.Sound, Acks.Send, Tx.Sound, Flat, Start, Repeated, Passed, Gap, Wrap, Add32, Tallied, Packed, Full, WindowField, Tx.Again, Going;
    var w := tx.op.value;
    var bs := w.buffers;
    t, k := tx, acks;
    var i: nat, begin: nat, off: nat, budget: nat := i0, begin0, off0, budget0;
    ResendStart(tx, base, acks, l, i0, off0, mss);
    ghost var goal := w.startPos + Min(end, off0 + budget0);
    NonePacked(tx.wire, bs, w.startPos, goal, mss);
    GoingStart(tx, acks, l, base, open, off0, goal, mss);
    while i < |bs| && off < end && budget > 0
      invariant t.op == tx.op && Going(tx, t, acks, k, l, base, open, off0, off, goal, mss)
      invariant i <= |bs| && begin == Start(bs, i) <= off && Passed(bs, off0, i)
      invariant i < |bs| ==> off < begin + |bs[i]| || (off == begin && off0 < off)
      invariant i == |bs| ==> off == |Flat(bs)|
      invariant off0 <= off <= end && budget + off == budget0 + off0
      invariant end <= |Flat(bs)|
      decreases end - off
    {
      var bo := off - begin;
      var want := Min(Min(end - off, |bs[i]| - bo), Min(budget, mss));
      if want == 0 {
        assert Gap(bs, off) by { GapAt(bs, i); }
        break;
      }
      var x := bs[i][bo..bo + want];
      GoingOn(tx, t, acks, k, l, base, open, off0, off, goal, mss, i, bo, x);
      t := t.Again(i, bo, want);
      k := k.Send(Add32(w.startSeq, off), AckPsh, l.rcvNxt, l.wnd, l.early, x, l.pos);
      off := off + want;
      budget := budget - want;
      if off >= begin + |bs[i]| {
        PassedNext(bs, off0, i);
        begin := begin + |bs[i]|;
        i := i + 1;
      }
    }
    stop := off;
    PassedNoGap(bs, off0, i, off);
    GoingIs(tx, t, acks, k, l, base, open, off0, off, goal, mss);
  }

  /** Where a round stands that has sent the bytes from `off0` to `off` again. */
  ghost predicate Going(tx: Tx, t: Tx, acks: Acks, k: Acks, l: Line, base: int, open: bool, off0: int, off: int, goal: int, mss: nat)
    requires tx.op.Some?
  {
    var w := tx.op.value;
    && t.Sound(base) && k.Sound(l.pos, open) && t.op == tx.op
    && Repeated(tx, t, acks, k, l, w.startPos + off0, w.startPos + off, mss)
    && (Tallied(acks.out, tx.wire) ==> Tallied(k.out, t.wire))
    && |tx.wire| <= |t.wire| && Packed(t.wire[|tx.wire|..], w.buffers, w.startPos, goal, mss)
  }

  lemma GoingStart(tx: Tx, acks: Acks, l: Line, base: int, open: bool, off0: int, goal: int, mss: nat)
    requires tx.op.Some? && tx.Sound(base) && acks.Sound(l.pos, open)
    requires var p := tx.op.value.startPos + off0; Repeated(tx, tx, acks, acks, l, p, p, mss)
    requires Packed(tx.wire[|tx.wire|..], tx.op.value.buffers, tx.op.value.startPos, goal, mss)
    ensures Going(tx, tx, acks, acks, l, base, open, off0, off0, goal, mss)
  {
    hide Acks.Sound, Tx.Sound, Repeated, Tallied, Packed;
  }

  lemma GoingIs(tx: Tx, t: Tx, acks: Acks, k: Acks, l: Line, base: int, open: bool, off0: int, off: int, goal: int, mss: nat)
    requires tx.op.Some? && Going(tx, t, acks, k, l, base, open, off0, off, goal, mss)
    ensures var w := tx.op.value;
            && t.Sound(base) && k.Sound(l.pos, open)
            && Repeated(tx, t, acks, k, l, w.startPos + off0, w.startPos + off, mss)
            && (Tallied(acks.out, tx.wire) ==> Tallied(k.out, t.wire))
            && |tx.wire| <= |t.wire| && Packed(t.wire[|tx.wire|..], w.buffers, w.startPos, goal, mss)
  {
    hide Acks.Sound, Tx.Sound, Repeated, Tallied, Packed;
  }

  lemma GoingOn(tx: Tx, t: Tx, acks: Acks, k: Acks, l: Line, base: int, open: bool, off0: int, off: nat, goal: int, mss: nat,
                i: nat, bo: nat, x: seq<byte>)
    requires tx.op.Some? && tx.op.value.started && Going(tx, t, acks, k, l, base, open, off0, off, goal, mss)
    requires l.rcvNxt == Wrap(l.pos) && l.wnd <= FIXED_RCV_WND
    requires i < |t.op.value.buffers| && bo + |x| <= |t.op.value.buffers[i]| && x == t.op.value.buffers[i][bo..bo + |x|]
    requires off == Start(t.op.value.buffers, i) + bo && off + |x| <= t.op.value.offset && 0 < |x| <= mss
    requires |x| == mss || t.op.value.startPos + off + |x| == goal || bo + |x| == |t.op.value.buffers[i]|
    ensures Going(tx, t.Again(i, bo, |x|), acks, k.Send(Add32(t.op.value.startSeq, off), AckPsh, l.rcvNxt, l.wnd, l.early, x, l.pos),
                  l, base, open, off0, off + |x|, goal, mss)
    ensures t.Again(i, bo, |x|).op == tx.op
  {
    hide Acks.Sound, Acks.Send, Tx.Sound, Flat, Start, Repeated, Gap, Wrap, Add32, Tallied, Packed, Full, WindowField, Tx.Again;
    var w := tx.op.value;
    AgainStep(t, k, l, base, open, i, bo, off, x);
    RepeatedMore(tx, t, acks, k, l, w.startPos + off0, w.startPos + off, mss, x);
    TallyNext(k, t, l, Add32(w.startSeq, off), Piece(w.startPos + off, x));
    PackedNext(|tx.wire|, t.wire, Piece(w.startPos + off, x), w.buffers, i, w.startPos, goal, mss);
  }

  lemma TallyNext(k: Acks, t: Tx, l: Line, sq: u32, z: Piece)
    requires sq == Wrap(z.pos) && z.data != []
    ensures Tallied(k.out, t.wire) ==>
              Tallied(k.out + [Packet(sq, l.rcvNxt, AckPsh, WindowField(l.wnd, if l.early then 0 else k.shift), z.data)], t.wire + [z])
  {
    hide Tallied, WindowField, Wrap;
    if Tallied(k.out, t.wire) {
      TallyMore(k.out, t.wire, Packet(sq, l.rcvNxt, AckPsh, WindowField(l.wnd, if l.early then 0 else k.shift), z.data), z);
    }
  }

  lemma StartSeqIs(t: Tx, base: int)
    requires t.Sound(base) && t.op.Some? && t.op.value.started
    ensures t.op.value.startSeq == Wrap(t.op.value.startPos)
  {
  }

  /** One more segment of a round: the bytes `x` of buffer `i` from `bo` on, which are at offset `off` of the write. */
  lemma AgainStep(t: Tx, k: Acks, l: Line, base: int, open: bool, i: nat, bo: nat, off: nat, x: seq<byte>)
    requires t.Sound(base) && k.Sound(l.pos, open) && t.op.Some? && t.op.value.started
    requires l.rcvNxt == Wrap(l.pos) && l.wnd <= FIXED_RCV_WND
    requires i < |t.op.value.buffers| && bo + |x| <= |t.op.value.buffers[i]| && x == t.op.value.buffers[i][bo..bo + |x|]
    requires off == Start(t.op.value.buffers, i) + bo && off + |x| <= t.op.value.offset
    ensures var z := Piece(t.op.value.startPos + off, x);
            && Add32(t.op.value.startSeq, off) == Wrap(z.pos)
            && t.Again(i, bo, |x|) == t.(wire := t.wire + [z]) && t.Again(i, bo, |x|).Sound(base)
    ensures var k' := k.Send(Add32(t.op.value.startSeq, off), AckPsh, l.rcvNxt, l.wnd, l.early, x, l.pos);
            && k'.Sound(l.pos, open)
            && k'.out == k.out + [Packet(Add32(t.op.value.startSeq, off), l.rcvNxt, AckPsh,
                                         WindowField(l.wnd, if l.early then 0 else k.shift), x)]
  {
    StartSeqIs(t, base);
    hide Acks.Sound, Acks.Send, Tx.Sound, Flat, Start, Wrap, Add32, WindowField;
    t.AgainSound(base, i, bo, |x|);
    WrapAdd(t.op.value.startPos, off);
    SendSound(k, Add32(t.op.value.startSeq, off), AckPsh, l, x, open);
  }

  lemma ResendStart(tx: Tx, base: int, acks: Acks, l: Line, i: nat, off: nat, mss: nat)
    requires tx.Sound(base) && tx.op.Some? && tx.op.value.started && i < |tx.op.value.buffers|
    requires forall j :: 0 <= j < i ==> Start(tx.op.value.buffers, j) + |tx.op.value.buffers[j]| <= off
    ensures Repeated(tx, tx, acks, acks, l, tx.op.value.startPos + off, tx.op.value.startPos + off, mss)
    ensures Passed(tx.op.value.buffers, off, i)
    ensures tx.op.value.startSeq == Wrap(tx.op.value.startPos) && tx.op.value.offset <= |Flat(tx.op.value.buffers)|
  {
    hide Flat, Start, Wrap;
  }

  lemma GapAt(bs: seq<seq<byte>>, i: nat)
    requires i < |bs| && bs[i] == []
    ensures Gap(bs, Start(bs, i))
  {
  }

  lemma PassedNext(bs: seq<seq<byte>>, from: nat, i: nat)
    requires Passed(bs, from, i) && i < |bs| && bs[i] != []
    ensures Passed(bs, from, i + 1) && Start(bs, i + 1) == Start(bs, i) + |bs[i]|
    ensures i + 1 == |bs| ==> Start(bs, i + 1) == |Flat(bs)|
  {
    StartNext(bs, i);
    StartEnd(bs);
    hide Start, Flat;
  }

  /** From `t0` to `t` a round of at most `maxBytes` unacknowledged bytes was sent again, up to `stop`. */
  ghost predicate RoundSent(t0: Tx, t: Tx, maxBytes: nat, stop: int, mss: nat) {
    && t == t0.(wire := t.wire) && t0.wire <= t.wire
    && Resent(t0, maxBytes, stop) && Row(t.wire[|t0.wire|..], t0.unaPos, stop, mss)
    && RoundPacked(t0, t, maxBytes, mss)
  }

  /**
   What a timer that fired has sent, from `t0` to `t`: in a zero window the next byte as a probe, or the first unacknowledged
   segment again; while waiting for progress, if there was none, the unacknowledged bytes that the peer's window covers.
   */
  ghost predicate Served(t0: Tx, t: Tx, phase: Phase, stuck: bool, base: int, mss: nat, stop: int)
    requires t0.op.Some?
  {
    if phase == Window && t0.Unsent() > 0 then ProbeSent(t0, t, base)
    else if phase == Window && !t0.Done() then RoundSent(t0, t, mss, stop, mss)
    else if phase == Progress && stuck && t0.una != Add32(t0.op.value.startSeq, t0.op.value.total) then
      RoundSent(t0, t, t0.peerWnd, stop, mss)
    else t == t0
  }

  /** The segments of a round are as long as they may be. */
  ghost predicate RoundPacked(t0: Tx, t: Tx, maxBytes: nat, mss: nat)
    requires |t0.wire| <= |t.wire|
  {
    t0.op.Some? ==>
      var w := t0.op.value;
      Packed(t.wire[|t0.wire|..], w.buffers, w.startPos, Min(w.startPos + w.offset, t0.unaPos + maxBytes), mss)
  }

  /** Send again the unacknowledged bytes of the running write, at most `maxBytes` of them. */
  method Retransmit(tx: Tx, acks: Acks, l: Line, maxBytes: nat, mss: nat, ghost base: int, ghost open: bool)
    returns (t: Tx, k: Acks, ghost stop: int)
    requires tx.Sound(base) && (tx.op.Some? ==> tx.op.value.started) && mss > 0
    requires acks.Sound(l.pos, open) && l.rcvNxt == Wrap(l.pos) && l.wnd <= FIXED_RCV_WND
    ensures t.Sound(base) && k.Sound(l.pos, open)
    ensures Resent(tx, maxBytes, stop) && Repeated(tx, t, acks, k, l, tx.unaPos, stop, mss)
    ensures |tx.wire| <= |t.wire| && RoundPacked(tx, t, maxBytes, mss)
    ensures Tallied(acks.out, tx.wire) ==> Tallied(k.out, t.wire)
  {
    hide Acks.Sound, Gap, Flat, Start, Tallied, Packed;
    t, k, stop := tx, acks, tx.unaPos;
    if tx.op.Some? {
      NonePacked(tx.wire, tx.op.value.buffers, tx.op.value.startPos,
                 Min(tx.op.value.startPos + tx.op.value.offset, tx.unaPos + maxBytes), mss);
    }
    if tx.op.None? {
      return;
    }
    OffsetsOf(tx, base);
    if tx.una == tx.nxt {
      return;
    }
    var w := tx.op.value;
    var off := Sub32(tx.una, w.startSeq);
    var end := Min(Sub32(tx.nxt, w.startSeq), w.total);
    var i, begin := FindBuffer(w.buffers, off);
    if i < |w.buffers| && off < end {
      ghost var n;
      t, k, n := Resend(tx, acks, l, i, begin, off, end, maxBytes, mss, base, open);
      stop := w.startPos + n;
    }
  }
  /** When the 32-bit differences are the offsets of `una` and `nxt` in a write of `total` bytes that starts at `start`. */
  lemma MappingExact(una: int, nxt: int, start: int, total: nat)
    requires start <= una <= nxt <= start + total
    ensures Sub32(Wrap(una), Wrap(start)) == una - start <==> una - start < MODULUS
    ensures Min(Sub32(Wrap(nxt), Wrap(start)), total) == nxt - start <==> nxt - start < MODULUS
  {
    hide Wrap, Sub32;
    if una - start < MODULUS { Distance(una, start); }
    if nxt - start < MODULUS { Distance(nxt, start); }
  }

  /** What a round takes for the unacknowledged stretch of a write, in 32 bits; nothing if the first is not below the second. */
  predicate Stretch(una: int, nxt: int, start: int, total: nat, from: nat, to: nat) {
    Sub32(Wrap(una), Wrap(start)) == from && Min(Sub32(Wrap(nxt), Wrap(start)), total) == to
  }

  /**
   A write is mapped right at every stage, with at most a window in flight, if and only if it is shorter than 4 GiB: a
   round finds its unacknowledged bytes, and nothing while the acknowledgements have not reached it.
   */
  lemma MappableExact(start: int, total: nat)
    ensures total < MODULUS <==> forall una, nxt, from: nat, to: nat ::
              una <= nxt <= una + WINDOW_BOUND && start <= nxt <= start + total && Stretch(una, nxt, start, total, from, to) ==>
                if una < start then from >= to else from == una - start && to == nxt - start
  {
    hide Wrap, Sub32;
    if total < MODULUS {
      forall una, nxt, from: nat, to: nat |
        una <= nxt <= una + WINDOW_BOUND && start <= nxt <= start + total && Stretch(una, nxt, start, total, from, to)
        ensures if una < start then from >= to else from == una - start && to == nxt - start
      {
        Distance(una, start);
        Distance(nxt, start);
      }
    } else {
      var p := start + MODULUS;
      MappingExact(p, p, start, total);
      assert Stretch(p, p, start, total, Sub32(Wrap(p), Wrap(start)), Min(Sub32(Wrap(p), Wrap(start)), total));
    }
  }
}
