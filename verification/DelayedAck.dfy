/** Acknowledgement and window announcements of one flow: the batching of ACKs and the advertised receive window. */
module DelayedAck {
  import opened Bytes
  import opened SeqNum

  datatype Flags = Ack | AckPsh | SynAck | FinAck | RstAck

  datatype Packet = Packet(sq: u32, ack: u32, flags: Flags, window: nat, payload: seq<byte>)

  const FIXED_RCV_WND: nat := 1048576
  const RCV_WND_SCALE: nat := 7

  // ---- the advertised window ----

  function ShiftRight(w: nat, n: nat): nat {
    if n == 0 then w else ShiftRight(w / 2, n - 1)
  }

  function ShiftLeft(w: nat, n: nat): nat {
    if n == 0 then w else ShiftLeft(w, n - 1) * 2
  }

  /** The 16-bit window field for a window of `wnd` bytes. */
  function WindowField(wnd: nat, scale: nat): nat {
    Min(ShiftRight(wnd, scale), 65535)
  }

  /** The field is the largest one that promises no more than `wnd`. */
  lemma FieldExact(wnd: nat, scale: nat, f: nat)
    requires f <= 65535
    ensures f <= WindowField(wnd, scale) <==> ShiftLeft(f, scale) <= wnd
  {
    ShiftExact(wnd, scale, f);
  }

  lemma {:induction false} ShiftExact(w: nat, n: nat, f: nat)
    ensures f <= ShiftRight(w, n) <==> ShiftLeft(f, n) <= w
  {
    if n > 0 { ShiftExact(w / 2, n - 1, f); }
  }

  /** The receive window: fixed maximum, per-flow room and global room, and zero below one MSS. */
  function WindowFor(maxRxQueue: nat, mss: nat, queued: nat, limit: nat, used: nat): (w: nat)
    ensures w <= FIXED_RCV_WND
  {
    var q := queued % MODULUS;
    var w := if maxRxQueue > q then Min(FIXED_RCV_WND, (maxRxQueue - q) % MODULUS) else 0;
    var g := if limit != 0 then Min(w, (if limit > used then limit - used else 0) % MODULUS) else w;
    if g < mss then 0 else g
  }

  lemma {:induction false} ShiftLoses(w: nat, n: nat)
    ensures ShiftLeft(ShiftRight(w, n), n) <= w
  {
    if n > 0 {
      ShiftLoses(w / 2, n - 1);
      ShiftOut(ShiftRight(w / 2, n - 1), n - 1);
    }
  }

  lemma ShiftOut(w: nat, n: nat)
    ensures ShiftLeft(w, n) * 2 == ShiftLeft(w, n + 1)
  {
  }

  lemma {:induction false} ShiftMonotone(v: nat, w: nat, n: nat)
    requires v <= w
    ensures ShiftLeft(v, n) <= ShiftLeft(w, n)
  {
    if n > 0 { ShiftMonotone(v, w, n - 1); }
  }

  lemma {:induction false} ShiftGrows(w: nat, n: nat, m: nat)
    requires n <= m
    ensures ShiftLeft(w, n) <= ShiftLeft(w, m)
    decreases m
  {
    if n < m { ShiftGrows(w, n, m - 1); }
  }

  lemma WidestWindow()
    ensures ShiftLeft(65535, 14) == 65535 * 16384
  {
    assert ShiftLeft(65535, 2) == 65535 * 4;
    assert ShiftLeft(65535, 4) == 65535 * 16;
    assert ShiftLeft(65535, 6) == 65535 * 64;
    assert ShiftLeft(65535, 8) == 65535 * 256;
    assert ShiftLeft(65535, 10) == 65535 * 1024;
    assert ShiftLeft(65535, 12) == 65535 * 4096;
  }

  /** A 16-bit window field and a shift of at most 14 stay far below half the sequence space. */
  lemma LargestWindow(w: nat, n: nat)
    requires w <= 65535 && n <= 14
    ensures ShiftLeft(w, n) < 0x4000_0000
  {
    ShiftGrows(w, n, 14);
    ShiftMonotone(w, 65535, 14);
    WidestWindow();
  }

  lemma WindowSizes(maxRxQueue: nat, mss: nat, queued: nat, limit: nat, used: nat)
    ensures var wnd := WindowFor(maxRxQueue, mss, queued, limit, used); wnd == 0 || wnd >= mss
  {
  }

  /** A window that is not zero is there in the flow and in the budget. */
  lemma WindowRoom(maxRxQueue: nat, mss: nat, queued: nat, limit: nat, used: nat)
    requires queued < MODULUS && limit > 0
    ensures var wnd := WindowFor(maxRxQueue, mss, queued, limit, used);
            wnd > 0 ==> queued + wnd <= maxRxQueue && used + wnd <= limit
  {
  }

  /** There is room for `n` more bytes, in the flow and in the budget, and they may be announced at once. */
  predicate RoomFor(n: nat, maxRxQueue: nat, queued: nat, limit: nat, used: nat) {
    n <= FIXED_RCV_WND && queued + n <= maxRxQueue && used + n <= limit
  }

  /** The window is the largest number of bytes there is room for, or zero if there is no room for one MSS. */
  lemma WindowExact(maxRxQueue: nat, mss: nat, queued: nat, limit: nat, used: nat)
    requires queued < MODULUS && maxRxQueue < MODULUS && 0 < limit < MODULUS && mss > 0
    ensures var wnd := WindowFor(maxRxQueue, mss, queued, limit, used);
            && (forall n: nat :: mss <= n ==> (n <= wnd <==> RoomFor(n, maxRxQueue, queued, limit, used)))
            && (wnd == 0 <==> !RoomFor(mss, maxRxQueue, queued, limit, used)) && (wnd > 0 ==> wnd >= mss)
  {
  }

  /** It is so, whatever is queued and used, if and only if both limits are below 4 GiB. */
  lemma WindowExactWhen(maxRxQueue: nat, mss: nat, limit: nat)
    requires 0 < mss <= FIXED_RCV_WND && mss <= maxRxQueue && mss <= limit
    ensures maxRxQueue < MODULUS && limit < MODULUS <==>
              forall queued: nat, used: nat, n: nat :: queued < MODULUS && mss <= n ==>
                (n <= WindowFor(maxRxQueue, mss, queued, limit, used) <==> RoomFor(n, maxRxQueue, queued, limit, used))
  {
    if maxRxQueue < MODULUS && limit < MODULUS {
      forall queued: nat, used: nat | queued < MODULUS
        ensures forall n: nat :: mss <= n ==>
                  (n <= WindowFor(maxRxQueue, mss, queued, limit, used) <==> RoomFor(n, maxRxQueue, queued, limit, used))
      {
        WindowExact(maxRxQueue, mss, queued, limit, used);
      }
    } else {
      var queued, used := if maxRxQueue < MODULUS then 0 else maxRxQueue % MODULUS, if limit < MODULUS then 0 else limit % MODULUS;
      assert (maxRxQueue - maxRxQueue % MODULUS) % MODULUS == 0 && (limit - limit % MODULUS) % MODULUS == 0;
      assert RoomFor(mss, maxRxQueue, queued, limit, used);
      assert WindowFor(maxRxQueue, mss, queued, limit, used) == 0;
      assert !(mss <= WindowFor(maxRxQueue, mss, queued, limit, used));
    }
  }

  /** The window a peer decodes never exceeds the flow's room nor the global room. */
  lemma WindowPromise(maxRxQueue: nat, mss: nat, queued: nat, limit: nat, used: nat, scale: nat)
    requires queued < MODULUS && limit > 0
    ensures var wnd := WindowFor(maxRxQueue, mss, queued, limit, used);
            var seen := ShiftLeft(WindowField(wnd, scale), scale);
            && seen <= wnd
            && (seen > 0 ==> queued + seen <= maxRxQueue && used + seen <= limit)
  {
    WindowRoom(maxRxQueue, mss, queued, limit, used);
    hide WindowFor;
    var wnd := WindowFor(maxRxQueue, mss, queued, limit, used);
    ShiftLoses(wnd, scale);
    ShiftMonotone(WindowField(wnd, scale), ShiftRight(wnd, scale), scale);
  }

  /** Announced unscaled but decoded with the agreed shift, a window keeps the promise only if it is zero. */
  lemma UnscaledWindowOverpromises(wnd: nat)
    requires wnd <= FIXED_RCV_WND
    ensures ShiftLeft(WindowField(wnd, 0), RCV_WND_SCALE) <= wnd <==> wnd == 0
  {
    assert ShiftLeft(WindowField(wnd, 0), RCV_WND_SCALE) == 128 * WindowField(wnd, 0) by {
      var f := WindowField(wnd, 0);
      assert ShiftLeft(f, 1) == 2 * f;
      assert ShiftLeft(f, 3) == 4 * ShiftLeft(f, 1);
      assert ShiftLeft(f, 5) == 4 * ShiftLeft(f, 3);
      assert ShiftLeft(f, 7) == 4 * ShiftLeft(f, 5);
    }
  }

  // ---- what was sent, and what is owed ----

  /** The payloads that went out, with their sequence numbers. */
  function Sends(out: seq<Packet>): seq<(u32, seq<byte>)> {
    if out == [] then [] else
      var p := out[|out| - 1];
      Sends(out[..|out| - 1]) + if p.payload == [] then [] else [(p.sq, p.payload)]
  }

  lemma SendsMore(out: seq<Packet>, p: Packet)
    ensures Sends(out + [p]) == Sends(out) + if p.payload == [] then [] else [(p.sq, p.payload)]
  {
    assert (out + [p])[..|out|] == out;
  }

  /** The window at the time a packet was sent, and whether it was sent in SYN_ACK_SENT, where windows are not shifted. */
  datatype Offer = Offer(wnd: nat, early: bool)

  /**
   `log` and `offers` record, for every packet in `out`, the position its acknowledgement stands for and the window it
   announced; `sentWnd` is the last such window, `unacked` counts the in-order segments received since the last packet,
   and `shift` is the scale that was agreed on.
   */
  datatype Acks = Acks(pending: bool, timer: bool, lastWnd: nat, out: seq<Packet>,
                       log: seq<int>, offers: seq<Offer>, sentWnd: nat, unacked: nat, shift: nat)
  {
    function Scale(early: bool): nat {
      if early then 0 else shift
    }

    /** Every packet carries the current acknowledgement number and window. */
    function Send(sq: u32, flags: Flags, rcvNxt: u32, wnd: nat, early: bool, payload: seq<byte>, pos: int): Acks {
      this.(pending := false, lastWnd := wnd, sentWnd := wnd, unacked := 0,
            log := log + [pos], offers := offers + [Offer(wnd, early)],
            out := out + [Packet(sq, rcvNxt, flags, WindowField(wnd, Scale(early)), payload)])
    }

    /** A data segment carries the acknowledgement too, but leaves a pending one pending. */
    function Piggyback(sq: u32, rcvNxt: u32, wnd: nat, early: bool, payload: seq<byte>, pos: int): Acks {
      Send(sq, AckPsh, rcvNxt, wnd, early, payload, pos).(pending := pending)
    }

    /** One more in-order segment was received. */
    function Received(): Acks {
      this.(unacked := unacked + 1)
    }

    /** Let this segment's acknowledgement wait, for at most 40 ms. */
    function Wait(): Acks {
      this.(pending := true, timer := true)
    }

    /** Acknowledgement numbers never move backwards and never pass what was received. */
    ghost predicate Traced(pos: int) {
      && |log| == |out|
      && (forall i :: 0 <= i < |out| ==> out[i].ack == Wrap(log[i]) && log[i] <= pos)
      && (forall i, j :: 0 <= i < j < |log| ==> log[i] <= log[j])
      && Offered()
    }

    /** Every packet announced the window of its time, shifted unless it was sent in SYN_ACK_SENT. */
    ghost predicate Offered() {
      && |offers| == |out| && (out != [] ==> offers[|out| - 1].wnd == sentWnd) && shift in {0, RCV_WND_SCALE}
      && forall i :: 0 <= i < |out| ==>
           out[i].window == WindowField(offers[i].wnd, Scale(offers[i].early)) && offers[i].wnd <= FIXED_RCV_WND
    }

    /** The window as the peer reads it: it takes that of a SYN-ACK as it is, and shifts every other one. */
    function Decoded(i: nat): nat
      requires i < |out|
    {
      if out[i].flags == SynAck then out[i].window else ShiftLeft(out[i].window, shift)
    }

    /**
     A packet keeps the promise of the window of its time, as the peer reads it, with one exception: what is sent in
     SYN_ACK_SENT without SYN keeps it only if no scale was agreed on or the window is zero.
     */
    lemma Promised(i: nat)
      requires Offered() && i < |out|
      ensures Decoded(i) <= offers[i].wnd <==>
                out[i].flags == SynAck || !offers[i].early || shift == 0 || offers[i].wnd == 0
    {
      var o, n := offers[i], Scale(offers[i].early);
      ShiftLoses(o.wnd, n);
      ShiftMonotone(out[i].window, ShiftRight(o.wnd, n), n);
      ShiftGrows(out[i].window, 0, n);
      if o.early && shift != 0 { UnscaledWindowOverpromises(o.wnd); }
    }

    /** The last window sent was zero only if the recorded one is. */
    predicate WindowKnown() {
      out != [] && sentWnd == 0 ==> lastWnd == 0
    }

    /** Everything received is acknowledged, or one segment is not and the timer runs. */
    predicate Due(pos: int, open: bool) {
      open ==>
        && log != [] && unacked <= 1
        && (pending ==> timer)
        && (unacked == 0 ==> log[|log| - 1] == pos)
        && (unacked == 1 ==> pending)
    }

    /** At most one segment was let through before the one just received. */
    predicate Owed(open: bool) {
      open ==> log != [] && (pending ==> timer) && (pending || unacked == 1)
    }

    ghost predicate Sound(pos: int, open: bool) {
      Traced(pos) && WindowKnown() && Due(pos, open)
    }

    lemma SendTraced(sq: u32, flags: Flags, rcvNxt: u32, wnd: nat, early: bool, payload: seq<byte>, pos: int, open: bool)
      requires Traced(pos) && rcvNxt == Wrap(pos) && wnd <= FIXED_RCV_WND
      ensures Send(sq, flags, rcvNxt, wnd, early, payload, pos).Sound(pos, open)
      ensures var p := Packet(sq, rcvNxt, flags, WindowField(wnd, if early then 0 else shift), payload);
              && Send(sq, flags, rcvNxt, wnd, early, payload, pos).out == out + [p]
              && Sends(out + [p]) == Sends(out) + if payload == [] then [] else [(sq, payload)]
    {
      hide Sends;
      SendsMore(out, Packet(sq, rcvNxt, flags, WindowField(wnd, if early then 0 else shift), payload));
    }

    lemma PiggybackSound(sq: u32, rcvNxt: u32, wnd: nat, early: bool, payload: seq<byte>, pos: int, open: bool)
      requires Sound(pos, open) && rcvNxt == Wrap(pos) && wnd <= FIXED_RCV_WND
      ensures Piggyback(sq, rcvNxt, wnd, early, payload, pos).Sound(pos, open)
      ensures var k := Piggyback(sq, rcvNxt, wnd, early, payload, pos); k.pending == pending && k.timer == timer
      ensures var p := Packet(sq, rcvNxt, AckPsh, WindowField(wnd, if early then 0 else shift), payload);
              && Piggyback(sq, rcvNxt, wnd, early, payload, pos).out == out + [p]
              && Sends(out + [p]) == Sends(out) + if payload == [] then [] else [(sq, payload)]
    {
      SendTraced(sq, AckPsh, rcvNxt, wnd, early, payload, pos, open);
    }

    lemma ReceivedTraced(pos: int, pos': int, open: bool)
      requires Sound(pos, open) && pos <= pos'
      ensures Received().Traced(pos') && Received().WindowKnown() && Received().Owed(open)
      ensures Traced(pos')
    {
    }

    lemma SettledSound(pos: int)
      requires Traced(pos) && WindowKnown()
      ensures Sound(pos, false)
    {
    }

    lemma TimerOff(pos: int, open: bool)
      requires Sound(pos, open) && (open ==> !pending)
      ensures this.(timer := false).Sound(pos, open) && (open ==> log != [] && log[|log| - 1] == pos)
    {
    }

    lemma NoteWindow(w: nat, pos: int, open: bool)
      requires Sound(pos, open) && (out != [] && sentWnd == 0 ==> w == 0)
      ensures this.(lastWnd := w).Sound(pos, open)
    {
    }

    lemma StopSound(pos: int, open: bool)
      requires Sound(pos, open)
      ensures this.(timer := false).Sound(pos, false)
    {
    }

    lemma WaitSound(pos: int, open: bool)
      requires Traced(pos) && WindowKnown() && Owed(open) && !pending
      ensures Wait().Sound(pos, open)
    {
    }
  }

  function Quiet(shift: nat): Acks {
    Acks(false, false, 0, [], [], [], 0, 0, shift)
  }

  lemma QuietSound(pos: int, shift: nat)
    requires shift in {0, RCV_WND_SCALE}
    ensures Quiet(shift).Sound(pos, false) && Quiet(shift).out == []
  {
  }
}
