/**
 One TCP flow of the engine: the control block and the handlers that run on the engine's strand.

 Sequence numbers are 32-bit; the ghost positions next to them are unbounded.  The peer's stream starts at position
 `irs + 1` and its FIN, if it ever sends one, is at `finAt`.
 */
module TcpFlow {
  import opened Bytes
  import opened SeqNum
  import opened OooCache
  import opened OooTable
  import opened Accountant
  import opened DelayedAck
  import opened RecvFacts
  import opened TcpSend
  import RxQueue

  class Flow {
    const cfg: Config
    const account: BufferAccountant
    const iss: u32
    const irs: u32
    const rcvWndScale: nat
    const sndWndScale: nat
    ghost const finAt: int

    var state: State
    var rcvNxt: u32
    var tx: Tx
    var finReceived: bool
    var rxShutdown: bool
    var appClosed: bool
    // what this flow adds to the engine's number of connections
    var counted: int
    var queue: RxQueue.Queue
    var acks: Acks
    var ooo: Table
    var oooBytes: nat

    // the sending coroutine: where it waits, and its local variables
    var phase: Phase
    var lastUna: u32
    var probes: nat
    var retransmits: nat

    // recorded by the model: the completed writes, the unbounded position of rcvNxt and the bytes accepted in order
    var rcvPos: int
    var accepted: seq<byte>
    var writes: seq<Written>
    // recorded by the model: the coroutine looked at a write that was gone, which has no defined outcome
    var fault: bool

    /** A flow is created by a SYN; `TakeSynData` adds the data it may carry. */
    constructor (cfg: Config, account: BufferAccountant, iss: u32, irs: u32, wscale: Option<nat>, wnd: nat, ghost finAt: int)
      requires cfg.mss > 0 && account.Valid() && wnd <= 65535 && (wscale.Some? ==> wscale.value <= 14) && irs + 1 <= finAt
      ensures Valid() && PeerReached(map[]) && writes == [] && phase == Idle && Held() == 0 && rcvPos == irs + 1
      ensures this.cfg == cfg && this.account == account && this.iss == iss && this.irs == irs && this.finAt == finAt
      ensures state == SynRcvd && queue == RxQueue.Empty && accepted == [] && ooo == map[] && !rxShutdown && !appClosed
      ensures tx == Unsynced(iss, wnd) && !fault && !finReceived && acks.out == []
      ensures sndWndScale == (if wscale.Some? then wscale.value else 0)
      ensures rcvWndScale == (if wscale.Some? then RCV_WND_SCALE else 0)
    {
      hide *;
      this.cfg, this.account, this.iss, this.irs, this.finAt := cfg, account, iss, irs, finAt;
      rcvWndScale := if wscale.Some? then RCV_WND_SCALE else 0;
      sndWndScale := if wscale.Some? then wscale.value else 0;
      state := SynRcvd;
      rcvPos, rcvNxt := irs + 1, Wrap(irs + 1);
      tx := Unsynced(iss, wnd);
      finReceived, rxShutdown, appClosed, counted := false, false, false, 0;
      queue, acks := RxQueue.Empty, Quiet(if wscale.Some? then RCV_WND_SCALE else 0);
      ooo, oooBytes, accepted := map[], 0, [];
      phase, lastUna, probes, retransmits, writes, fault := Idle, iss, 0, 0, [], false;
      new;
      FreshValid(wnd);
    }

    lemma FreshValid(wnd: nat)
      requires cfg.mss > 0 && account.Valid() && wnd <= 65535 && sndWndScale <= 14 && irs + 1 <= finAt && rcvWndScale in {0, RCV_WND_SCALE}
      requires state == SynRcvd && rcvPos == irs + 1 && rcvNxt == Wrap(rcvPos) && tx == Unsynced(iss, wnd) && phase == Idle
      requires !finReceived && !rxShutdown && !appClosed && queue == RxQueue.Empty && acks == Quiet(rcvWndScale)
      requires ooo == map[] && oooBytes == 0 && accepted == [] && counted == 0
      ensures Valid() && PeerReached(map[]) && Held() == 0 && acks.out == []
    {
      hide QueueSound, CacheSound, Acks.Sound, Tx.Sound, Tx.Reached, LoopSound, WindowFor;
      EmptyCache(rcvPos, finAt);
      EmptySound(cfg.maxRxQueue);
      QuietSound(rcvPos, rcvWndScale);
      UnsyncedSound(iss, wnd);
      ReadTold();
    }

    // ---- invariants ----

    ghost predicate AckSound()
      reads `acks, `rcvPos, `rcvNxt, `state, `tx
    {
      rcvNxt == Wrap(rcvPos) && acks.Sound(rcvPos, Open(state)) && acks.shift == rcvWndScale && Tallied(acks.out, tx.wire)
    }

    ghost predicate ReadSound()
      reads `queue, `accepted, `finReceived, `rxShutdown, `appClosed
    {
      QueueSound(queue, accepted, finReceived, rxShutdown, appClosed, cfg.maxRxQueue)
    }

    ghost predicate PlaceSound()
      reads `rcvNxt, `rcvPos, `accepted, `finReceived
    {
      PosSound(rcvNxt, rcvPos, irs + 1, accepted, finReceived, finAt)
    }

    /** All invariants but those of the out-of-order cache. */
    ghost predicate LineSound()
      reads `acks, `tx, `rcvPos, `rcvNxt, `state, `queue, `accepted, `finReceived, `rxShutdown, `appClosed, `oooBytes, account
    {
      Open(state) && cfg.mss > 0 && PlaceSound() && ReadSound() && MemSound() && AckSound()
    }

    ghost predicate MemSound()
      reads `queue, `oooBytes, account
    {
      account.Valid() && queue.bytes + oooBytes <= account.used
    }

    ghost function Held(): nat
      reads `queue, `oooBytes
    {
      queue.bytes + oooBytes
    }

    // ---- emission ----

    function CurrentWnd(): nat
      reads `queue, `oooBytes, account
    {
      WindowFor(cfg.maxRxQueue, cfg.mss, queue.bytes + oooBytes, account.limit, account.used)
    }

    /** The 32-bit arithmetic of the window does not truncate. */
    predicate Sane() {
      cfg.mss > 0 && cfg.maxRxQueue < MODULUS && 0 < account.limit < MODULUS
    }

    /** The flow and the budget have room for `n` bytes, and a window may be that large. */
    predicate HasRoom(n: nat)
      reads `queue, `oooBytes, account
    {
      RoomFor(n, cfg.maxRxQueue, queue.bytes + oooBytes, account.limit, account.used)
    }

    /** `w` is the largest number of bytes there is room for, or zero if there is no room for one MSS. */
    ghost predicate Announces(w: nat)
      reads `queue, `oooBytes, account
    {
      && (w == 0 <==> !HasRoom(cfg.mss)) && (w > 0 ==> w >= cfg.mss)
      && forall n: nat :: cfg.mss <= n ==> (n <= w <==> HasRoom(n))
    }

    lemma WindowIs()
      requires Sane() && MemSound()
      ensures Announces(CurrentWnd())
    {
      WindowExact(cfg.maxRxQueue, cfg.mss, queue.bytes + oooBytes, account.limit, account.used);
      hide WindowFor, RoomFor;
    }

    /** The effect of sending a segment without payload; nothing leaves a closed flow. */
    function Sent(sq: u32, flags: Flags): Acks
      reads `acks, `rcvNxt, `rcvPos, `state, `queue, `oooBytes, account
    {
      if state == Closed then acks
      else acks.Send(sq, flags, rcvNxt, CurrentWnd(), state == SynAckSent, [], rcvPos)
    }

    /** A segment, as it would leave now. */
    function Outgoing(sq: u32, flags: Flags, payload: seq<byte>): Packet
      reads `rcvNxt, `state, `queue, `oooBytes, account
    {
      Packet(sq, rcvNxt, flags, WindowField(CurrentWnd(), if state == SynAckSent then 0 else rcvWndScale), payload)
    }

    /** A segment without payload, as it would leave now. */
    function Control(sq: u32, flags: Flags): Packet
      reads `rcvNxt, `state, `queue, `oooBytes, account
    {
      Outgoing(sq, flags, [])
    }

    /** The segments that carry these pieces, as they would leave now. */
    function Rendered(ps: seq<Piece>, flags: Flags): seq<Packet>
      reads `rcvNxt, `state, `queue, `oooBytes, account
    {
      var like := Outgoing(0, flags, []);
      seq(|ps|, i requires 0 <= i < |ps| => like.(sq := Wrap(ps[i].pos), payload := ps[i].data))
    }

    lemma SentIs(sq: u32, flags: Flags)
      requires acks.shift == rcvWndScale
      ensures Sent(sq, flags).out == if state == Closed then acks.out else acks.out + [Control(sq, flags)]
      ensures Sent(sq, flags).shift == rcvWndScale && (Tallied(acks.out, tx.wire) ==> Tallied(Sent(sq, flags).out, tx.wire))
    {
      hide WindowFor, WindowField, Tallied;
      if state != Closed && Tallied(acks.out, tx.wire) { TallySame(acks.out, tx.wire, Control(sq, flags)); }
    }

    method SendAck()
      requires rcvNxt == Wrap(rcvPos) && acks.Traced(rcvPos) && acks.WindowKnown() && acks.shift == rcvWndScale && Tallied(acks.out, tx.wire)
      modifies `acks
      ensures acks == old(Sent(tx.nxt, Ack))
      ensures state != Closed ==> AckSound() && acks.unacked == 0 && !acks.pending
      ensures state != Closed ==> acks.lastWnd == acks.sentWnd == CurrentWnd()
      ensures acks.out == old(acks.out) + if state == Closed then [] else [old(Control(tx.nxt, Ack))]
    {
      hide WindowFor, Tallied;
      SentIs(tx.nxt, Ack);
      if state != Closed {
        acks.SendTraced(tx.nxt, Ack, rcvNxt, CurrentWnd(), state == SynAckSent, [],
                        rcvPos, Open(state));
      }
      acks := Sent(tx.nxt, Ack);
    }

    /** Two in-order segments share one acknowledgement; the first one starts the 40 ms timer. */
    method NoteDataAck()
      requires rcvNxt == Wrap(rcvPos) && acks.Traced(rcvPos) && acks.WindowKnown() && acks.shift == rcvWndScale && Tallied(acks.out, tx.wire) && acks.Owed(Open(state))
      requires state != Closed
      modifies `acks
      ensures AckSound() && old(acks).out <= acks.out
      ensures acks == if old(acks).pending then old(Sent(tx.nxt, Ack)) else old(acks).Wait()
    {
      if acks.pending {
        SendAck();
      } else {
        acks.WaitSound(rcvPos, Open(state));
        acks := acks.Wait();
      }
    }

    method FlushPendingAck()
      requires AckSound() && state != Closed
      modifies `acks
      ensures AckSound() && !acks.pending
      ensures acks == if old(acks).pending then old(Sent(tx.nxt, Ack)) else old(acks)
    {
      if acks.pending {
        SendAck();
      }
    }

    /** The delayed-acknowledgement timer of section 4.2.3.2 of RFC 1122. */
    method AckTimerFires()
      requires AckSound() && acks.timer
      modifies `acks
      ensures AckSound() && !acks.timer && (state == Closed ==> acks.out == old(acks).out)
      ensures Open(state) ==> acks.log[|acks.log| - 1] == rcvPos
      ensures Open(state) && old(acks).pending ==> old(acks).out < acks.out
    {
      hide WindowFor, Tallied, Acks.Traced;
      if acks.pending && state != Closed {
        SendAck();
      }
      acks.TimerOff(rcvPos, Open(state));
      acks := acks.(timer := false);
    }

    /** A window that was zero has opened again, or one that was not has grown by more than one MSS. */
    predicate Grown(last: nat)
      reads `queue, `oooBytes, account
    {
      HasRoom(if last == 0 then cfg.mss else last + cfg.mss + 1)
    }

    lemma GrownIs(last: nat)
      requires Sane() && MemSound()
      ensures Grown(last) <==> (last == 0 && CurrentWnd() >= cfg.mss) || (last != 0 && CurrentWnd() > last + cfg.mss)
      ensures CurrentWnd() == 0 <==> !HasRoom(cfg.mss)
      ensures Announces(CurrentWnd())
    {
      hide WindowFor, RoomFor, MemSound;
      WindowIs();
    }

    /** A segment is sent exactly if the window has grown enough since the last announcement. */
    method NotifyWindowUpdated()
      requires AckSound() && MemSound() && cfg.mss > 0
      modifies `acks
      ensures AckSound() && old(acks).out <= acks.out
      ensures state == Closed ==> acks == old(acks)
      ensures state != Closed ==> acks.lastWnd == CurrentWnd()
      ensures state != Closed && acks.out != [] && acks.sentWnd == 0 ==> CurrentWnd() == 0
      ensures state != Closed && Sane() ==> (acks.out != old(acks).out <==> Grown(old(acks).lastWnd))
      ensures state != Closed && Sane() && acks.out != [] && acks.sentWnd == 0 ==> !HasRoom(cfg.mss)
      ensures acks == old(acks).(lastWnd := acks.lastWnd) || acks == old(Sent(tx.nxt, Ack))
    {
      hide WindowFor, HasRoom, Grown, Announces, Tallied, MemSound, Sane, Acks.Sound, Acks.Traced;
      if state == Closed {
        return;
      }
      if Sane() { GrownIs(acks.lastWnd); }
      WindowSizes(cfg.maxRxQueue, cfg.mss, queue.bytes + oooBytes, account.limit, account.used);
      KnownNow();
      var wnd := CurrentWnd();
      var wasZero := acks.lastWnd == 0;
      if (wasZero && wnd >= cfg.mss) || (!wasZero && wnd > acks.lastWnd + cfg.mss) {
        SendAck();
      }
      acks.NoteWindow(wnd, rcvPos, Open(state));
      acks := acks.(lastWnd := wnd);
    }

    lemma KnownNow()
      requires AckSound()
      ensures acks.Traced(rcvPos) && acks.WindowKnown()
    {
      hide Acks.Traced;
    }

    // ---- delivery to reads ----

    predicate Fits(n: nat)
      reads `queue, account
    {
      queue.bytes + n <= cfg.maxRxQueue && account.used + n <= account.limit
    }

    /** How many of `n` available bytes the pending read takes. */
    function Taken(n: nat): (t: nat)
      reads `queue
      ensures t <= n
    {
      if queue.read.Some? then Min(queue.read.value, n) else 0
    }

    /** Complete the pending read with queued data. */
    method TakeRead()
      requires queue.head + queue.bytes == |queue.data| && cfg.mss > 0 && state != Closed
      requires queue.read.Some? && queue.bytes > 0 && MemSound() && AckSound()
      modifies `acks, `queue, account
      ensures MemSound() && AckSound() && queue == old(queue).Complete()
      ensures account.used - Held() == old(account.used - Held())
      ensures Sane() && acks.out != [] && acks.sentWnd == 0 ==> !HasRoom(cfg.mss)
      ensures !acks.pending && old(acks).out <= acks.out
    {
      hide AckSound, WindowFor, RoomFor, Announces, Grown;
      var n := Min(queue.read.value, queue.bytes);
      queue := queue.Complete();
      account.Release(n);
      if Sane() { GrownIs(acks.lastWnd); }
      NotifyWindowUpdated();
      FlushPendingAck();
    }

    /** Complete the pending read if there is data, or with end-of-file after the peer's FIN. */
    method FlushReads()
      requires queue.head + queue.bytes == |queue.data| && cfg.mss > 0 && state != Closed
      requires queue.read.Some? ==> queue.read.value > 0
      requires queue.read.None? ==> queue.Sound()
      requires MemSound() && AckSound()
      modifies `acks, `queue, account
      ensures MemSound() && AckSound() && queue.Sound()
      ensures queue.History() == old(queue).History() && (queue.head == 0 || queue.head * 2 < |queue.data|)
      ensures account.used - Held() == old(account.used - Held())
      ensures queue.bytes == old(queue.bytes - Taken(queue.bytes))
      ensures queue.delivered == old(queue).delivered + old(queue).Rest()[..old(Taken(queue.bytes))]
      ensures queue.read == if old(queue).bytes > 0 || finReceived then None else old(queue).read
      ensures queue.eof == (old(queue).eof || (old(queue).bytes == 0 && finReceived && old(queue).read.Some?))
      ensures old(queue).read.Some? && old(queue).bytes > 0 && Sane() && acks.out != [] && acks.sentWnd == 0 ==> !HasRoom(cfg.mss)
      ensures old(acks).out <= acks.out
      ensures old(queue).read.None? || old(queue).bytes == 0 ==> acks == old(acks)
    {
      hide AckSound, WindowFor, RoomFor, RxQueue.Queue.Rest;
      ghost var q := queue;
      if queue.read.Some? && queue.bytes > 0 {
        queue.CompleteKeeps();
        TakeRead();
      }
      queue.CompactKeeps();
      queue := queue.Compact();
      if finReceived {
        queue.AtFinKeeps();
        queue := queue.AtFin();
      }
    }

    /** Advance `rcvNxt` over in-order data. */
    method Advance(data: seq<byte>)
      requires AckSound()
      modifies `rcvNxt, `rcvPos, `accepted, `acks
      ensures rcvNxt == Wrap(rcvPos) && acks == old(acks).Received()
      ensures acks.Traced(rcvPos) && acks.WindowKnown() && acks.shift == rcvWndScale && Tallied(acks.out, tx.wire) && acks.Owed(Open(state))
      ensures accepted == old(accepted) + data && rcvPos == old(rcvPos) + |data| && acks.out == old(acks).out
    {
      WrapAdd(rcvPos, |data|);
      acks.ReceivedTraced(rcvPos, rcvPos + |data|, Open(state));
      rcvNxt, rcvPos, accepted := Add32(rcvNxt, |data|), rcvPos + |data|, accepted + data;
      acks := acks.Received();
    }

    /** Hand accepted data to the waiting read, or queue it and batch its acknowledgement. */
    method Store(data: seq<byte>)
      requires data != [] && Open(state) && !finReceived && !rxShutdown && queue.bytes + |data| <= cfg.maxRxQueue
      requires ReadSound() && account.Valid() && Held() + |data| <= account.used && AckSound()
      modifies `acks, `queue, account, `rcvNxt, `rcvPos, `accepted
      ensures ReadSound() && MemSound() && AckSound() && old(acks).out <= acks.out
      ensures account.used - Held() == old(account.used - Held()) - |data|
      ensures accepted == old(accepted) + data && rcvPos == old(rcvPos) + |data|
      ensures queue.read == None
      ensures queue.delivered == old(queue).delivered + data[..old(Taken(|data|))]
      ensures queue.bytes == old(queue).bytes + |data| - old(Taken(|data|))
      ensures acks.pending == (old(queue.read).None? && !old(acks).pending)
      ensures old(queue.read).Some? ==> acks.sentWnd == CurrentWnd()
    {
      hide WindowFor, Tallied, Acks.Sound, RxQueue.Queue.Rest;
      Advance(data);
      if queue.read.Some? {
        queue.DirectSound(data);
        account.Release(Min(queue.read.value, |data|));
        queue := queue.Direct(data);
        SendAck();
      } else {
        queue.EnqueueSound(data);
        queue.Enqueue(data).CompactKeeps();
        queue := queue.Enqueue(data).Compact();
        NoteDataAck();
      }
    }

    /** One in-order chunk: accepted whole, or refused whole when the queue or the global budget is full. */
    method DeliverData(data: seq<byte>)
      requires data != [] && Open(state) && !finReceived && cfg.mss > 0
      requires ReadSound() && MemSound() && AckSound()
      modifies `acks, `queue, account, `rcvNxt, `rcvPos, `accepted
      ensures ReadSound() && MemSound() && AckSound() && old(acks).out <= acks.out
      ensures account.used - Held() == old(account.used - Held())
      ensures rxShutdown || old(Fits(|data|)) ==> accepted == old(accepted) + data && rcvPos == old(rcvPos) + |data|
      ensures !rxShutdown && !old(Fits(|data|)) ==>
                accepted == old(accepted) && rcvPos == old(rcvPos) && queue == old(queue) && acks == old(acks)
      ensures rxShutdown ==> queue == old(queue)
      ensures !rxShutdown && old(Fits(|data|)) ==>
                && queue.read == None
                && queue.delivered == old(queue).delivered + data[..old(Taken(|data|))]
                && queue.bytes == old(queue).bytes + |data| - old(Taken(|data|))
      ensures old(queue.read).Some? && !rxShutdown && old(Fits(|data|)) ==> acks.sentWnd == CurrentWnd()
    {
      hide WindowFor, Tallied, Acks.Sound, QueueSound;
      if rxShutdown {
        DiscardData(data);
        return;
      }
      if queue.bytes + |data| > cfg.maxRxQueue {
        return;
      }
      var ok := account.Reserve(|data|);
      if ok {
        Store(data);
      }
    }

    /** The application stopped receiving: acknowledge the data and drop it. */
    method DiscardData(data: seq<byte>)
      requires Open(state) && rxShutdown && !finReceived && ReadSound() && AckSound()
      modifies `acks, `rcvNxt, `rcvPos, `accepted
      ensures ReadSound() && AckSound() && old(acks).out <= acks.out
      ensures accepted == old(accepted) + data && rcvPos == old(rcvPos) + |data|
    {
      hide QueueSound, Acks.Sound, WindowFor;
      DiscardSound(queue, accepted, data, appClosed, cfg.maxRxQueue);
      Advance(data);
      SendAck();
    }
  
    // ---- the peer's FIN ----

    /** The FIN takes one sequence number. */
    method TakeFin()
      requires AckSound() && PlaceSound() && !finReceived && rcvPos == finAt
      modifies `rcvNxt, `rcvPos, `finReceived
      ensures PlaceSound() && finReceived && rcvPos == old(rcvPos) + 1 && rcvNxt == Wrap(rcvPos)
      ensures acks.Traced(rcvPos) && acks.WindowKnown() && acks.shift == rcvWndScale && Tallied(acks.out, tx.wire)
    {
      WrapAdd(rcvPos, 1);
      acks.ReceivedTraced(rcvPos, rcvPos + 1, Open(state));
      rcvNxt, rcvPos, finReceived := Add32(rcvNxt, 1), rcvPos + 1, true;
    }

    /** Everything before the FIN was received: acknowledge it and end a waiting read. */
    method FinishReceive()
      requires LineSound() && !finReceived && rcvPos == finAt
      modifies `acks, `queue, account, `rcvNxt, `rcvPos, `finReceived, `state
      ensures LineSound() && finReceived && state == AfterFin(old(state))
      ensures account.used - Held() == old(account.used - Held())
      ensures queue.delivered == old(queue).delivered && queue.bytes == old(queue).bytes
      ensures acks.unacked == 0 && old(acks).out < acks.out && rcvPos == finAt + 1
      ensures old(queue).read.Some? ==> queue.read == None && queue.eof
    {
      hide WindowFor, Tallied, Acks.Sound, Acks.Traced, PosSound, Told, RxQueue.Queue.History;
      ghost var q := queue;
      TakeFin();
      SendAck();
      state := AfterFin(state);
      FlushReads();
      EndSound(q, queue, accepted, rxShutdown, appClosed, cfg.maxRxQueue);
    }

    /** The peer's FIN at `finSeq`: taken when everything before it was received, acknowledged again when repeated. */
    method HandleFin(finSeq: u32)
      requires LineSound()
      requires finSeq == Wrap(finAt) && -HALF < finAt - rcvPos < HALF - 1
      modifies `acks, `queue, account, `rcvNxt, `rcvPos, `finReceived, `state
      ensures LineSound()
      ensures account.used - Held() == old(account.used - Held())
      ensures finReceived == (old(finReceived) || old(rcvPos) == finAt)
      ensures state == if old(rcvPos) == finAt then AfterFin(old(state)) else old(state)
      ensures queue.delivered == old(queue).delivered && queue.bytes == old(queue).bytes
      ensures old(rcvPos) == finAt && old(queue).read.Some? ==> queue.read == None && queue.eof
      ensures old(rcvPos) != finAt ==> rcvPos == old(rcvPos) && queue == old(queue)
      ensures old(rcvPos) == finAt ==> rcvPos == finAt + 1
      ensures old(rcvPos) in {finAt, finAt + 1} ==> acks.unacked == 0 && old(acks).out < acks.out
      ensures old(rcvPos) !in {finAt, finAt + 1} ==> acks == old(acks)
    {
      hide WindowFor, Tallied, Acks.Traced, QueueSound;
      CompareIsOrder(finAt, rcvPos);
      CompareIsOrder(finAt, rcvPos - 1);
      WrapAdd(rcvPos, -1);
      if finSeq == rcvNxt {
        FinishReceive();
      } else if finReceived && finSeq == Sub32(rcvNxt, 1) {
        SendAck();
      }
    }

    // ---- the out-of-order cache ----

    ghost function Cached(o: int): Cache
      reads `ooo
    {
      Lift(ooo, o)
    }

    ghost predicate OooSound(o: int)
      reads `ooo, `oooBytes
    {
      CacheSound(ooo, oooBytes, o, finAt)
    }

    /** Take the entry at `k` out of the cache and give its bytes back to the budget. */
    method Uncache(k: u32, ghost o: int)
      requires k in ooo && OooSound(o) && MemSound()
      modifies `ooo, `oooBytes, account
      ensures OooSound(o) && MemSound() && ooo == old(ooo) - {k}
      ensures Cached(o) == old(Cached(o)) - {Unwrap(o, k)}
      ensures oooBytes == old(oooBytes) - |old(ooo)[k].data|
      ensures account.used - Held() == old(account.used - Held())
    {
      hide Lift, Unwrap, Tidy, OneStream, Content;
      var n := |ooo[k].data|;
      UncacheSound(ooo, k, oooBytes, o, finAt);
      oooBytes := oooBytes - n;
      account.Release(n);
      ooo := ooo - {k};
    }

    /** One passed entry: take its FIN if it is next, and drop the rest. */
    method PruneOne(k: u32, ghost o: int)
      requires k in ooo && OooSound(o) && LineSound() && o <= rcvPos <= o + HALF
      requires Unwrap(o, k) + |ooo[k].data| <= rcvPos
      modifies `acks, `queue, account, `rcvNxt, `rcvPos, `finReceived, `state, `ooo, `oooBytes
      ensures OooSound(o) && LineSound() && ooo == old(ooo) - {k}
      ensures account.used - Held() == old(account.used - Held())
      ensures Remains(old(Cached(o)), Cached(o), rcvPos)
      ensures queue.delivered == old(queue).delivered && queue.bytes == old(queue).bytes && oooBytes <= old(oooBytes)
      ensures (rcvPos == old(rcvPos) && finReceived == old(finReceived) && state == old(state))
           || (old(rcvPos) == finAt && rcvPos == finAt + 1 && !old(finReceived) && finReceived
               && finAt in Fins(old(Cached(o))) && state == AfterFin(old(state)))
      ensures rcvPos <= o + HALF && old(acks).out <= acks.out
    {
      hide WindowFor, Tallied, CacheSound, Lift, Unwrap, QueueSound, Acks.Sound, Wrap, Add32, Remains;
      PassedEntry(ooo, k, oooBytes, o, finAt, rcvPos);
      PassedRemains(ooo, k, oooBytes, o, finAt, rcvPos);
      var end := Add32(k, |ooo[k].data|);
      if ooo[k].fin && end == rcvNxt {
        HandleFin(end);
      }
      Uncache(k, o);
    }

    /** Drop the entries that `rcvNxt` has passed. */
    method Prune(ghost o: int) returns (pruned: bool)
      requires OooSound(o) && LineSound() && o <= rcvPos <= o + HALF
      modifies `acks, `queue, account, `rcvNxt, `rcvPos, `finReceived, `state, `ooo, `oooBytes
      ensures OooSound(o) && LineSound() && o <= rcvPos <= o + HALF && |ooo| <= |old(ooo)| && old(acks).out <= acks.out
      ensures if pruned then |ooo| < |old(ooo)| else ooo == old(ooo)
      ensures accepted == old(accepted)
      ensures account.used - Held() == old(account.used - Held())
      ensures Remains(old(Cached(o)), Cached(o), rcvPos) && PastBelow(Cached(o), MODULUS, rcvPos)
      ensures queue.delivered == old(queue).delivered && queue.bytes == old(queue).bytes && oooBytes <= old(oooBytes)
      ensures FinStep(old(rcvPos), rcvPos, old(finReceived), finReceived, old(state), state, finAt)
      ensures rcvPos != old(rcvPos) ==> finAt in Fins(old(Cached(o)))
    {
      hide WindowFor, Tallied, CacheSound, Lift, Unwrap, PosSound, QueueSound, Acks.Sound, Wrap, Add32, Remains, PastBelow;
      hide NextKey, SeqGe;
      pruned := false;
      var n: nat := 0;
      var it := NextKey(ooo, 0);
      RemainsAll(Cached(o), rcvPos);
      ghost var a0 := Cached(o);
      while it.Some?
        invariant n <= MODULUS && it == NextKey(ooo, n)
        invariant OooSound(o) && LineSound() && o <= rcvPos <= o + HALF && |ooo| <= |old(ooo)| && old(acks).out <= acks.out
        invariant account.used - Held() == old(account.used - Held())
        invariant Remains(a0, Cached(o), rcvPos) && PastBelow(Cached(o), n, rcvPos)
        invariant queue.delivered == old(queue).delivered && queue.bytes == old(queue).bytes && oooBytes <= old(oooBytes)
        invariant FinStep(old(rcvPos), rcvPos, old(finReceived), finReceived, old(state), state, finAt)
        invariant rcvPos != old(rcvPos) ==> finAt in Fins(a0)
        invariant if pruned then |ooo| < |old(ooo)| else ooo == old(ooo)
        decreases MODULUS - n
      {
        var k: int := it.value;
        var end := Add32(k, |ooo[k].data|);
        PruneTest(ooo, k, oooBytes, o, finAt, rcvPos);
        if SeqGe(rcvNxt, end) {
          ghost var a, r, c := Cached(o), rcvPos, ooo;
          PruneOne(k, o);
          RemainsTrans(a0, a, Cached(o), r, rcvPos);
          PruneNext(c, oooBytes, k, o, n, r, rcvPos, finAt);
          FinsShrink(a0, a, r);
          pruned := true;
        } else {
          PruneSkip(ooo, k, o, n, rcvPos);
        }
        n := k + 1;
        it := NextKey(ooo, n);
      }
      PruneEnd(ooo, o, n, rcvPos);
    }

    /** The cached segment that starts at `rcvNxt` or reaches over it. */
    method FindRun(ghost o: int) returns (r: Option<u32>)
      requires OooSound(o) && rcvNxt == Wrap(rcvPos) && o <= rcvPos <= o + HALF
      requires PastBelow(Cached(o), MODULUS, rcvPos)
      ensures r.Some? ==> r.value in ooo && Unwrap(o, r.value) <= rcvPos < Unwrap(o, r.value) + |ooo[r.value].data|
      ensures r.None? ==> Beyond(Cached(o), MODULUS, rcvPos)
    {
      hide CacheSound, Lift, Unwrap, Wrap, Add32, PastBelow, Beyond, NextKey, SeqGt;
      var n: nat := 0;
      var it := NextKey(ooo, 0);
      BeyondNone(Cached(o), rcvPos);
      while it.Some?
        invariant n <= MODULUS && it == NextKey(ooo, n)
        invariant Beyond(Cached(o), n, rcvPos)
        decreases MODULUS - n
      {
        var k: int := it.value;
        RunTest(ooo, k, oooBytes, o, finAt, rcvPos);
        if k == rcvNxt || (SeqGt(rcvNxt, k) && SeqGt(Add32(k, |ooo[k].data|), rcvNxt)) {
          return Some(k);
        }
        BeyondNext(ooo, k, o, n, rcvPos);
        n := k + 1;
        it := NextKey(ooo, n);
      }
      BeyondEnd(ooo, o, n, rcvPos);
      return None;
    }

    /** Deliver the cached segment at `k` from `rcvNxt` on. */
    method FlushOne(k: u32, ghost o: int)
      requires k in ooo && OooSound(o) && LineSound() && o <= rcvPos <= o + HALF && !finReceived
      requires Unwrap(o, k) <= rcvPos < Unwrap(o, k) + |ooo[k].data| < o + HALF
      requires Unwrap(o, k) + |ooo[k].data| <= finAt
      requires ooo[k].fin ==> Unwrap(o, k) + |ooo[k].data| == finAt
      modifies `acks, `queue, account, `rcvNxt, `rcvPos, `accepted, `finReceived, `state, `ooo, `oooBytes
      ensures OooSound(o) && LineSound() && ooo == old(ooo) - {k} && Cached(o) == old(Cached(o)) - {Unwrap(o, k)}
      ensures account.used - Held() == old(account.used - Held()) && old(acks).out <= acks.out
      ensures var seg, p := old(ooo)[k], Unwrap(o, k);
        var tail := seg.data[old(rcvPos) - p..];
        var taken := rxShutdown || old(queue).bytes + |tail| <= cfg.maxRxQueue;
        && accepted == old(accepted) + (if taken then tail else [])
        && rcvPos == (if !taken then old(rcvPos) else p + |seg.data| + if seg.fin then 1 else 0)
        && finReceived == (taken && seg.fin)
        && state == (if taken && seg.fin then AfterFin(old(state)) else old(state))
        && queue.bytes + oooBytes <= old(queue).bytes + old(oooBytes)
        && oooBytes == old(oooBytes) - |seg.data|
    {
      hide WindowFor, Tallied, CacheSound, Lift, Unwrap, QueueSound, Acks.Sound, Wrap, Add32, Sub32, PosSound;
      var seg := ooo[k];
      ghost var p := Unwrap(o, k);
      WrapAdd(p, |seg.data|);
      DeliverRun(k, o);
      var segEnd := Add32(k, |seg.data|);
      CompareIsOrder(p + |seg.data|, rcvPos);
      if seg.fin && segEnd == rcvNxt {
        HandleFin(segEnd);
      }
    }

    /** The bytes of the cached segment at `k` from `rcvNxt` on. */
    method DeliverRun(k: u32, ghost o: int)
      requires k in ooo && OooSound(o) && LineSound() && o <= rcvPos <= o + HALF && !finReceived
      requires Unwrap(o, k) <= rcvPos < Unwrap(o, k) + |ooo[k].data| < o + HALF
      requires Unwrap(o, k) + |ooo[k].data| <= finAt
      modifies `acks, `queue, account, `rcvNxt, `rcvPos, `accepted, `ooo, `oooBytes
      ensures OooSound(o) && LineSound() && ooo == old(ooo) - {k} && Cached(o) == old(Cached(o)) - {Unwrap(o, k)}
      ensures account.used - Held() == old(account.used - Held()) && rcvNxt == Wrap(rcvPos) && old(acks).out <= acks.out
      ensures var x := (if old(acks).lastWnd == 0 then cfg.mss else old(acks).lastWnd + cfg.mss + 1) - |old(ooo)[k].data|;
        Sane() && x + |old(ooo)[k].data| <= FIXED_RCV_WND && old(Held()) + x <= cfg.maxRxQueue && old(account.used) + x <= account.limit ==>
          old(acks).out < acks.out
      ensures var seg, p := old(ooo)[k], Unwrap(o, k);
        var tail := seg.data[old(rcvPos) - p..];
        var taken := rxShutdown || old(queue).bytes + |tail| <= cfg.maxRxQueue;
        && accepted == old(accepted) + (if taken then tail else [])
        && rcvPos == (if taken then p + |seg.data| else old(rcvPos))
        && queue.bytes + oooBytes <= old(queue).bytes + old(oooBytes)
        && oooBytes == old(oooBytes) - |seg.data|
    {
      hide WindowFor, Tallied, CacheSound, Lift, Unwrap, QueueSound, Acks.Sound, Wrap, Add32, Sub32;
      var seg := ooo[k];
      ghost var p := Unwrap(o, k);
      SkipIs(k, p, rcvNxt, rcvPos);
      Uncache(k, o);
      NotifyWindowUpdated();
      var skip := if k == rcvNxt then 0 else Sub32(rcvNxt, k);
      DeliverData(seg.data[skip..]);
    }

    /** Deliver every cached segment that has become contiguous. */
    method FlushRuns(ghost o: int, ghost room: bool) returns (moved: bool)
      requires OooSound(o) && LineSound() && o <= rcvPos <= o + HALF
      requires PastBelow(Cached(o), MODULUS, rcvPos) && (room ==> Held() <= cfg.maxRxQueue || rxShutdown)
      modifies `acks, `queue, account, `rcvNxt, `rcvPos, `accepted, `finReceived, `state, `ooo, `oooBytes
      ensures OooSound(o) && LineSound() && o <= rcvPos <= o + HALF && |ooo| <= |old(ooo)|
      ensures account.used - Held() == old(account.used - Held()) && oooBytes <= old(oooBytes)
      ensures Beyond(Cached(o), MODULUS, rcvPos)
      ensures Running(old(Cached(o)), Cached(o), irs + 1, old(accepted), accepted, rcvPos, room)
      ensures old(rcvPos) <= rcvPos
      ensures finReceived == old(finReceived) || (finReceived && state == AfterFin(old(state)))
      ensures finReceived == old(finReceived) ==> state == old(state)
      ensures !moved ==> acks == old(acks) && accepted == old(accepted) && ooo == old(ooo)
      ensures old(acks).out <= acks.out
    {
      hide WindowFor, Tallied, CacheSound, Lift, Unwrap, QueueSound, Acks.Sound, Wrap, PosSound;
      hide PastBelow, Beyond, Running, Content;
      moved := false;
      ghost var a0 := Cached(o);
      RunStart(a0, irs + 1, accepted, rcvPos, room);
      var it := FindRun(o);
      while it.Some?
        invariant OooSound(o) && LineSound() && o <= rcvPos <= o + HALF && |ooo| <= |old(ooo)|
        invariant account.used - Held() == old(account.used - Held()) && oooBytes <= old(oooBytes)
        invariant Held() <= old(Held()) && old(rcvPos) <= rcvPos
        invariant Running(a0, Cached(o), irs + 1, old(accepted), accepted, rcvPos, room)
        invariant it.Some? ==> it.value in ooo && Unwrap(o, it.value) <= rcvPos < Unwrap(o, it.value) + |ooo[it.value].data|
        invariant it.None? ==> Beyond(Cached(o), MODULUS, rcvPos)
        invariant finReceived == old(finReceived) || (finReceived && state == AfterFin(old(state)))
        invariant finReceived == old(finReceived) ==> state == old(state)
        invariant !moved ==> acks == old(acks) && accepted == old(accepted) && ooo == old(ooo)
        invariant old(acks).out <= acks.out
        decreases |ooo|
      {
        FlushNext(it.value, a0, old(accepted), room, o);
        moved := true;
        RunningPast(a0, Cached(o), irs + 1, old(accepted), accepted, rcvPos, room);
        it := FindRun(o);
      }
    }

    /** Give the application everything that has become contiguous, and keep the rest of the cache ahead of `rcvNxt`. */
    method FlushOoo(ghost o: int)
      requires OooSound(o) && LineSound() && o <= rcvPos <= o + HALF
      modifies `acks, `queue, account, `rcvNxt, `rcvPos, `accepted, `finReceived, `state, `ooo, `oooBytes
      ensures OooSound(rcvPos) && LineSound() && |ooo| <= |old(ooo)|
      ensures account.used - Held() == old(account.used - Held()) && oooBytes <= old(oooBytes)
      ensures Flushed(old(Cached(o)), Cached(rcvPos), irs + 1, old(accepted), accepted, rcvPos,
                      old(Held()) <= cfg.maxRxQueue || rxShutdown)
      ensures finReceived == old(finReceived) || (finReceived && state == AfterFin(old(state)))
      ensures finReceived == old(finReceived) ==> state == old(state)
      ensures ooo != old(ooo) && Sane() && acks.out != [] && acks.sentWnd == 0 ==> !HasRoom(cfg.mss)
      ensures old(acks).out <= acks.out && (accepted != old(accepted) ==> old(acks).out < acks.out && acks.unacked == 0)
    {
      hide WindowFor, Tallied, CacheSound, Lift, QueueSound, Acks.Traced, PosSound, Flushed, Running, Remains, Content, Beyond, PastBelow, HasRoom, Announces;
      ghost var a0, room := Cached(o), Held() <= cfg.maxRxQueue || rxShutdown;
      var pruned := Prune(o);
      ghost var a1, r1, acc := Cached(o), rcvPos, accepted;
      var moved := FlushRuns(o, room);
      FlushDone(a0, a1, Cached(o), irs + 1, acc, accepted, r1, rcvPos, room);
      Reorigin(ooo, oooBytes, o, finAt, rcvPos);
      AnswerFlush(moved, pruned);
    }

    /** What was delivered is acknowledged at once; room that pruning has made is announced if the window has grown enough. */
    method AnswerFlush(moved: bool, pruned: bool)
      requires LineSound()
      modifies `acks
      ensures LineSound() && old(acks).out <= acks.out && (moved ==> old(acks).out < acks.out && acks.unacked == 0)
      ensures (moved || pruned) && Sane() && acks.out != [] && acks.sentWnd == 0 ==> !HasRoom(cfg.mss)
    {
      hide WindowFor, Tallied, QueueSound, Acks.Sound, Acks.Traced, PosSound, HasRoom, Grown, Announces;
      KnownNow();
      if Sane() { GrownIs(acks.lastWnd); }
      if moved {
        SendAck();
      } else if pruned {
        NotifyWindowUpdated();
      }
    }

    /** One round of the delivery loop. */
    method FlushNext(k: u32, ghost a0: Cache, ghost acc0: seq<byte>, ghost room: bool, ghost o: int)
      requires k in ooo && OooSound(o) && LineSound() && o <= rcvPos <= o + HALF
      requires Unwrap(o, k) <= rcvPos < Unwrap(o, k) + |ooo[k].data|
      requires Running(a0, Cached(o), irs + 1, acc0, accepted, rcvPos, room)
      requires room ==> Held() <= cfg.maxRxQueue || rxShutdown
      modifies `acks, `queue, account, `rcvNxt, `rcvPos, `accepted, `finReceived, `state, `ooo, `oooBytes
      ensures OooSound(o) && LineSound() && o <= rcvPos <= o + HALF && |ooo| < |old(ooo)|
      ensures account.used - Held() == old(account.used - Held())
      ensures Held() <= old(Held()) && oooBytes <= old(oooBytes)
      ensures Running(a0, Cached(o), irs + 1, acc0, accepted, rcvPos, room)
      ensures old(rcvPos) <= rcvPos && old(acks).out <= acks.out
      ensures !old(finReceived) && state == if finReceived then AfterFin(old(state)) else old(state)
    {
      hide WindowFor, Tallied, CacheSound, Lift, Unwrap, QueueSound, Acks.Sound, Wrap, PosSound, Running, Content;
      ghost var r, acc, c, n := rcvPos, accepted, ooo, oooBytes;
      RunEntry(ooo, k, oooBytes, o, finAt, rcvPos);
      NotYetFin();
      assert (c - {k}).Keys == c.Keys - {k};
      FlushOne(k, o);
      RunStep(a0, c, k, n, o, finAt, r, rcvPos, irs + 1, acc0, acc, accepted, room);
    }

    lemma NotYetFin()
      requires PlaceSound() && rcvPos < finAt
      ensures !finReceived && rcvPos == irs + 1 + |accepted|
    {
    }

    // ---- caching an out-of-order segment ----

    /** A FIN ahead of `rcvNxt` without data. */
    method AppendFin(sq: u32) returns (ok: bool)
      requires OooSound(rcvPos) && |ooo| <= cfg.oooMaxSegments
      requires rcvPos < Unwrap(rcvPos, sq) == finAt
      modifies `ooo
      ensures OooSound(rcvPos) && |ooo| <= cfg.oooMaxSegments
      ensures ok <==> var a := old(Cached(rcvPos));
                      finAt !in Fins(a) && !Covered(a, finAt) && (EndsBare(a, finAt) || |old(ooo)| < cfg.oooMaxSegments)
      ensures !ok ==> ooo == old(ooo)
      ensures ok ==> Content(Cached(rcvPos)) == Content(old(Cached(rcvPos)))
      ensures ok ==> Fins(Cached(rcvPos)) == Fins(old(Cached(rcvPos))) + {finAt}
    {
      hide Lift, Unwrap, Content, Fins, Tidy, Covered, EndsBare, Clear, OneStream;
      ghost var a, o := Cached(rcvPos), rcvPos;
      var slot := FindFinSlot(ooo, sq, rcvPos);
      match slot {
        case Reject =>
          ok := false;
        case Extend(k) =>
          MarkSound(ooo, k, oooBytes, o, finAt);
          ooo := ooo[k := Segment(ooo[k].data, true)];
          ok := true;
        case Free =>
          ClearSays(a, finAt);
          if |ooo| >= cfg.oooMaxSegments {
            return false;
          }
          MarkAlone(a, finAt, o);
          LiftUpdate(ooo, o, sq, Segment([], true));
          FinStream(a, Lift(ooo[sq := Segment([], true)], o), finAt);
          LiftSize(ooo, o);
          LiftSize(ooo[sq := Segment([], true)], o);
          ooo := ooo[sq := Segment([], true)];
          ok := true;
      }
    }

    /** How many more bytes may be cached. */
    ghost function Spare(): int
      reads `queue, `oooBytes, account
    {
      Min(cfg.maxRxQueue - queue.bytes - oooBytes, account.limit - account.used)
    }

    /** A data segment ahead of `rcvNxt`. */
    method AppendData(sq: u32, data: seq<byte>, fin: bool) returns (ok: bool)
      requires data != [] && OooSound(rcvPos) && MemSound() && |ooo| <= cfg.oooMaxSegments
      requires rcvPos < Unwrap(rcvPos, sq) && Unwrap(rcvPos, sq) + |data| < rcvPos + HALF
      requires Unwrap(rcvPos, sq) + |data| <= finAt && (fin ==> Unwrap(rcvPos, sq) + |data| == finAt)
      modifies `ooo, `oooBytes, account
      ensures OooSound(rcvPos) && MemSound() && |ooo| <= cfg.oooMaxSegments
      ensures account.used - Held() == old(account.used - Held())
      ensures !ok ==> ooo == old(ooo) && oooBytes == old(oooBytes)
      ensures Appended(old(Cached(rcvPos)), Cached(rcvPos), Unwrap(rcvPos, sq), data, fin, ok,
                       |old(ooo)| < cfg.oooMaxSegments, old(Spare()))
    {
      hide Lift, Unwrap, Content, Fins, Tidy, EndsBare, Adjoins, OneStream, Meet, Overlay, FinsAfter, Range;
      ghost var a, o, s := Cached(rcvPos), rcvPos, Unwrap(rcvPos, sq);
      TidyParts(a, o);
      var overlap, finCovered, touches, extension := ScanOverlap(ooo, sq, |data|, rcvPos);
      MeetFull(Content(a).Keys, s, s + |data|);
      var net := |data| - overlap;
      if net == 0 {
        if !fin || finCovered || extension.None? {
          return false;
        }
        var k := extension.value;
        MarkSound(ooo, k, oooBytes, o, finAt);
        ooo := ooo[k := Segment(ooo[k].data, true)];
        return true;
      }
      if (|ooo| >= cfg.oooMaxSegments && !touches) || queue.bytes + oooBytes + net > cfg.maxRxQueue {
        return false;
      }
      ok := account.Reserve(net);
      if ok {
        FinInStream(a, s + |data|, finAt);
        CacheInsert(sq, data, fin || finCovered, net);
      }
    }

    /** Store a segment that brings `net` new bytes. */
    method CacheInsert(sq: u32, data: seq<byte>, fin: bool, net: nat)
      requires data != [] && OooSound(rcvPos)
      requires rcvPos < Unwrap(rcvPos, sq) && Unwrap(rcvPos, sq) + |data| < rcvPos + HALF
      requires Unwrap(rcvPos, sq) + |data| <= finAt && (fin ==> Unwrap(rcvPos, sq) + |data| == finAt)
      requires Unwrap(rcvPos, sq) + |data| in Fins(Cached(rcvPos)) ==> fin
      requires 0 < net == |data| - Meet(Content(Cached(rcvPos)).Keys, Unwrap(rcvPos, sq), Unwrap(rcvPos, sq) + |data|)
      modifies `ooo, `oooBytes
      ensures OooSound(rcvPos) && oooBytes == old(oooBytes) + net && |ooo| <= |old(ooo)| + 1
      ensures Adjoins(old(Cached(rcvPos)), Unwrap(rcvPos, sq), Unwrap(rcvPos, sq) + |data|) ==> |ooo| <= |old(ooo)|
      ensures Content(Cached(rcvPos)) == Overlay(Content(old(Cached(rcvPos))), Unwrap(rcvPos, sq), data)
      ensures Fins(Cached(rcvPos))
           == FinsAfter(old(Cached(rcvPos)), Unwrap(rcvPos, sq), Unwrap(rcvPos, sq) + |data|, fin)
    {
      hide Lift, Unwrap, Content, Fins, Tidy, Adjoins, OneStream, Meet, Overlay, FinsAfter, Range;
      MeetFull(Content(Cached(rcvPos)).Keys, Unwrap(rcvPos, sq), Unwrap(rcvPos, sq) + |data|);
      ghost var c := ooo;
      ooo := InsertSegment(ooo, sq, data, fin, rcvPos);
      InsertSound(c, ooo, oooBytes, sq, data, fin, rcvPos, finAt);
      oooBytes := oooBytes + net;
    }

    // ---- one data segment ----

    ghost predicate RecvSound()
      reads `acks, `tx, `rcvPos, `rcvNxt, `state, `queue, `accepted, `finReceived, `rxShutdown, `appClosed, `ooo, `oooBytes, account
    {
      LineSound() && OooSound(rcvPos) && |ooo| <= cfg.oooMaxSegments
    }

    /** The segment [p, p + len) lies between the SYN and the FIN and within half a circle of `rcvNxt`. */
    ghost predicate Arrives(p: int, len: nat, fin: bool)
      reads `rcvPos
    {
      && rcvPos - HALF < p && p + len < rcvPos + HALF - 1
      && irs <= p && p + len <= finAt && (fin ==> p + len == finAt)
    }

    /** Deliver `tail`, which starts at `rcvNxt`, and whatever becomes contiguous with it. */
    method Continue(tail: seq<byte>)
      requires RecvSound() && tail != [] && rcvPos + |tail| <= finAt && rcvPos + |tail| < rcvPos + HALF
      modifies `acks, `queue, account, `rcvNxt, `rcvPos, `accepted, `finReceived, `state, `ooo, `oooBytes
      ensures RecvSound() && old(rcvPos) <= rcvPos
      ensures account.used - Held() == old(account.used - Held())
      ensures Continued(old(Cached(rcvPos)), Cached(rcvPos), irs + 1, old(accepted), accepted, tail,
                        old(rxShutdown || Fits(|tail|)))
      ensures rxShutdown || (old(Held()) + |tail| <= cfg.maxRxQueue && old(Fits(|tail|))) ==>
                Remains(old(Cached(rcvPos)), Cached(rcvPos), rcvPos)
      ensures finReceived == old(finReceived) || (finReceived && state == AfterFin(old(state)))
      ensures finReceived == old(finReceived) ==> state == old(state)
      ensures CacheJoined(old(accepted), accepted, tail, old(rxShutdown || Fits(|tail|))) ==> old(acks).out < acks.out
    {
      hide WindowFor, Tallied, CacheSound, Lift, QueueSound, Acks.Sound, Flushed, Content, Remains;
      ghost var o, a0, acc0, fits := rcvPos, Cached(rcvPos), accepted, rxShutdown || Fits(|tail|);
      NotYetFin();
      DeliverData(tail);
      ghost var acc1 := accepted;
      ghost var room := Held() <= cfg.maxRxQueue || rxShutdown;
      FlushOoo(o);
      FlushedParts(a0, Cached(rcvPos), irs + 1, acc1, accepted, rcvPos, room);
    }

    /** A segment ahead of `rcvNxt`: cached silently, or refused with a duplicate acknowledgement. */
    method HandleAhead(sq: u32, data: seq<byte>, fin: bool, ghost p: int) returns (cached: bool)
      requires RecvSound() && data != [] && sq == Wrap(p) && Arrives(p, |data|, fin) && p > rcvPos
      modifies `acks, account, `ooo, `oooBytes
      ensures RecvSound()
      ensures account.used - Held() == old(account.used - Held())
      ensures Appended(old(Cached(rcvPos)), Cached(rcvPos), p, data, fin, cached,
                       |old(ooo)| < cfg.oooMaxSegments, old(Spare()))
      ensures if cached then acks == old(acks) else old(acks).out < acks.out && ooo == old(ooo)
    {
      hide WindowFor, Tallied, CacheSound, Lift, QueueSound, Acks.Traced, PosSound, Content, Appended, Unwrap;
      UnwrapOfWrap(rcvPos, p);
      cached := AppendData(sq, data, fin);
      if !cached {
        SendAck();
      }
    }

    /** A data segment whose first byte is at position `p`; tells whether it was cached out of order. */
    method HandleData(sq: u32, data: seq<byte>, fin: bool, ghost p: int) returns (cached: bool)
      requires RecvSound() && data != [] && sq == Wrap(p) && Arrives(p, |data|, fin)
      modifies `acks, `queue, account, `rcvNxt, `rcvPos, `accepted, `finReceived, `state, `ooo, `oooBytes
      ensures RecvSound() && old(rcvPos) <= rcvPos
      ensures account.used - Held() == old(account.used - Held())
      ensures p <= old(rcvPos) < p + |data| ==>
                Continued(old(Cached(rcvPos)), Cached(rcvPos), irs + 1, old(accepted), accepted, data[old(rcvPos) - p..],
                          old(rxShutdown || Fits(p + |data| - rcvPos)))
      ensures p <= old(rcvPos) < p + |data|
              && (rxShutdown || (old(Held() + p + |data| - rcvPos) <= cfg.maxRxQueue && old(Fits(p + |data| - rcvPos)))) ==>
                Remains(old(Cached(rcvPos)), Cached(rcvPos), rcvPos)
      ensures p > old(rcvPos) || p + |data| <= old(rcvPos) ==>
                accepted == old(accepted) && rcvPos == old(rcvPos) && queue == old(queue)
      ensures p > old(rcvPos) ==>
                Appended(old(Cached(rcvPos)), Cached(rcvPos), p, data, fin, cached,
                         |old(ooo)| < cfg.oooMaxSegments, old(Spare()))
      ensures (p > old(rcvPos) && !cached) || p + |data| <= old(rcvPos) ==> ooo == old(ooo) && old(acks).out < acks.out
      ensures p > old(rcvPos) && cached ==> acks == old(acks)
      ensures Took(old(Standing()), p, data, fin, Cached(rcvPos), accepted, rcvPos, old(acks).out < acks.out)
      ensures finReceived == old(finReceived) || (finReceived && state == AfterFin(old(state)))
      ensures finReceived == old(finReceived) ==> state == old(state)
    {
      hide WindowFor, Tallied, CacheSound, Lift, QueueSound, Acks.Traced, PosSound, Content, Remains, Appended, Unwrap, Continued, Standing, Took, Fits, CacheJoined;
      ghost var o, k := Standing(), acks.out;
      StandingIs(p + |data| - rcvPos);
      cached := false;
      CompareIsOrder(p, rcvPos);
      CompareIsOrder(p + |data|, rcvPos);
      WrapAdd(p, |data|);
      if sq == rcvNxt {
        assert data[rcvPos - p..] == data;
        Continue(data);
        TookNext(o, p, data, fin, Cached(rcvPos), accepted, rcvPos, k < acks.out);
      } else if SeqGt(sq, rcvNxt) {
        cached := HandleAhead(sq, data, fin, p);
        TookAhead(o, p, data, fin, Cached(rcvPos), k < acks.out);
      } else {
        var segEnd := Add32(sq, |data|);
        if SeqGt(segEnd, rcvNxt) {
          SkipIs(sq, p, rcvNxt, rcvPos);
          var skip := Sub32(rcvNxt, sq);
          Continue(data[skip..]);
          TookNext(o, p, data, fin, Cached(rcvPos), accepted, rcvPos, k < acks.out);
        } else {
          SendAck();
          TookBehind(o, p, data, fin);
        }
      }
    }

    // ---- the peer's stream ----

    /** What was accepted, and what is cached, are bytes of the peer's stream at their positions. */
    ghost predicate Faithful(stream: seq<byte>)
      reads `accepted, `ooo, `rcvPos
    {
      CacheFaithful(stream) && accepted <= stream
    }

    ghost predicate CacheFaithful(stream: seq<byte>)
      reads `ooo, `rcvPos
    {
      |stream| == finAt - (irs + 1) && InStream(Cached(rcvPos), irs + 1, stream)
    }

    /**
     The payload is the peer's at its position.  The payload of a SYN begins one behind its sequence number, but on an
     open flow it is taken for data at the sequence number itself.
     */
    ghost predicate Carries(p: int, data: seq<byte>, fin: bool, stream: seq<byte>) {
      if p == irs then !fin && data <= stream
      else irs < p && p + |data| <= irs + 1 + |stream| && data == stream[p - (irs + 1)..p - (irs + 1) + |data|]
    }

    /** The first `n` bytes of the stream, placed one too early, bring bytes that are taken. */
    predicate Misplaces(n: nat)
      reads `rcvPos, `rxShutdown, `queue, account
    {
      rcvPos < irs + n && (rxShutdown || Fits(irs + n - rcvPos))
    }

    /** A segment at `p` with `n` bytes leaves the accepted bytes a prefix of the stream. */
    predicate Harmless(p: int, n: nat, stream: seq<byte>)
      reads `rcvPos, `rxShutdown, `queue, account
    {
      p == irs && Misplaces(n) ==> irs + 1 <= rcvPos && n <= |stream| && Alike(stream, rcvPos - (irs + 1), n)
    }

    /** Where the flow stands before a segment. */
    ghost function Standing(): Scene
      reads `rcvPos, `ooo, `oooBytes, `accepted, `rxShutdown, `queue, account
    {
      Scene(rcvPos, irs + 1, Cached(rcvPos), accepted, rxShutdown, Min(cfg.maxRxQueue - queue.bytes, account.limit - account.used),
            Spare(), |ooo| < cfg.oooMaxSegments)
    }

    /** The data and FIN part of an incoming segment at position `p`. */
    method Receive(sq: u32, data: seq<byte>, fin: bool, ghost p: int, ghost stream: seq<byte>)
      requires RecvSound() && sq == Wrap(p) && Arrives(p, |data|, fin)
      requires Faithful(stream) && Carries(p, data, fin, stream)
      modifies `acks, `queue, account, `rcvNxt, `rcvPos, `accepted, `finReceived, `state, `ooo, `oooBytes
      ensures RecvSound() && old(rcvPos) <= rcvPos && old(accepted) <= accepted
      ensures CacheFaithful(stream)
      ensures Faithful(stream) <==> old(Harmless(p, |data|, stream))
      ensures account.used - Held() == old(account.used - Held())
      ensures p <= old(rcvPos) < p + |data| && old(rxShutdown || Fits(p + |data| - rcvPos)) ==> rcvPos >= p + |data|
      ensures Took(old(Standing()), p, data, fin, Cached(rcvPos), accepted, rcvPos, old(acks).out < acks.out)
      ensures fin && rcvPos >= finAt ==> finReceived
      ensures finReceived == old(finReceived) || (finReceived && state == AfterFin(old(state)))
      ensures finReceived == old(finReceived) ==> state == old(state)
    {
      hide WindowFor, Tallied, RecvSound, CacheFaithful, Wrap, Fits, Arrives, Alike, Standing, Took, TookFin, Cached;
      assert fin ==> p + |data| == finAt && -HALF < finAt - rcvPos < HALF - 1 by { ArrivesFin(p, |data|, fin); }
      WrapAdd(p, |data|);
      PlaceBound();
      ghost var o, k := Standing(), acks.out;
      StandingIs(0);
      if data != [] {
        ReceiveData(sq, data, fin, p, stream);
      }
      if fin {
        PlaceBound();
        ghost var a, r, k1 := Cached(rcvPos), rcvPos, acks.out;
        ReceiveFin(Add32(sq, |data|), data == [], stream);
        if data != [] { TookOn(o, p, data, fin, a, accepted, r, k < k1, rcvPos, k < acks.out); }
      }
      if data == [] { TookBare(o, p, fin, Cached(rcvPos), accepted, rcvPos, k < acks.out); }
    }

    lemma PlaceBound()
      requires RecvSound()
      ensures irs + 1 <= rcvPos <= finAt + 1 && (rcvPos == finAt + 1 ==> finReceived)
    {
    }

    lemma ArrivesFin(p: int, len: nat, fin: bool)
      requires Arrives(p, len, fin)
      ensures rcvPos - HALF < p && p + len < rcvPos + HALF - 1 && (fin ==> p + len == finAt)
    {
    }

    /** The FIN of a segment; a bare one that comes early is cached. */
    method ReceiveFin(finSeq: u32, bare: bool, ghost stream: seq<byte>)
      requires RecvSound() && Faithful(stream) && finSeq == Wrap(finAt) && -HALF < finAt - rcvPos < HALF - 1
      modifies `acks, `queue, account, `rcvNxt, `rcvPos, `accepted, `finReceived, `state, `ooo, `oooBytes
      ensures RecvSound() && Faithful(stream) && old(rcvPos) <= rcvPos && accepted == old(accepted)
      ensures account.used - Held() == old(account.used - Held())
      ensures rcvPos >= finAt ==> finReceived
      ensures bare ==> TookFin(old(Standing()), finAt, Cached(rcvPos), old(acks).out < acks.out)
      ensures !bare ==> Cached(rcvPos) == old(Cached(rcvPos)) && old(acks).out <= acks.out
      ensures !bare && old(rcvPos) < finAt ==> acks == old(acks) && rcvPos == old(rcvPos)
      ensures finReceived == old(finReceived) || (finReceived && state == AfterFin(old(state)))
      ensures finReceived == old(finReceived) ==> state == old(state)
    {
      hide WindowFor, Tallied, CacheSound, Lift, QueueSound, Acks.Traced, Content, InStream, Fins;
      CompareIsOrder(finAt, rcvPos);
      if bare && SeqGt(finSeq, rcvNxt) {
        UnwrapOfWrap(rcvPos, finAt);
        ghost var a := Cached(rcvPos);
        var ok := AppendFin(finSeq);
        SameInStream(a, Cached(rcvPos), irs + 1, stream);
        if !ok {
          SendAck();
        }
      } else {
        ghost var o := rcvPos;
        HandleFin(finSeq);
        FinKeepsCache(ooo, oooBytes, o, finAt, rcvPos);
      }
    }

    method ReceiveData(sq: u32, data: seq<byte>, fin: bool, ghost p: int, ghost stream: seq<byte>)
      requires RecvSound() && data != [] && sq == Wrap(p) && Arrives(p, |data|, fin)
      requires Faithful(stream) && Carries(p, data, fin, stream)
      modifies `acks, `queue, account, `rcvNxt, `rcvPos, `accepted, `finReceived, `state, `ooo, `oooBytes
      ensures RecvSound() && old(rcvPos) <= rcvPos && old(accepted) <= accepted
      ensures CacheFaithful(stream)
      ensures Faithful(stream) <==> old(Harmless(p, |data|, stream))
      ensures account.used - Held() == old(account.used - Held())
      ensures p <= old(rcvPos) < p + |data| && old(rxShutdown || Fits(p + |data| - rcvPos)) ==> rcvPos >= p + |data|
      ensures Took(old(Standing()), p, data, fin, Cached(rcvPos), accepted, rcvPos, old(acks).out < acks.out)
      ensures p > old(rcvPos) ==> rcvPos == old(rcvPos)
      ensures finReceived == old(finReceived) || (finReceived && state == AfterFin(old(state)))
      ensures finReceived == old(finReceived) ==> state == old(state)
    {
      hide WindowFor, Tallied, RecvSound, Faithful, CacheFaithful, Cached, Fits, InStream, Appended, Continued, Remains, Fins, Wrap, Alike, Standing, Took;
      ghost var o, k := Standing(), acks.out;
      StandingIs(p + |data| - rcvPos);
      FaithfulNow(stream);
      var cached := HandleData(sq, data, fin, p);
      TookInStream(o, p, data, fin, Cached(rcvPos), accepted, rcvPos, k < acks.out, stream);
      AcceptedEnd();
      FaithfulAgain(stream);
    }

    lemma StandingIs(n: int)
      ensures var o := Standing();
              && o.next == rcvPos && o.first == irs + 1 && o.cache == Cached(rcvPos) && o.accepted == accepted && o.spare == Spare()
              && o.slot == (|ooo| < cfg.oooMaxSegments) && o.shut == rxShutdown
              && (n >= 0 ==> (n <= o.room <==> Fits(n)) && (n <= o.spare <==> Held() + n <= cfg.maxRxQueue && Fits(n)))
    {
      hide Cached;
    }

    lemma FaithfulNow(stream: seq<byte>)
      requires RecvSound() && Faithful(stream)
      ensures |stream| == finAt - (irs + 1) && accepted <= stream && InStream(Cached(rcvPos), irs + 1, stream)
      ensures rcvPos < finAt ==> rcvPos == irs + 1 + |accepted|
      ensures irs + 1 <= rcvPos
    {
      hide InStream, Cached;
    }

    lemma FaithfulAgain(stream: seq<byte>)
      requires |stream| == finAt - (irs + 1) && InStream(Cached(rcvPos), irs + 1, stream)
      ensures CacheFaithful(stream) && (Faithful(stream) <==> accepted <= stream)
    {
      hide InStream, Cached;
    }

    lemma AcceptedEnd()
      requires RecvSound()
      ensures rcvPos >= irs + 1 + |accepted|
    {
    }

    // ---- the whole flow ----

    /** What the application gave up, or never had: nothing is held, and no operation is pending. */
    ghost predicate Gone()
      reads `queue, `ooo, `oooBytes
    {
      queue == queue.Clear() && ooo == map[] && oooBytes == 0
    }

    ghost predicate OpenParts()
      reads `rcvPos, `queue, `accepted, `finReceived, `rxShutdown, `appClosed, `ooo, `oooBytes
    {
      ReadSound() && OooSound(rcvPos) && |ooo| <= cfg.oooMaxSegments
    }

    ghost predicate TxSound()
      reads `tx, `state, `phase, `appClosed
    {
      && (state == Closed || appClosed ==> tx.op.None?)
      && (state != Closed && !appClosed ==>
            && tx.Sound(iss + 1) && LoopSound(tx, phase)
            && (if state == SynRcvd then tx.nxtPos == iss else iss < tx.nxtPos)
            && (state in {FinWait2, TimeWait} ==> tx.unaPos == tx.nxtPos))
    }

    ghost predicate StateSound()
      reads `state, `finReceived, `tx, `counted
    {
      && FinFlags(state, finReceived, tx.finSent)
      && counted == (if state in {SynRcvd, SynAckSent, Closed} then 0 else 1)
    }

    /** Everything but the shared budget. */
    ghost predicate Local()
      reads `acks, `rcvPos, `rcvNxt, `state, `queue, `accepted, `finReceived, `rxShutdown, `appClosed, `ooo, `oooBytes
      reads `tx, `phase, `counted
    {
      && cfg.mss > 0 && sndWndScale <= 14 && AckSound() && PlaceSound()
      && Told(queue, accepted, finReceived) && TxSound() && StateSound()
      && (if state == Closed then Gone() else OpenParts())
      && (state == SynRcvd ==> ooo == map[])
    }

    ghost predicate Valid()
      reads `acks, `rcvPos, `rcvNxt, `state, `queue, `accepted, `finReceived, `rxShutdown, `appClosed, `ooo, `oooBytes
      reads `tx, `phase, `counted, account
    {
      Local() && MemSound()
    }

    lemma Inner()
      requires Valid()
      ensures Local()
    {
    }

    lemma Parts()
      requires Valid()
      ensures cfg.mss > 0 && sndWndScale <= 14 && AckSound() && PlaceSound() && TxSound() && StateSound() && MemSound()
      ensures Told(queue, accepted, finReceived) && (if state == Closed then Gone() else OpenParts())
      ensures state == SynRcvd ==> ooo == map[]
    {
    }

    lemma Assemble()
      requires cfg.mss > 0 && sndWndScale <= 14 && AckSound() && PlaceSound() && TxSound() && StateSound() && MemSound()
      requires Told(queue, accepted, finReceived) && (if state == Closed then Gone() else OpenParts())
      requires state == SynRcvd ==> ooo == map[]
      ensures Valid()
    {
    }

    lemma OpenValid()
      requires Open(state)
      ensures Valid() <==> RecvSound() && TxSound() && StateSound() && sndWndScale <= 14
    {
      hide CacheSound, PosSound, Acks.Sound, Tx.Sound, FinFlags, RxQueue.Queue.Sound, RxQueue.Queue.History;
    }

    /** What the peer holds fits what was sent. */
    ghost predicate PeerReached(held: map<int, byte>)
      reads `tx, `state, `appClosed
    {
      state != Closed && !appClosed ==> tx.Reached(iss + 1, held)
    }

    /**
     In every open state the last packet acknowledges everything received, or exactly one in-order segment is not
     acknowledged and the delayed-acknowledgement timer runs; acknowledgements never move backwards.
     */
    lemma AckDiscipline()
      requires Valid() && Open(state)
      ensures |acks.out| == |acks.log| > 0
      ensures acks.out[|acks.out| - 1].ack == rcvNxt || (acks.unacked == 1 && acks.pending && acks.timer)
      ensures forall i :: 0 <= i < |acks.out| ==> acks.out[i].ack == Wrap(acks.log[i]) && acks.log[i] <= rcvPos
      ensures forall i, j :: 0 <= i < j < |acks.log| ==> acks.log[i] <= acks.log[j]
    {
      hide PosSound, CacheSound, QueueSound, Told, Tx.Sound, LoopSound, FinFlags;
    }

    /** The packets that carry data are the pieces on the wire: a receiver that is near enough reads off bytes and position. */
    lemma PacketsCarry(i: nat)
      requires Valid() && i < |tx.wire|
      ensures |Sends(acks.out)| == |tx.wire|
      ensures Sends(acks.out)[i] == (Wrap(tx.wire[i].pos), tx.wire[i].data)
      ensures forall origin :: -HALF <= tx.wire[i].pos - origin < HALF ==>
                Piece(Unwrap(origin, Sends(acks.out)[i].0), Sends(acks.out)[i].1) == tx.wire[i]
    {
      hide WindowFor, PosSound, Acks.Sound, CacheSound, QueueSound, Told, Tx.Sound, LoopSound, FinFlags, Sends, Marks;
      MarksAt(tx.wire, i);
      hide Unwrap, Wrap;
      forall origin | -HALF <= tx.wire[i].pos - origin < HALF
        ensures Piece(Unwrap(origin, Sends(acks.out)[i].0), Sends(acks.out)[i].1) == tx.wire[i]
      {
        UnwrapOfWrap(origin, tx.wire[i].pos);
      }
    }

    /** State and flags agree, and beyond FIN_WAIT_1 everything sent, our FIN with it, is acknowledged. */
    lemma FlagsMatchState()
      requires Valid()
      ensures state in {SynRcvd, SynAckSent, Established, CloseWait} ==> !tx.finSent
      ensures state in {FinWait1, FinWait2, LastAck, TimeWait} ==> tx.finSent
      ensures state in {SynRcvd, SynAckSent, Established, FinWait2} ==> !finReceived
      ensures state in {CloseWait, LastAck, TimeWait} ==> finReceived
      ensures state in {FinWait2, TimeWait} && !appClosed ==> tx.unaPos == tx.nxtPos
      ensures counted == (if state in {SynRcvd, SynAckSent, Closed} then 0 else 1)
    {
      hide WindowFor, Tallied, PosSound, Acks.Sound, CacheSound, QueueSound, Told, Tx.Sound, LoopSound;
    }

    /** Nothing more of a write will be sent: the state is beyond ESTABLISHED and the send loop waits for it. */
    ghost predicate Muted()
      reads `state, `tx, `phase
    {
      && state !in {SynRcvd, SynAckSent, Established}
      && (tx.op.Some? ==> !tx.op.value.implicitAccept && phase in {Spawned, Handshake})
    }

    /** The cached segments lie strictly ahead of `rcvNxt`, apart and not touching, and are counted exactly. */
    lemma CacheDiscipline()
      requires Valid() && state != Closed
      ensures |ooo| <= cfg.oooMaxSegments && oooBytes == |Content(Cached(rcvPos))|
      ensures Apart(Cached(rcvPos)) && Coalesced(Cached(rcvPos))
      ensures forall p :: p in Cached(rcvPos) ==> rcvPos < p
    {
      hide Valid, Content, Apart, Coalesced, Lift, ReadSound, TxSound, AckSound, PlaceSound;
      Parts();
      TidyParts(Cached(rcvPos), rcvPos);
    }

    // ---- closing ----

    method SendControl(sq: u32, flags: Flags)
      requires AckSound() && state != Closed
      modifies `acks
      ensures acks == old(Sent(sq, flags)) && acks.Sound(rcvPos, true) && AckSound()
      ensures acks.out == old(acks.out) + [old(Control(sq, flags))]
    {
      hide WindowFor, Acks.Traced, Tallied;
      SentIs(sq, flags);
      acks.SendTraced(sq, flags, rcvNxt, CurrentWnd(), state == SynAckSent, [], rcvPos, true);
      acks := Sent(sq, flags);
    }

    /** Give back everything that is held; pending operations end with an error. */
    method Discard()
      requires MemSound()
      modifies `queue, `ooo, `oooBytes, account
      ensures MemSound() && Gone() && queue == old(queue).Clear()
      ensures account.used == old(account.used - Held())
    {
      if queue.bytes > 0 {
        account.Release(queue.bytes);
      }
      queue := queue.Clear();
      if oooBytes > 0 {
        account.Release(oooBytes);
        oooBytes := 0;
      }
      ooo := map[];
    }

    method CloseFlow()
      requires Valid()
      modifies `counted, `acks, `queue, `ooo, `oooBytes, `tx, `state, account
      ensures Valid() && state == Closed && acks.out == old(acks).out
      ensures account.used == old(account.used - Held()) && queue == old(queue).Clear() && Held() == 0
      ensures Quietly(old(tx), tx)
    {
      hide WindowFor, Tallied, Valid, PlaceSound, OpenParts, AckSound, StateSound, TxSound;
      Parts();
      if state == Closed {
        return;
      }
      Discard();
      MarkClosed();
    }

    method MarkClosed()
      requires cfg.mss > 0 && sndWndScale <= 14 && AckSound() && PlaceSound() && StateSound() && MemSound()
      requires Told(queue, accepted, finReceived) && Gone() && state != Closed
      modifies `counted, `acks, `tx, `state
      ensures Valid() && state == Closed && acks.out == old(acks).out
      ensures Quietly(old(tx), tx)
    {
      hide WindowFor, Tallied, Valid, PlaceSound, MemSound, Acks.Sound, Told, Gone, OpenParts, Tx.Sound, LoopSound;
      acks.StopSound(rcvPos, Open(state));
      acks, tx := acks.(timer := false), tx.(op := None);
      if state != SynRcvd && state != SynAckSent {
        counted := counted - 1;
      }
      state := Closed;
      Assemble();
    }

    /** Reset the connection. */
    method Abort()
      requires Valid()
      modifies `counted, `acks, `queue, `ooo, `oooBytes, `tx, `state, account
      ensures Valid() && state == Closed
      ensures acks.out == if old(state) == Closed then old(acks).out else old(Sent(tx.nxt, RstAck)).out
      ensures account.used == old(account.used - Held()) && queue == old(queue).Clear() && Held() == 0
      ensures Quietly(old(tx), tx)
      ensures old(state) != Closed ==> acks.out == old(acks.out) + [old(Control(tx.nxt, RstAck))]
    {
      hide WindowFor, Tallied, PosSound, Acks.Sound, CacheSound, QueueSound, Tx.Sound, LoopSound, FinFlags, Told;
      if state == Closed {
        return;
      }
      SendControl(tx.nxt, RstAck);
      CloseFlow();
    }

    lemma FinNotSent()
      requires Valid()
      ensures state in {SynRcvd, SynAckSent, Established, CloseWait} ==> !tx.finSent
      ensures state in {FinWait1, FinWait2, LastAck, TimeWait} ==> tx.finSent
      ensures state == Closed ==> Gone()
    {
      hide WindowFor, Tallied, PosSound, Acks.Sound, CacheSound, QueueSound, Told, Tx.Sound, LoopSound;
    }

    /** Send the FIN, or leave it for later while data is unsent or unacknowledged. */
    method SendFin(ghost held: map<int, byte>)
      requires Valid() && PeerReached(held)
      modifies `counted, `acks, `queue, `ooo, `oooBytes, `tx, `state, account
      ensures Valid() && PeerReached(held) && Rank(old(state)) <= Rank(state)
      ensures account.used - Held() == old(account.used - Held())
      ensures queue == if state == Closed then old(queue).Clear() else old(queue)
      ensures state != Closed ==> ooo == old(ooo) && oooBytes == old(oooBytes)
      ensures old(state) == Closed || old(tx).finSent ==> acks == old(acks) && tx == old(tx) && state == old(state)
      ensures old(state) != Closed && !old(tx).finSent && !old(tx).Drained() ==>
                tx == old(tx).(finPending := true) && state == old(state) && acks == old(acks)
      ensures old(state) in {Established, CloseWait} && old(tx).Drained() ==>
                && state == (if old(state) == Established then FinWait1 else LastAck)
                && acks == old(Sent(tx.nxt, FinAck)) && tx == old(tx).WithFin()
      ensures old(state) in {SynRcvd, SynAckSent} && old(tx).Drained() ==>
                state == Closed && acks.out == old(acks.out) + [old(Control(tx.nxt, RstAck))]
      ensures Quietly(old(tx), tx)
      ensures old(state) in {Established, CloseWait} && old(tx).Drained() ==> FinAdded(old(tx), tx)
      ensures old(state) in {Established, CloseWait} && old(tx).Drained() && !old(tx).finSent ==>
                acks.out == old(acks.out) + [old(Control(tx.nxt, FinAck))]
      ensures old(acks).out <= acks.out
    {
      hide WindowFor, Tallied, Valid, Tx.Reached, Sent, Tx.WithFin;
      FinNotSent();
      if tx.finSent || state == Closed {
        return;
      }
      if (tx.op.Some? && tx.op.value.offset < tx.op.value.total) || tx.una != tx.nxt {
        PendingFin(held);
      } else if state == Established {
        EmitFin(FinWait1, held);
      } else if state == CloseWait {
        EmitFin(LastAck, held);
      } else {
        RefuseFin();
      }
    }

    /** A connection that is not established has no FIN: it is reset. */
    method RefuseFin()
      requires Valid() && state != Closed
      modifies `counted, `acks, `queue, `ooo, `oooBytes, `tx, `state, account
      ensures Valid() && state == Closed && tx.finSent
      ensures account.used == old(account.used - Held()) && queue == old(queue).Clear() && Held() == 0
      ensures acks.out == old(Sent(tx.nxt, RstAck)).out
      ensures Quietly(old(tx), tx) && acks.out == old(acks.out) + [old(Control(tx.nxt, RstAck))]
    {
      hide WindowFor, Tallied, PosSound, Acks.Sound, CacheSound, QueueSound, Told, Tx.Sound, LoopSound;
      Abort();
      tx := tx.(finSent := true);
    }

    method PendingFin(ghost held: map<int, byte>)
      requires Valid() && PeerReached(held)
      modifies `tx
      ensures Valid() && PeerReached(held) && tx == old(tx).(finPending := true)
    {
      hide WindowFor, Tallied, PosSound, Acks.Sound, CacheSound, QueueSound, Told;
      tx.PendingSound(iss + 1, true);
      tx := tx.(finPending := true);
    }

    /** The FIN segment itself. */
    method EmitFin(next: State, ghost held: map<int, byte>)
      requires Valid() && PeerReached(held) && tx.Drained()
      requires (state == Established && next == FinWait1) || (state == CloseWait && next == LastAck)
      modifies `acks, `tx, `state
      ensures Valid() && PeerReached(held) && state == next
      ensures tx == old(tx).WithFin() && acks == old(Sent(tx.nxt, FinAck))
      ensures Quietly(old(tx), tx) && FinAdded(old(tx), tx)
      ensures acks.out == old(acks.out) + [old(Control(tx.nxt, FinAck))]
    {
      hide WindowFor, Tallied, Valid, PlaceSound, MemSound, OpenParts, Acks.Sound, Told, Tx.Sound, Tx.Reached, LoopSound;
      Parts();
      if !appClosed { tx.FinReady(iss + 1, phase, held); }
      SendControl(tx.nxt, FinAck);
      state, tx := next, tx.WithFin();
      Assemble();
    }

    // ---- acknowledgements from the peer ----

    /** An acknowledgement that the peer may send: of what it holds. */
    ghost predicate MayAck(ack: u32, a: int, held: map<int, byte>)
      reads `tx, `state, `appClosed
    {
      state != Closed && !appClosed ==> ack == Wrap(a) && tx.Truthful(iss + 1, held, a)
    }

    /** How an acknowledgement stands to `una` once it was taken. */
    ghost predicate AckTaken(ack: u32, a: int)
      reads `tx, `state, `appClosed
    {
      state != Closed && !appClosed ==>
        ack == Wrap(a) && tx.unaPos - HALF < a && (tx.Unsent() == 0 ==> a <= tx.unaPos)
    }

    method TakeAck(ack: u32, ghost a: int, ghost held: map<int, byte>)
      requires Valid() && state != Closed && PeerReached(held) && MayAck(ack, a, held)
      modifies `tx
      ensures Valid() && PeerReached(held) && tx == old(tx).OnAck(ack) && AckTaken(ack, a)
      ensures Quietly(old(tx), tx)
    {
      hide WindowFor, Tallied, PosSound, Acks.Sound, CacheSound, QueueSound, Told, Tx.Sound, Tx.Reached, Tx.Truthful, LoopSound, FinFlags;
      OnAckOp(tx, ack);
      if !appClosed { tx.OnAckSound(iss + 1, ack, held, a); tx.OnAckLoop(iss + 1, ack, held, a, phase); FinSentNow(); }
      hide Tx.OnAck;
      tx := tx.OnAck(ack);
    }

    lemma FinSentNow()
      requires StateSound()
      ensures state in {FinWait1, FinWait2, LastAck, TimeWait} ==> tx.finSent
    {
    }

    method TakeWindow(wnd: nat)
      requires Valid() && wnd <= 65535
      modifies `tx
      ensures Valid() && tx == old(tx).(peerWnd := ShiftLeft(wnd, sndWndScale))
      ensures forall held :: old(PeerReached(held)) ==> PeerReached(held)
    {
      hide WindowFor, Tallied, PosSound, Acks.Sound, CacheSound, QueueSound, Told, Tx.Sound, Tx.Reached, ShiftLeft;
      LargestWindow(wnd, sndWndScale);
      tx.WindowSound(iss + 1, ShiftLeft(wnd, sndWndScale));
      tx := tx.(peerWnd := ShiftLeft(wnd, sndWndScale));
    }

    /** Our FIN was acknowledged. */
    method FinAcked(ack: u32, ghost a: int, ghost held: map<int, byte>)
      requires Valid() && state == FinWait1 && PeerReached(held) && AckTaken(ack, a) && SeqGe(ack, tx.nxt)
      modifies `state
      ensures Valid() && PeerReached(held) && state == if finReceived then TimeWait else FinWait2
    {
      hide WindowFor, Tallied, PosSound, Acks.Sound, CacheSound, QueueSound, Told, Tx.Sound, Tx.Reached, LoopSound, SeqGe, Wrap;
      if !appClosed { tx.AllSent(iss + 1); tx.FinCovered(iss + 1, ack, a); }
      state := if finReceived then TimeWait else FinWait2;
    }

    /** Send a FIN that was waiting for the last acknowledgement. */
    method SendWaitingFin(ack: u32, ghost a: int, ghost held: map<int, byte>)
      requires Valid() && PeerReached(held) && tx.finPending && tx.Drained() && AckTaken(ack, a)
      modifies `counted, `acks, `queue, `ooo, `oooBytes, `tx, `state, account
      ensures Valid() && PeerReached(held) && Rank(old(state)) <= Rank(state)
      ensures account.used - Held() == old(account.used - Held())
      ensures queue == if state == Closed then old(queue).Clear() else old(queue)
      ensures state != Closed ==> ooo == old(ooo) && oooBytes == old(oooBytes)
      ensures AckTaken(ack, a) && (old(state) in {FinWait1, LastAck} ==> state == old(state) && tx.nxt == old(tx).nxt)
      ensures old(state) in {Established, CloseWait} && !appClosed ==> !SeqGe(ack, tx.nxt)
      ensures old(state) in {SynRcvd, SynAckSent} ==> state == Closed
      ensures Quietly(old(tx), tx) && old(acks).out <= acks.out
      ensures old(state) in {Established, CloseWait} ==>
                && FinAdded(old(tx).(finPending := false), tx) && acks.out == old(acks.out) + [old(Control(tx.nxt, FinAck))]
                && state == if old(state) == Established then FinWait1 else LastAck
      ensures old(tx).finSent ==> tx == old(tx).(finPending := false) && acks == old(acks) && state == old(state)
    {
      hide WindowFor, Tallied, Valid, PeerReached, Sent, SeqGe, Wrap, LoopSound, Tx.Sound, Tx.Drained, RxQueue.Queue.Clear;
      ClearPending(held);
      FinNotSent();
      if state != Closed && !appClosed { TxOf(); }
      if state in {Established, CloseWait} && !appClosed { tx.FinUncovered(iss + 1, ack, a); }
      SendFin(held);
    }

    lemma TxOf()
      requires Valid() && state != Closed && !appClosed
      ensures tx.Sound(iss + 1) && LoopSound(tx, phase)
    {
    }

    method ClearPending(ghost held: map<int, byte>)
      requires Valid() && PeerReached(held)
      modifies `tx
      ensures Valid() && PeerReached(held) && tx == old(tx).(finPending := false) && tx.Drained() == old(tx).Drained()
    {
      hide WindowFor, Tallied, PosSound, Acks.Sound, CacheSound, QueueSound, Told, Tx.Sound, Tx.Reached;
      tx.PendingSound(iss + 1, false);
      tx := tx.(finPending := false);
    }

    /** The acknowledgement field of a segment; `alive` tells whether the flow goes on. */
    method HandleAck(ack: u32, ghost a: int, ghost held: map<int, byte>) returns (alive: bool)
      requires Valid() && state != Closed && PeerReached(held) && MayAck(ack, a, held)
      modifies `counted, `acks, `queue, `ooo, `oooBytes, `tx, `state, account
      ensures Valid() && PeerReached(held) && Rank(old(state)) <= Rank(state)
      ensures account.used - Held() == old(account.used - Held())
      ensures queue == if state == Closed then old(queue).Clear() else old(queue)
      ensures state != Closed ==> ooo == old(ooo) && oooBytes == old(oooBytes) && account.used == old(account.used)
      ensures old(state) == LastAck ==> (alive <==> !SeqGe(ack, old(tx).OnAck(ack).nxt))
      ensures !alive ==> state == Closed
      ensures old(state) in {SynRcvd, SynAckSent} ==> state in {old(state), Closed}
      ensures old(state) in {SynRcvd, SynAckSent} ==>
                (state == Closed <==> old(tx).Frees(ack))
      ensures old(state) == FinWait1 ==>
                state == if !SeqGe(ack, old(tx).OnAck(ack).nxt) then FinWait1 else if finReceived then TimeWait else FinWait2
      ensures state != Closed && !old(tx).Frees(ack) ==>
                tx == old(tx).OnAck(ack) && acks == old(acks)
      ensures old(state) in {Established, CloseWait} && old(tx).Frees(ack) ==>
                && acks.out == old(acks.out) + [old(Control(tx.OnAck(ack).nxt, FinAck))]
                && (!appClosed ==> FinAdded(old(tx).OnAck(ack).(finPending := false), tx)
                                   && state == if old(state) == Established then FinWait1 else LastAck)
      ensures Quietly(old(tx), tx) && old(acks).out <= acks.out
    {
      hide WindowFor, Tallied, Valid, Tx.Reached, Tx.OnAck, Tx.Drained, SeqGe, RxQueue.Queue.Clear, AckTaken;
      TakeAck(ack, a, held);
      if tx.finPending && tx.Drained() {
        SendWaitingFin(ack, a, held);
      }
      FinNotSent();
      if state == FinWait1 && tx.finSent && SeqGe(ack, tx.nxt) {
        FinAcked(ack, a, held);
      } else if state == LastAck && tx.finSent && SeqGe(ack, tx.nxt) {
        CloseFlow();
        return false;
      }
      return true;
    }

    // ---- the application reads ----

    /** Post a read of up to `n` bytes; the first read or write of a flow accepts it. */
    method StartRead(n: nat, ghost held: map<int, byte>) returns (r: Answer)
      requires Valid() && PeerReached(held)
      modifies `acks, `queue, `tx, `state, account
      ensures Valid() && PeerReached(held)
      ensures account.used - Held() == old(account.used - Held())
      ensures r == if old(state) == Closed || appClosed || rxShutdown then BadDescriptor else if n == 0 then Empty
                   else if old(queue).read.Some? then NoBufferSpace else Begun
      ensures r != Begun ==> queue == old(queue)
      ensures r == Begun ==> ReadsFlushed(old(queue).(read := Some(n)), queue, finReceived)
      ensures state == if old(state) == SynRcvd && r != BadDescriptor then SynAckSent else old(state)
      ensures old(state) == Closed ==> acks.out == old(acks).out
      ensures Quietly(old(tx), tx)
      ensures r == Begun && old(queue).bytes > 0 && Sane() && acks.out != [] && acks.sentWnd == 0 ==> !HasRoom(cfg.mss)
      ensures old(acks).out <= acks.out
    {
      hide WindowFor, Tallied, Valid, PeerReached, ReadsFlushed, Sent;
      if state == Closed || appClosed || rxShutdown {
        return BadDescriptor;
      }
      AcceptFlow(held);
      if n == 0 {
        return Empty;
      }
      if queue.read.Some? {
        return NoBufferSpace;
      }
      PostRead(n, held);
      return Begun;
    }

    method PostRead(n: nat, ghost held: map<int, byte>)
      requires Valid() && PeerReached(held) && Open(state) && !appClosed && !rxShutdown && queue.read.None? && n > 0
      modifies `acks, `queue, account
      ensures Valid() && PeerReached(held)
      ensures account.used - Held() == old(account.used - Held())
      ensures ReadsFlushed(old(queue).(read := Some(n)), queue, finReceived)
      ensures old(queue).bytes > 0 && Sane() && acks.out != [] && acks.sentWnd == 0 ==> !HasRoom(cfg.mss)
      ensures old(acks).out <= acks.out
    {
      hide WindowFor, Tallied, PosSound, Acks.Sound, CacheSound, QueueSound, Told, Tx.Sound, Tx.Reached, LoopSound, ReadsFlushed, FinFlags;
      ghost var q0 := queue;
      ReadTold();
      queue := queue.(read := Some(n));
      Serve(q0);
      ReadTold();
    }

    // ---- the handshake ----

    /** Answer the SYN; a second call changes nothing. */
    method AcceptFlow(ghost held: map<int, byte>)
      requires Valid() && PeerReached(held)
      modifies `acks, `tx, `state
      ensures Valid() && PeerReached(held)
      ensures old(state) == SynRcvd ==> state == SynAckSent && acks == old(Sent(iss, SynAck)) && tx == old(tx).Accepted()
      ensures old(state) == SynRcvd ==> tx == old(tx).(nxt := tx.nxt, nxtPos := old(tx).nxtPos + 1)
      ensures old(state) != SynRcvd ==> state == old(state) && acks == old(acks) && tx == old(tx)
      ensures acks.out == old(acks.out) + if old(state) == SynRcvd then [old(Control(iss, SynAck))] else []
    {
      hide WindowFor, Tallied, PosSound, Acks.Sound, CacheSound, QueueSound, Told, Tx.Sound, Tx.Reached, LoopSound;
      if state == SynRcvd {
        if !appClosed { tx.AcceptReady(iss + 1, phase, held); }
        SendControl(iss, SynAck);
        tx := tx.Accepted();
        state := SynAckSent;
      }
    }

    /** Serve a read that was just posted on the queue `q0`, or one that was waiting. */
    method Serve(ghost q0: RxQueue.Queue)
      requires cfg.mss > 0 && state != Closed && MemSound() && AckSound()
      requires QueueSound(q0, accepted, finReceived, rxShutdown, appClosed, cfg.maxRxQueue)
      requires queue == q0 || (q0.read.None? && !rxShutdown && !appClosed && queue.read.Some? && queue.read.value > 0
                               && queue == q0.(read := queue.read))
      modifies `acks, `queue, account
      ensures MemSound() && AckSound() && ReadSound() && ReadsFlushed(old(queue), queue, finReceived)
      ensures account.used - Held() == old(account.used - Held()) && queue.bytes <= old(queue).bytes
      ensures old(queue).bytes > 0 && old(queue).read.Some? && Sane() && acks.out != [] && acks.sentWnd == 0 ==> !HasRoom(cfg.mss)
      ensures old(acks).out <= acks.out
    {
      hide WindowFor, Tallied, AckSound, Told, RxQueue.Queue.History, RxQueue.Queue.Rest;
      ghost var q := queue;
      FlushReads();
      FlushedSound(q0, q, queue, accepted, finReceived, rxShutdown, appClosed, cfg.maxRxQueue);
    }

    /** The peer acknowledged the SYN. */
    method Establish(ghost held: map<int, byte>)
      requires Valid() && PeerReached(held) && state == SynAckSent
      modifies `counted, `acks, `queue, account, `state
      ensures Valid() && PeerReached(held) && state == Established && ReadsFlushed(old(queue), queue, finReceived)
      ensures account.used - Held() == old(account.used - Held()) && queue.bytes <= old(queue).bytes
      ensures old(acks).out <= acks.out
    {
      hide WindowFor, Tallied, PosSound, Acks.Sound, CacheSound, QueueSound, Told, Tx.Sound, Tx.Reached, LoopSound, ReadsFlushed;
      state, counted := Established, counted + 1;
      Serve(queue);
      ReadTold();
    }

    lemma ReadTold()
      requires ReadSound()
      ensures Told(queue, accepted, finReceived) && queue.head + queue.bytes == |queue.data|
    {
    }

    /** Data that came with the SYN: kept if there is room, and acknowledged by the SYN-ACK. */
    method TakeSynData(data: seq<byte>, ghost held: map<int, byte>)
      requires Valid() && state == SynRcvd && PeerReached(held) && !rxShutdown && !appClosed && queue.read.None?
      requires data != [] && rcvPos + |data| <= finAt
      modifies `queue, `rcvNxt, `rcvPos, `accepted, account
      ensures Valid() && PeerReached(held) && state == SynRcvd
      ensures account.used - Held() == old(account.used - Held())
      ensures accepted == old(accepted) + if old(Fits(|data|)) then data else []
      ensures queue == if old(Fits(|data|)) then old(queue).Enqueue(data) else old(queue)
    {
      hide WindowFor, Tallied, CacheSound, TxSound, PeerReached, Acks.Sound, QueueSound, PosSound, Told;
      if queue.bytes + |data| <= cfg.maxRxQueue {
        var ok := account.Reserve(|data|);
        if ok {
          KeepSynData(data);
          ReadTold();
        }
      }
    }

    method KeepSynData(data: seq<byte>)
      requires data != [] && state == SynRcvd && !rxShutdown && !appClosed && !finReceived && ooo == map[] && queue.read.None?
      requires AckSound() && PlaceSound() && ReadSound() && OooSound(rcvPos)
      requires queue.bytes + |data| <= cfg.maxRxQueue && rcvPos + |data| <= finAt
      modifies `queue, `rcvNxt, `rcvPos, `accepted
      ensures AckSound() && PlaceSound() && ReadSound() && OooSound(rcvPos)
      ensures accepted == old(accepted) + data && queue == old(queue).Enqueue(data)
    {
      hide WindowFor, Tallied, CacheSound, Acks.Sound, QueueSound;
      StoredSound(queue, accepted, data, cfg.maxRxQueue);
      acks.ReceivedTraced(rcvPos, rcvPos + |data|, Open(state));
      EmptyCache(rcvPos, finAt);
      EmptyCache(rcvPos + |data|, finAt);
      WrapAdd(rcvPos, |data|);
      queue := queue.Enqueue(data);
      rcvNxt, rcvPos, accepted := Add32(rcvNxt, |data|), rcvPos + |data|, accepted + data;
      acks.SettledSound(rcvPos);
    }

    // ---- a segment from the peer ----

    /** A segment of an honest peer: position `p` of its first byte, and what it acknowledges. */
    ghost predicate Honest(g: Arrival, p: int, a: int, stream: seq<byte>, held: map<int, byte>)
      reads `tx, `state, `appClosed, `rcvPos
    {
      && g.wnd <= 65535
      && (g.ackFlag ==> MayAck(g.ack, a, held))
      && (g.data != [] || g.fin ==> HonestData(g, p, stream))
    }

    /** The payload of a segment is the peer's; that of a SYN is looked at on an open flow only. */
    ghost predicate HonestData(g: Arrival, p: int, stream: seq<byte>)
      reads `state, `rcvPos
    {
      && g.sq == Wrap(p) && (if g.syn then g.sq == irs == p && !g.ackFlag else irs < p)
      && ((g.syn && state in {SynRcvd, SynAckSent}) || (Arrives(p, |g.data|, g.fin) && Carries(p, g.data, g.fin, stream)))
    }

    /** The bytes that go from peer to application, and from application to peer. */
    ghost predicate PeerSound(stream: seq<byte>, held: map<int, byte>)
      reads `accepted, `ooo, `rcvPos, `tx, `state, `appClosed
    {
      Faithful(stream) && PeerReached(held)
    }

    /** A flow that is new or closed has nothing cached that could contradict the stream. */
    lemma EmptyFaithful(stream: seq<byte>)
      requires Local() && state in {SynRcvd, Closed} && |stream| == finAt - (irs + 1) && accepted <= stream
      ensures Faithful(stream)
    {
      hide AckSound, PlaceSound, Told, TxSound, StateSound, OpenParts, InStream;
      FreshFaithful(stream);
    }

    lemma ClosedFaithful(stream: seq<byte>)
      requires Valid() && state in {SynRcvd, Closed} && |stream| == finAt - (irs + 1) && accepted <= stream
      ensures Faithful(stream)
    {
      EmptyFaithful(stream);
    }

    lemma FreshFaithful(stream: seq<byte>)
      requires ooo == map[] && |stream| == finAt - (irs + 1) && accepted <= stream
      ensures Faithful(stream)
    {
      assert Cached(rcvPos) == map[];
    }

    lemma FaithfulParts(stream: seq<byte>)
      requires Faithful(stream)
      ensures |stream| == finAt - (irs + 1) && accepted <= stream && CacheFaithful(stream)
    {
    }

    /**
     What the acknowledgement field and the window of a segment did to a flow that stays open: the send state moves on,
     and a FIN that waited for it goes out, in the packet `fin`.
     */
    ghost predicate Acknowledged(g: Arrival, t0: Tx, t: Tx, s0: State, out0: seq<Packet>, out: seq<Packet>, app: bool, fin: Packet) {
      if !g.ackFlag then t == t0 && out == out0
      else
        && t.peerWnd == ShiftLeft(g.wnd, sndWndScale)
        && if !t0.Frees(g.ack) then t == t0.OnAck(g.ack).(peerWnd := t.peerWnd) && out == out0
           else if s0 in {Established, CloseWait} then
             && out == out0 + [fin]
             && (!app ==> FinAdded(t0.OnAck(g.ack).(finPending := false, peerWnd := t.peerWnd), t))
           else out0 <= out
    }

    lemma AckedIs(g: Arrival, t0: Tx, t1: Tx, t: Tx, s0: State, out0: seq<Packet>, out: seq<Packet>, app: bool, fin: Packet)
      requires g.ackFlag && t == t1.(peerWnd := ShiftLeft(g.wnd, sndWndScale)) && out0 <= out
      requires !t0.Frees(g.ack) ==> t1 == t0.OnAck(g.ack) && out == out0
      requires t0.Frees(g.ack) && s0 in {Established, CloseWait} ==>
                 out == out0 + [fin] && (!app ==> FinAdded(t0.OnAck(g.ack).(finPending := false), t1))
      ensures Acknowledged(g, t0, t, s0, out0, out, app, fin)
    {
      hide Tx.OnAck, Tx.Frees, ShiftLeft;
    }

    twostate lemma Unmoved()
      requires rcvPos == old(rcvPos) && rcvNxt == old(rcvNxt) && queue == old(queue) && ooo == old(ooo) && oooBytes == old(oooBytes)
      requires accepted == old(accepted) && rxShutdown == old(rxShutdown) && account.used == old(account.used)
      ensures Standing() == old(Standing())
      ensures state == old(state) ==> Control(iss, SynAck) == old(Control(iss, SynAck))
    {
      hide WindowFor, WindowField, Lift;
    }

    /** The acknowledgement and the window of a segment. */
    method AckPart(g: Arrival, ghost a: int, ghost stream: seq<byte>, ghost held: map<int, byte>) returns (alive: bool)
      requires Valid() && state != Closed && PeerSound(stream, held) && MayAck(g.ack, a, held) && g.wnd <= 65535
      modifies `counted, `acks, `queue, account, `state, `ooo, `oooBytes, `tx
      ensures Valid() && PeerSound(stream, held) && Rank(old(state)) <= Rank(state)
      ensures account.used - Held() == old(account.used - Held())
      ensures !alive ==> state == Closed
      ensures old(state) in {SynRcvd, SynAckSent} ==> state in {old(state), Closed}
      ensures old(state) in {SynRcvd, SynAckSent} ==>
                (state == Closed <==> old(tx).Frees(g.ack))
      ensures state != Closed ==> tx.peerWnd == ShiftLeft(g.wnd, sndWndScale) && queue == old(queue)
      ensures state != Closed && g.ackFlag ==>
                Acknowledged(g, old(tx), tx, old(state), old(acks.out), acks.out, appClosed, old(Control(tx.OnAck(g.ack).nxt, FinAck)))
      ensures state != Closed && !old(tx).Frees(g.ack) ==> acks == old(acks)
      ensures state != Closed ==> account.used == old(account.used) && Standing() == old(Standing())
      ensures old(state) in {SynRcvd, SynAckSent} && state != Closed ==> Control(iss, SynAck) == old(Control(iss, SynAck))
      ensures Quietly(old(tx), tx) && old(acks).out <= acks.out
    {
      hide WindowFor, WindowField, Tallied, Valid, Faithful, PeerReached, Tx.OnAck, Tx.Frees, SeqGe, RxQueue.Queue.Clear, Cached, Held, MayAck, ShiftLeft, FinAdded, Acknowledged, Standing, Control;
      FaithfulParts(stream);
      alive := HandleAck(g.ack, a, held);
      if state == Closed { ClosedFaithful(stream); }
      ghost var t := tx;
      if alive {
        TakeWindow(g.wnd);
      }
      if state != Closed { Unmoved(); }
      if state != Closed && g.ackFlag {
        AckedIs(g, old(tx), t, tx, old(state), old(acks.out), acks.out, appClosed, old(Control(tx.OnAck(g.ack).nxt, FinAck)));
      }
    }

    /** The payload and the FIN of a segment. */
    method DataPart(g: Arrival, ghost p: int, ghost stream: seq<byte>, ghost held: map<int, byte>)
      requires Valid() && Open(state) && state != SynAckSent && PeerSound(stream, held)
      requires g.sq == Wrap(p) && Arrives(p, |g.data|, g.fin)
      requires Carries(p, g.data, g.fin, stream)
      modifies `acks, `queue, account, `rcvNxt, `rcvPos, `accepted, `finReceived, `state, `ooo, `oooBytes
      ensures Valid() && PeerReached(held) && Rank(old(state)) <= Rank(state) && state != Closed
      ensures CacheFaithful(stream)
      ensures Faithful(stream) <==> old(Harmless(p, |g.data|, stream))
      ensures account.used - Held() == old(account.used - Held())
      ensures old(rcvPos) <= rcvPos && old(accepted) <= accepted
      ensures p <= old(rcvPos) < p + |g.data| && old(rxShutdown || Fits(p + |g.data| - rcvPos)) ==> rcvPos >= p + |g.data|
      ensures Took(old(Standing()), p, g.data, g.fin, Cached(rcvPos), accepted, rcvPos, old(acks).out < acks.out)
      ensures g.fin && rcvPos >= finAt ==> finReceived
    {
      hide WindowFor, Tallied, Valid, RecvSound, Faithful, CacheFaithful, Alike, Fits, Tx.Reached, Tx.Sound, LoopSound, Wrap, Standing, Took;
      OpenValid();
      Receive(g.sq, g.data, g.fin, p, stream);
      OpenValid();
    }

    /**
     Every packet that was sent promised at most the window of its time, as the peer reads it, except those without SYN
     that were built in SYN_ACK_SENT: they did so if and only if no scale was agreed on or there was no window.
     */
    lemma WindowsKept()
      requires Valid()
      ensures |acks.offers| == |acks.out| && acks.shift == rcvWndScale
      ensures forall i :: 0 <= i < |acks.out| ==>
                (acks.Decoded(i) <= acks.offers[i].wnd <==>
                   acks.out[i].flags == SynAck || !acks.offers[i].early || rcvWndScale == 0 || acks.offers[i].wnd == 0)
    {
      hide PosSound, CacheSound, QueueSound, Told, Tx.Sound, LoopSound, FinFlags, Acks.Decoded, WindowField;
      forall i | 0 <= i < |acks.out|
        ensures acks.Decoded(i) <= acks.offers[i].wnd <==>
                  acks.out[i].flags == SynAck || !acks.offers[i].early || rcvWndScale == 0 || acks.offers[i].wnd == 0
      {
        acks.Promised(i);
      }
    }

    /** What fits the window finds room. */
    lemma WindowFits(n: nat)
      requires account.limit > 0 && Held() < MODULUS && 0 < n <= CurrentWnd()
      ensures Fits(n)
    {
      hide WindowFor, Tallied;
      WindowRoom(cfg.maxRxQueue, cfg.mss, queue.bytes + oooBytes, account.limit, account.used);
    }

    /** A packet that was not built in SYN_ACK_SENT, or is the SYN-ACK itself. */
    predicate Settled(i: nat)
      requires i < |acks.out| == |acks.offers|
      reads `acks
    {
      acks.out[i].flags == SynAck || !acks.offers[i].early
    }

    /** What the last packet promised, as the peer reads it, and as long as no room was lost since, finds room. */
    lemma PromiseFits(n: nat)
      requires Valid() && acks.out != [] && acks.sentWnd <= CurrentWnd() && account.limit > 0 && Held() < MODULUS
      requires |acks.offers| == |acks.out| && Settled(|acks.out| - 1) && 0 < n <= acks.Decoded(|acks.out| - 1)
      ensures Fits(n)
    {
      hide WindowFor, Tallied, ShiftLeft, Fits, PosSound, CacheSound, QueueSound, Told, Tx.Sound, LoopSound, FinFlags, WindowField;
      hide Acks.Decoded;
      acks.Promised(|acks.out| - 1);
      WindowFits(n);
    }

    /** An in-order segment within the window of the last packet is never refused, if no room was lost since. */
    method ArriveInWindow(g: Arrival, ghost stream: seq<byte>, ghost held: map<int, byte>)
      requires Valid() && Open(state) && state != SynAckSent && PeerSound(stream, held)
      requires account.limit > 0 && Held() < MODULUS && g.data != []
      requires acks.out != [] && |acks.offers| == |acks.out| && Settled(|acks.out| - 1)
      requires |g.data| <= acks.Decoded(|acks.out| - 1) && acks.sentWnd <= CurrentWnd()
      requires g.sq == rcvNxt && Arrives(rcvPos, |g.data|, g.fin) && Carries(rcvPos, g.data, g.fin, stream)
      modifies `acks, `queue, account, `rcvNxt, `rcvPos, `accepted, `finReceived, `state, `ooo, `oooBytes
      ensures Valid() && PeerSound(stream, held) && rcvPos >= old(rcvPos) + |g.data|
    {
      hide WindowFor, Tallied, ShiftLeft, WindowField, Valid, Faithful, PeerReached, Fits, Wrap;
      Numbered();
      PromiseFits(|g.data|);
      DataPart(g, rcvPos, stream, held);
    }

    /** Beyond SYN_ACK_SENT every packet is settled when it is sent. */
    lemma SentSettled(sq: u32, flags: Flags)
      requires Valid() && state != Closed && state != SynAckSent
      ensures var k := Sent(sq, flags);
              |k.offers| == |k.out| > 0 && !k.offers[|k.out| - 1].early && k.offers[|k.out| - 1].wnd == CurrentWnd()
    {
      hide WindowFor, Tallied, PosSound, CacheSound, QueueSound, Told, Tx.Sound, LoopSound, FinFlags, WindowField;
    }

    lemma QueueShape()
      requires Valid() && state != Closed
      ensures queue.head + queue.bytes == |queue.data|
    {
      hide WindowFor, Tallied, PosSound, Acks.Sound, CacheSound, Told, Tx.Sound, LoopSound, FinFlags;
    }

    lemma Numbered()
      requires Valid()
      ensures rcvNxt == Wrap(rcvPos) && irs + 1 <= rcvPos
    {
    }

    method ResendSynAck()
      requires Valid() && state == SynAckSent
      modifies `acks
      ensures Valid() && acks == old(Sent(iss, SynAck))
      ensures acks.out == old(acks.out) + [old(Control(iss, SynAck))]
    {
      hide WindowFor, Tallied, PosSound, Acks.Sound, CacheSound, QueueSound, Told, Tx.Sound, LoopSound, FinFlags;
      SendControl(iss, SynAck);
    }

    lemma NoAck(g: Arrival)
      requires !g.ackFlag
      ensures forall fin :: Acknowledged(g, tx, tx, state, acks.out, acks.out, appClosed, fin)
    {
    }

    /** One segment of the peer's, as a single step. */
    method HandleSegment(g: Arrival, ghost p: int, ghost a: int, ghost stream: seq<byte>, ghost held: map<int, byte>)
      returns (ghost m: seq<Packet>, ghost o: Scene, ghost k: seq<Packet>)
      requires Valid() && state != Closed && PeerSound(stream, held) && Honest(g, p, a, stream, held)
      modifies `counted, `acks, `queue, account, `rcvNxt, `rcvPos, `accepted, `finReceived, `state, `ooo, `oooBytes, `tx
      ensures Valid() && PeerReached(held) && Rank(old(state)) <= Rank(state)
      ensures CacheFaithful(stream)
      ensures Faithful(stream) <==> (old(state) in {SynRcvd, SynAckSent} || g.rst || old(Harmless(p, |g.data|, stream)))
      ensures account.used - Held() == old(account.used - Held())
      ensures old(rcvPos) <= rcvPos && old(accepted) <= accepted
      ensures g.rst ==> state == Closed
      ensures old(state) == SynRcvd ==> state in {SynRcvd, Closed}
      ensures old(state) in {SynRcvd, SynAckSent} ==>
                (state == Closed <==>
                   g.rst || (g.ackFlag && old(tx).Frees(g.ack)))
      ensures state != Closed ==>
                Acknowledged(g, old(tx), tx, old(state), old(acks.out), m, appClosed, old(Control(tx.OnAck(g.ack).nxt, FinAck)))
      ensures Quietly(old(tx), tx)
      ensures old(state) in {SynRcvd, SynAckSent} && state != Closed ==>
                Shook(g, old(state), state, m, acks.out, old(Control(iss, SynAck)))
      ensures g.fin && state !in {SynRcvd, SynAckSent, Closed} && rcvPos >= finAt ==> finReceived
      ensures state != Closed && old(state) != SynAckSent ==> o == old(Standing()) && k == m
      ensures state != Closed ==> Widened(old(Standing()), o) && m <= k
      ensures state !in {SynRcvd, SynAckSent, Closed} && (g.data != [] || g.fin) ==>
                Took(o, p, g.data, g.fin, Cached(rcvPos), accepted, rcvPos, k < acks.out)
      ensures !g.ackFlag && !g.rst ==> state != Closed
    {
      hide WindowFor, Tallied, Valid, CacheFaithful, PeerReached, Arrives, Carries, Alike, MayAck, Wrap, Sent, ShiftLeft, Tx.OnAck, Tx.Frees, FinAdded, Add32, Acknowledged, Control, Shook, Took, Cached, Standing, Widened;
      Numbered();
      m, o, k := acks.out, Standing(), acks.out;
      if !g.ackFlag { NoAck(g); }
      if g.ackFlag {
        var alive := AckPart(g, a, stream, held);
        if !alive {
          return;
        }
        m := acks.out;
      }
      o, k := Follow(g, p, stream, held);
    }

    /** The segment completes the handshake. */
    predicate Completes(g: Arrival) {
      !(g.syn && g.sq == irs) && g.ackFlag && g.ack == Add32(iss, 1)
    }

    /** The handshake goes on only with such a segment; a SYN that comes again is answered by `synAck`. */
    ghost predicate Shook(g: Arrival, s0: State, s: State, out0: seq<Packet>, out: seq<Packet>, synAck: Packet) {
      if s0 == SynAckSent then (s != SynAckSent <==> Completes(g)) && (g.syn && g.sq == irs ==> out == out0 + [synAck])
      else s == s0 && out == out0
    }

    /** What follows the acknowledgement: a reset, the handshake, and then the payload. */
    method Follow(g: Arrival, ghost p: int, ghost stream: seq<byte>, ghost held: map<int, byte>)
      returns (ghost o: Scene, ghost k: seq<Packet>)
      requires Valid() && PeerSound(stream, held) && (state != Closed && (g.data != [] || g.fin) ==> HonestData(g, p, stream))
      modifies `counted, `acks, `queue, account, `rcvNxt, `rcvPos, `accepted, `finReceived, `state, `ooo, `oooBytes, `tx
      ensures Valid() && PeerReached(held) && Rank(old(state)) <= Rank(state)
      ensures CacheFaithful(stream)
      ensures Faithful(stream) <==>
                (old(state) in {SynRcvd, SynAckSent, Closed} || g.rst || old(Harmless(p, |g.data|, stream)))
      ensures account.used - Held() == old(account.used - Held())
      ensures old(rcvPos) <= rcvPos && old(accepted) <= accepted
      ensures state == Closed <==> g.rst || old(state) == Closed
      ensures old(state) == SynRcvd ==> state in {SynRcvd, Closed}
      ensures (state != Closed ==> tx == old(tx)) && Quietly(old(tx), tx)
      ensures (&& state != Closed && old(state) !in {SynRcvd, SynAckSent}
               && p <= old(rcvPos) < p + |g.data| && old(rxShutdown || Fits(p + |g.data| - rcvPos))) ==>
                rcvPos >= p + |g.data|
      ensures g.fin && state !in {SynRcvd, SynAckSent, Closed} && rcvPos >= finAt ==> finReceived
      ensures old(state) in {SynRcvd, SynAckSent} && state != Closed ==>
                Shook(g, old(state), state, old(acks.out), acks.out, old(Control(iss, SynAck)))
      ensures old(state) != SynAckSent ==> o == old(Standing()) && k == old(acks.out)
      ensures Widened(old(Standing()), o) && old(acks.out) <= k
      ensures state !in {SynRcvd, SynAckSent, Closed} && (g.data != [] || g.fin) ==>
                Took(o, p, g.data, g.fin, Cached(rcvPos), accepted, rcvPos, k < acks.out)
    {
      hide WindowFor, Tallied, Valid, CacheFaithful, PeerReached, Arrives, Carries, Alike, Wrap, Sent, Add32, Took, Cached, Standing, Widened;
      WidenedNot();
      Numbered();
      o, k := Standing(), acks.out;
      if g.rst {
        FaithfulParts(stream);
        CloseFlow();
        ClosedFaithful(stream);
        ClosedReached(held);
        return;
      }
      var go := ShakeHands(g, held);
      o, k := Standing(), acks.out;
      if go && (g.data != [] || g.fin) {
        DataPart(g, p, stream, held);
      }
    }

    /** The states before the connection is established; `go` tells whether the segment is looked at further. */
    method ShakeHands(g: Arrival, ghost held: map<int, byte>) returns (go: bool)
      requires Valid() && PeerReached(held)
      modifies `counted, `acks, `queue, account, `state
      ensures Valid() && PeerReached(held) && Rank(old(state)) <= Rank(state)
      ensures account.used - Held() == old(account.used - Held()) && queue.bytes <= old(queue).bytes && old(acks).out <= acks.out
      ensures go <==> old(state) !in {Closed, SynRcvd, SynAckSent}
                      || (old(state) == SynAckSent && !(g.syn && g.sq == irs) && g.ackFlag && g.ack == Add32(iss, 1))
      ensures state == if go && old(state) == SynAckSent then Established else old(state)
      ensures old(state) != SynAckSent ==> acks == old(acks) && queue == old(queue) && account.used == old(account.used)
      ensures old(state) == SynAckSent && g.syn && g.sq == irs ==> acks.out == old(acks.out) + [old(Control(iss, SynAck))]
      ensures Widened(old(Standing()), Standing()) && (old(state) != SynAckSent ==> Standing() == old(Standing()))
    {
      hide WindowFor, Tallied, Valid, PeerReached, Sent, Add32;
      if state == Closed || state == SynRcvd {
        return false;
      }
      if state == SynAckSent {
        if g.syn && g.sq == irs {
          ResendSynAck();
          return false;
        }
        if !g.ackFlag || g.ack != Add32(iss, 1) {
          return false;
        }
        Establish(held);
      }
      return true;
    }

    lemma WidenedNot()
      ensures Widened(Standing(), Standing())
    {
      hide Standing;
    }

    lemma ClosedReached(held: map<int, byte>)
      requires state == Closed
      ensures PeerReached(held)
    {
    }

    // ---- the application closes ----

    /** Stop receiving: what is queued is dropped, and so is whatever still comes. */
    method ShutdownReceive(ghost stream: seq<byte>, ghost held: map<int, byte>)
      requires Valid() && PeerSound(stream, held)
      modifies `queue, `ooo, `oooBytes, `rxShutdown, account
      ensures Valid() && PeerSound(stream, held) && (state != Closed ==> rxShutdown && Held() == 0)
      ensures account.used - Held() == old(account.used - Held())
      ensures queue == old(queue).Clear()
    {
      hide WindowFor, Tallied, PosSound, Acks.Sound, CacheSound, QueueSound, Tx.Sound, Tx.Reached, LoopSound, FinFlags;
      if state == Closed {
        return;
      }
      ClearSound(queue, accepted, finReceived, rxShutdown, appClosed, cfg.maxRxQueue);
      EmptyCache(rcvPos, finAt);
      rxShutdown := true;
      Discard();
    }

    /** End sending after everything that was written. */
    method ShutdownSend(ghost stream: seq<byte>, ghost held: map<int, byte>)
      requires Valid() && PeerSound(stream, held)
      modifies `counted, `acks, `queue, `ooo, `oooBytes, `tx, `state, account
      ensures Valid() && PeerSound(stream, held) && Rank(old(state)) <= Rank(state)
      ensures account.used - Held() == old(account.used - Held())
      ensures old(state) == Closed || appClosed || old(tx).finSent ==> tx == old(tx) && state == old(state) && acks == old(acks)
      ensures old(state) != Closed && !appClosed && !old(tx).finSent ==>
                if !old(tx).Drained() then tx == old(tx).(finPending := true) && state == old(state) && acks == old(acks)
                else if old(state) in {Established, CloseWait} then
                  && state == (if old(state) == Established then FinWait1 else LastAck)
                  && acks == old(Sent(tx.nxt, FinAck)) && tx == old(tx).WithFin()
                else state == Closed && acks.out == old(acks.out) + [old(Control(tx.nxt, RstAck))]
      ensures old(state) in {Established, CloseWait} && !appClosed && !old(tx).finSent && old(tx).Drained() ==>
                acks.out == old(acks.out) + [old(Control(tx.nxt, FinAck))]
      ensures Quietly(old(tx), tx)
    {
      hide WindowFor, Tallied, Valid, Faithful, PeerReached, RxQueue.Queue.Clear, Sent;
      if state == Closed || appClosed {
        return;
      }
      FaithfulParts(stream);
      FinNotSent();
      SendFin(held);
      if state == Closed { ClosedFaithful(stream); }
    }

    /** Close: pending operations are cancelled, and unacknowledged data makes it a reset. */
    method Close(ghost stream: seq<byte>, ghost held: map<int, byte>)
      requires Valid() && PeerSound(stream, held)
      modifies `counted, `acks, `queue, `ooo, `oooBytes, `tx, `state, `appClosed, account
      ensures Valid() && PeerSound(stream, held) && Rank(old(state)) <= Rank(state)
      ensures account.used - Held() == old(account.used - Held())
      ensures old(state) != Closed && !old(appClosed) ==> Held() == 0 && tx.op.None? && queue.read.None?
      ensures old(state) != Closed && !old(appClosed) ==>
                (state == Closed <==> old(tx.una != tx.nxt) || old(state) in {SynRcvd, SynAckSent})
      ensures old(state) != Closed && !old(appClosed) && (state == Closed || !old(tx).finSent) ==>
                && old(acks).out < acks.out && |acks.out| == |old(acks).out| + 1
                && var p := acks.out[|acks.out| - 1];
                   p == Packet(old(tx.nxt), old(rcvNxt), if state == Closed then RstAck else FinAck, p.window, [])
      ensures old(state) != Closed && !old(appClosed) && state != Closed ==>
                state == if old(state) == Established then FinWait1 else if old(state) == CloseWait then LastAck else old(state)
      ensures old(state) == Closed ==> acks.out == old(acks).out
      ensures state == Closed || appClosed
      ensures Quietly(old(tx), tx)
    {
      hide WindowFor, Tallied, Valid, Faithful, PeerReached, Sent;
      if state == Closed || appClosed {
        return;
      }
      Relinquish(stream, held);
      Leave(stream, held);
      ClosedOp();
    }

    /** The end of a flow whose operations were cancelled: a reset while something is unacknowledged, else a FIN. */
    method Leave(ghost stream: seq<byte>, ghost held: map<int, byte>)
      requires Valid() && PeerSound(stream, held) && state != Closed && tx.op.None? && appClosed && Held() == 0 && queue.read.None?
      modifies `counted, `acks, `queue, `ooo, `oooBytes, `tx, `state, account
      ensures Valid() && PeerSound(stream, held) && Rank(old(state)) <= Rank(state)
      ensures account.used - Held() == old(account.used - Held()) && Held() == 0 && tx.op.None? && queue.read.None?
      ensures state == Closed <==> old(tx.una != tx.nxt) || old(state) in {SynRcvd, SynAckSent}
      ensures state == Closed ==> acks.out == old(acks.out) + [old(Control(tx.nxt, RstAck))]
      ensures state != Closed && !old(tx).finSent ==> acks.out == old(acks.out) + [old(Control(tx.nxt, FinAck))]
      ensures state != Closed ==>
                state == if old(state) == Established then FinWait1 else if old(state) == CloseWait then LastAck else old(state)
      ensures Quietly(old(tx), tx)
    {
      hide WindowFor, Tallied, Valid, Faithful, PeerReached, Sent, Tx.WithFin;
      FaithfulParts(stream);
      FinNotSent();
      if tx.una != tx.nxt {
        Abort();
        ClosedReached(held);
      } else {
        SendFin(held);
      }
      ClosedOp();
      if state == Closed { ClosedFaithful(stream); }
    }

    lemma BudgetValid()
      requires Valid()
      ensures account.Valid() && Held() <= account.used
    {
    }

    lemma ClosedHolds()
      requires Local()
      ensures state == Closed ==> Held() == 0
      ensures counted == if state in {SynRcvd, SynAckSent, Closed} then 0 else 1
    {
      hide PosSound, Acks.Sound, CacheSound, QueueSound, Told, Tx.Sound, LoopSound, FinFlags;
    }

    lemma ClosedOp()
      requires Valid()
      ensures state == Closed || appClosed ==> tx.op.None?
      ensures state == Closed ==> Gone()
    {
    }

    method Relinquish(ghost stream: seq<byte>, ghost held: map<int, byte>)
      requires Valid() && PeerSound(stream, held) && state != Closed && !appClosed
      modifies `queue, `ooo, `oooBytes, `tx, `appClosed, account
      ensures Valid() && PeerSound(stream, held) && appClosed && Held() == 0 && queue == old(queue).Clear()
      ensures account.used - Held() == old(account.used - Held()) && tx == old(tx).(op := None)
    {
      hide WindowFor, Tallied, Valid, PlaceSound, MemSound, AckSound, QueueSound, CacheSound, Tx.Sound, Tx.Reached, LoopSound, FinFlags;
      Parts();
      ClearSound(queue, accepted, finReceived, rxShutdown, appClosed, cfg.maxRxQueue);
      EmptyCache(rcvPos, finAt);
      appClosed := true;
      Discard();
      tx := tx.(op := None);
      Assemble();
    }

    // ---- the application writes ----

    /** Post a write; the sending coroutine takes it from there. */
    method StartWrite(buffers: seq<seq<byte>>, ghost held: map<int, byte>) returns (r: Answer)
      requires Valid() && PeerReached(held) && |Flat(buffers)| < MODULUS
      modifies `acks, `tx, `state, `phase
      ensures Valid() && PeerReached(held)
      ensures r == if old(state) == Closed || appClosed || old(tx).finSent then BadDescriptor
                   else if Flat(buffers) == [] then Empty else if old(tx).op.Some? then NoBufferSpace else Begun
      ensures state == if old(state) == SynRcvd && r != BadDescriptor then SynAckSent else old(state)
      ensures r == Begun ==>
                && phase == Spawned && tx.op.Some? && tx.op.value.implicitAccept == (old(state) == SynRcvd)
                && tx == (if old(state) == SynRcvd then old(tx).Accepted() else old(tx)).Queue(buffers, old(state) == SynRcvd)
      ensures r == Begun ==> tx.op.value.buffers == buffers && tx.op.value.total == |Flat(buffers)| && tx.op.value.offset == 0
      ensures r != Begun ==> tx.op == old(tx).op && phase == old(phase)
      ensures old(state) == Closed ==> acks.out == old(acks).out
      ensures tx.wire == old(tx).wire
    {
      hide WindowFor, Tallied, Valid, PeerReached, Sent, Flat;
      if state == Closed || appClosed || tx.finSent {
        return BadDescriptor;
      }
      var implicitAccept := state == SynRcvd;
      AcceptFlow(held);
      if |Flat(buffers)| == 0 {
        return Empty;
      }
      if tx.op.Some? {
        return NoBufferSpace;
      }
      PostWrite(buffers, implicitAccept, held);
      return Begun;
    }

    method PostWrite(buffers: seq<seq<byte>>, implicitAccept: bool, ghost held: map<int, byte>)
      requires Valid() && PeerReached(held) && Open(state) && !appClosed && !tx.finSent && tx.op.None?
      requires 0 < |Flat(buffers)| < MODULUS
      modifies `tx, `phase
      ensures Valid() && PeerReached(held) && tx == old(tx).Queue(buffers, implicitAccept) && phase == Spawned
    {
      hide WindowFor, Tallied, PosSound, Acks.Sound, CacheSound, QueueSound, Told, Tx.Sound, Tx.Reached, Flat;
      tx.QueueSound(iss + 1, buffers, implicitAccept, held);
      tx, phase := tx.Queue(buffers, implicitAccept), Spawned;
    }

    /** What every segment sent now carries. */
    function OutLine(): Line
      reads `rcvNxt, `rcvPos, `state, `queue, `oooBytes, account
    {
      Line(rcvNxt, CurrentWnd(), state == SynAckSent, rcvPos)
    }

    /** The running write succeeded. */
    method Succeed(ghost held: map<int, byte>)
      requires Valid() && PeerReached(held) && tx.op.Some? && tx.op.value.started && tx.Done() && Kept(writes, held)
      modifies `tx, `phase, `writes
      ensures Valid() && PeerReached(held) && Kept(writes, held)
      ensures tx == old(tx).(op := None) && phase == Idle && tx.op.None?
      ensures writes == old(writes) + [Written(old(tx).op.value.startPos, Flat(old(tx).op.value.buffers))]
      ensures Quietly(old(tx), tx)
    {
      hide WindowFor, Tallied, PosSound, Acks.Sound, CacheSound, QueueSound, Told, Tx.Sound, Tx.Reached, Flat, Holds, Kept, FinFlags;
      tx.DoneHeld(iss + 1, held);
      tx.FinishSound(iss + 1, held);
      var w := Written(tx.op.value.startPos, Flat(tx.op.value.buffers));
      KeptMore(writes, w, held);
      writes := writes + [w];
      tx, phase := tx.Finish(), Idle;
    }

    /** The device refused a segment: the write fails, and the bytes not sent yet are given up. */
    method Fail(ghost held: map<int, byte>)
      requires Valid() && PeerReached(held) && tx.op.Some? && phase == Device
      modifies `tx, `phase
      ensures Valid() && PeerReached(held) && phase == Idle && tx == old(tx).(op := None, plan := tx.plan)
      ensures tx.plan <= old(tx).plan && iss + 1 + |tx.plan| == old(tx).Edge()
    {
      hide WindowFor, Tallied, PosSound, Acks.Sound, CacheSound, QueueSound, Told, Tx.Sound, Tx.Reached, FinFlags;
      tx.DropSound(iss + 1, held);
      tx, phase := tx.Drop(iss + 1), Idle;
    }

    /** Put the sending state and its acknowledgements in place. */
    method Emit(t: Tx, k: Acks, next: Phase, ghost held: map<int, byte>)
      requires Valid() && tx.op.Some? && tx.op.value.started && Open(state)
      requires t.Sound(iss + 1) && (tx.Reached(iss + 1, held) ==> t.Reached(iss + 1, held))
      requires t.op.Some? && t.op.value.started && t.finSent == tx.finSent && tx.nxtPos <= t.nxtPos
      requires t.unaPos == tx.unaPos && (tx.finSent ==> t.nxtPos == tx.nxtPos)
      requires k.Sound(rcvPos, Open(state)) && k.shift == rcvWndScale && PeerReached(held)
      requires Tallied(k.out, t.wire)
      requires next != Idle && next != Spawned && (next == Device ==> !t.probed)
      modifies `tx, `acks, `phase
      ensures Valid() && PeerReached(held) && tx == t && acks == k && phase == next
    {
      hide WindowFor, Tallied, PosSound, Acks.Sound, CacheSound, QueueSound, Told, Tx.Sound, Tx.Reached, FinFlags;
      FinSentNow();
      tx, acks, phase := t, k, next;
    }

    lemma ActiveTx()
      requires Valid() && tx.op.Some?
      ensures tx.Sound(iss + 1) && Open(state) && !appClosed && phase != Idle && (phase == Spawned <==> !tx.op.value.started)
      ensures tx.Circle(iss + 1) && cfg.mss > 0 && rcvNxt == Wrap(rcvPos) && acks.Sound(rcvPos, Open(state))
      ensures acks.shift == rcvWndScale && Tallied(acks.out, tx.wire)
      ensures phase == Device ==> !tx.probed
    {
      hide PosSound, CacheSound, QueueSound, Told, FinFlags, Tx.Running, Tx.Wired, Acks.Sound;
    }

    method SendNext(ghost held: map<int, byte>)
      requires Valid() && PeerReached(held) && tx.op.Some? && tx.op.value.started && tx.Unsent() > 0
      requires Sub32(tx.nxt, tx.una) < tx.peerWnd
      modifies `tx, `acks, `phase
      ensures Valid() && PeerReached(held) && phase == Device && tx.op.Some? && tx.op.value.started
      ensures tx.nxtPos - tx.unaPos <= tx.peerWnd == old(tx).peerWnd && tx.unaPos == old(tx).unaPos
      ensures NextSent(old(tx), tx, iss + 1) && Filled(old(tx), tx, cfg.mss)
      ensures acks.pending == old(acks).pending && acks.timer == old(acks).timer
      ensures old(tx).wire <= tx.wire && acks.out == old(acks).out + Rendered(tx.wire[|old(tx).wire|..], AckPsh)
    {
      hide WindowFor, Tallied, Valid, Acks.Sound, Tx.Sound, Tx.Circle, Tx.Reached, Tx.Unsent, Sub32, Wrap, Filled;
      ActiveTx();
      NotFin(tx, iss + 1);
      var ok, t, k := BuildNext(tx, acks, OutLine(), cfg.mss, iss + 1, Open(state));
      if tx.Reached(iss + 1, held) { tx.MoreReached(t, iss + 1, held); }
      SentOnPlan(t, iss + 1);
      assert k.out[|acks.out|..] == [k.out[|acks.out|]] && t.wire[|tx.wire|..] == [t.wire[|tx.wire|]];
      assert Rendered(t.wire[|tx.wire|..], AckPsh) == [k.out[|acks.out|]];
      Emit(t, k, Device, held);
    }

    method SendProbe(ghost held: map<int, byte>)
      requires Valid() && PeerReached(held) && tx.op.Some? && tx.op.value.started
      modifies `tx, `acks, `phase
      ensures Valid() && PeerReached(held) && tx.op.Some? && tx.op.value.started && phase == Window
      ensures old(tx).Unsent() > 0 ==> ProbeSent(old(tx), tx, iss + 1)
      ensures tx.op.value.implicitAccept == old(tx).op.value.implicitAccept
      ensures old(tx).wire <= tx.wire && acks.out == old(acks).out + Rendered(tx.wire[|old(tx).wire|..], Ack)
    {
      hide WindowFor, Tallied, Valid, Acks.Sound, Tx.Sound, Tx.Circle, Tx.Reached, Tx.Unsent, Sub32, Wrap, Rendered, Acks.Send,
           WindowField, Flat;
      ActiveTx();
      if tx.Unsent() > 0 { NotFin(tx, iss + 1); }
      NoneLeft();
      var t, k := Probe(tx, acks, OutLine(), iss + 1, Open(state));
      if tx.Reached(iss + 1, held) { tx.MoreReached(t, iss + 1, held); }
      ProbeShown(tx.wire, t.wire, acks.out, k.out);
      Emit(t, k, Window, held);
    }

    lemma NoneLeft()
      requires Valid() && tx.op.Some?
      ensures tx.Unsent() >= 0
    {
      ActiveTx();
    }

    lemma ProbeShown(wire0: seq<Piece>, wire: seq<Piece>, out0: seq<Packet>, out: seq<Packet>)
      requires (wire == wire0 && out == out0)
            || (|wire| == |wire0| + 1 && wire0 <= wire
                && out == out0 + [Outgoing(Wrap(wire[|wire0|].pos), Ack, wire[|wire0|].data)])
      ensures wire0 <= wire && out == out0 + Rendered(wire[|wire0|..], Ack)
    {
      hide WindowFor, WindowField, Wrap;
      if wire != wire0 { assert Rendered(wire[|wire0|..], Ack) == [Outgoing(Wrap(wire[|wire0|].pos), Ack, wire[|wire0|].data)]; }
    }

    method SendAgain(maxBytes: nat, ghost held: map<int, byte>) returns (ghost stop: int)
      requires Valid() && PeerReached(held) && tx.op.Some? && tx.op.value.started
      modifies `tx, `acks, `phase
      ensures Valid() && PeerReached(held) && tx == old(tx).(wire := tx.wire) && phase == Progress
      ensures RoundSent(old(tx), tx, maxBytes, stop, cfg.mss)
      ensures Repeated(old(tx), tx, old(acks), acks, old(OutLine()), old(tx).unaPos, stop, cfg.mss)
      ensures old(tx).wire <= tx.wire && acks.out == old(acks).out + Rendered(tx.wire[|old(tx).wire|..], AckPsh)
    {
      hide WindowFor, Tallied, Valid, Acks.Sound, Tx.Sound, Tx.Circle, Tx.Reached, Tx.Unsent, Sub32, Wrap, Resent, Row, Carried;
      ActiveTx();
      var t, k;
      t, k, stop := Retransmit(tx, acks, OutLine(), maxBytes, cfg.mss, iss + 1, Open(state));
      CarriedIs(k.out[|acks.out|..], t.wire[|tx.wire|..]);
      assert k.out == acks.out + k.out[|acks.out|..];
      if tx.Reached(iss + 1, held) { tx.MoreReached(t, iss + 1, held); }
      Emit(t, k, Progress, held);
    }

    lemma CarriedIs(out: seq<Packet>, ps: seq<Piece>)
      requires Carried(out, ps, OutLine(), if state == SynAckSent then 0 else rcvWndScale)
      ensures out == Rendered(ps, AckPsh)
    {
      hide WindowFor, WindowField, Wrap;
    }

    /** The delayed acknowledgement is sent. */
    method AckTimeout()
      requires Valid() && acks.timer
      modifies `acks
      ensures Valid() && !acks.timer && (state == Closed ==> acks.out == old(acks).out)
      ensures Open(state) ==> acks.log != [] && acks.log[|acks.log| - 1] == rcvPos
    {
      hide WindowFor, Tallied, PosSound, CacheSound, QueueSound, Told, Tx.Sound, LoopSound, FinFlags, Acks.Traced;
      AckTimerFires();
    }

    // ---- the sending coroutine ----

    /** Suspend until `next`. */
    method Park(next: Phase, ghost held: map<int, byte>)
      requires Valid() && PeerReached(held) && tx.op.Some? && tx.op.value.started && next in {Handshake, Window, Progress}
      modifies `phase
      ensures Valid() && PeerReached(held) && phase == next
    {
      hide WindowFor, Tallied, PosSound, Acks.Sound, CacheSound, QueueSound, Told, Tx.Sound, Tx.Reached, FinFlags;
      phase := next;
    }

    /** The pieces that went on the wire since `t0` left in packets behind `out0`, as packets leave now. */
    ghost predicate Shown(t0: Tx, out0: seq<Packet>, t: Tx, out: seq<Packet>, flags: Flags)
      reads `rcvNxt, `state, `queue, `oooBytes, account
    {
      t0.wire <= t.wire && out == out0 + Rendered(t.wire[|t0.wire|..], flags)
    }

    /** What a turn of the loop makes of `t0`, `k0` and the completed writes `w0`. */
    ghost predicate Turned(t0: Tx, k0: Acks, w0: seq<Written>)
      requires t0.op.Some?
      reads `tx, `acks, `phase, `lastUna, `writes, `rcvNxt, `state, `queue, `oooBytes, account
    {
      if t0.Done() then
        && writes == w0 + [Written(t0.op.value.startPos, Flat(t0.op.value.buffers))]
        && tx == t0.(op := None) && acks == k0 && phase == Idle
      else
        && writes == w0
        && if (state == Established || t0.op.value.implicitAccept) && t0.peerWnd > 0
              && t0.Unsent() > 0 && t0.nxtPos - t0.unaPos < t0.peerWnd then
             && phase == Device && NextSent(t0, tx, iss + 1) && Filled(t0, tx, cfg.mss) && Shown(t0, k0.out, tx, acks.out, AckPsh)
             && acks.pending == k0.pending && acks.timer == k0.timer && tx.nxtPos - tx.unaPos <= tx.peerWnd
           else
             && tx == t0 && acks == k0
             && phase == (if state != Established && !t0.op.value.implicitAccept then Handshake
                          else if t0.peerWnd == 0 then Window else Progress)
             && (phase == Progress ==> lastUna == tx.una)
    }

    /**
     From the head of the loop to its next suspension.  A write that is not the one that accepted the connection is
     sent in the established state only.
     */
    method Turn(ghost held: map<int, byte>)
      requires Valid() && PeerReached(held) && tx.op.Some? && tx.op.value.started && Kept(writes, held)
      modifies `tx, `acks, `phase, `lastUna, `writes
      ensures Valid() && PeerReached(held) && Kept(writes, held) && Turned(old(tx), old(acks), old(writes))
      ensures old(tx).Done() ==> tx == old(tx).(op := None) && acks == old(acks) && phase == Idle
      ensures !old(tx).Done() ==> writes == old(writes) && tx.op.Some? && tx.op.value.started
      ensures !old(tx).Done() && state != Established && !old(tx).op.value.implicitAccept ==>
                tx == old(tx) && acks == old(acks) && phase == Handshake
      ensures !old(tx).Done() && (state == Established || old(tx).op.value.implicitAccept) && old(tx).peerWnd == 0 ==> phase == Window
    {
      hide WindowFor, Tallied, Valid, PeerReached, Kept, Tx.Done, Tx.Unsent, Sub32, Flat, NextSent, Filled;
      Flying();
      var w := tx.op.value;
      if tx.Done() {
        Succeed(held);
      } else if state != Established && !w.implicitAccept {
        Park(Handshake, held);
      } else if tx.peerWnd == 0 {
        Park(Window, held);
      } else if tx.Unsent() > 0 && Sub32(tx.nxt, tx.una) < tx.peerWnd {
        SendNext(held);
      } else {
        lastUna := tx.una;
        Park(Progress, held);
      }
    }

    lemma Flying()
      requires Valid() && tx.op.Some?
      ensures Sub32(tx.nxt, tx.una) == tx.nxtPos - tx.unaPos
    {
      hide WindowFor, Tallied, Valid, Tx.Sound, Acks.Sound, Sub32;
      ActiveTx();
      tx.InFlight(iss + 1);
    }

    lemma NotDone()
      requires Valid() && phase == Spawned && tx.op.Some?
      ensures !tx.Begin().Done()
    {
      hide WindowFor, Tallied, PosSound, Acks.Sound, CacheSound, QueueSound, Told, Tx.Wired, FinFlags, Flat, At;
    }

    /** The coroutine starts. */
    method Begin(ghost held: map<int, byte>)
      requires Valid() && PeerReached(held) && phase == Spawned && Kept(writes, held)
      modifies `tx, `acks, `phase, `lastUna, `probes, `retransmits, `writes
      ensures Valid() && PeerReached(held) && Kept(writes, held) && phase != Spawned
      ensures old(state) == Closed ==> acks.out == old(acks).out
      ensures old(tx).op.Some? && !old(tx).op.value.implicitAccept && old(state) != Established ==>
                acks == old(acks) && Quietly(old(tx), tx) && phase in {Idle, Handshake} && (tx.op.Some? ==> phase == Handshake)
      ensures if old(tx).op.None? then tx == old(tx) else tx.op.Some?
      ensures old(tx).op.Some? && (old(state) == Established || old(tx).op.value.implicitAccept) && old(tx).peerWnd == 0 ==>
                phase == Window && tx.op.Some? && probes == 0
      ensures writes == old(writes)
      ensures old(tx).op.Some? ==> Turned(old(tx).Begin(), old(acks), old(writes)) && probes == retransmits == 0
    {
      hide WindowFor, Tallied, Valid, PeerReached, Kept, Tx.Done, Tx.Unsent, Sub32, Flat;
      ClosedOp();
      if tx.op.None? {
        Vanish(held);
        return;
      }
      lastUna, probes, retransmits := tx.una, 0, 0;
      NotDone();
      Assign(held);
      Turn(held);
    }

    /** The write was taken away while the coroutine slept: it ends. */
    method Vanish(ghost held: map<int, byte>)
      requires Valid() && PeerReached(held) && tx.op.None?
      modifies `phase
      ensures Valid() && PeerReached(held) && phase == Idle
    {
      hide WindowFor, Tallied, PosSound, Acks.Sound, CacheSound, QueueSound, Told, Tx.Sound, Tx.Reached, FinFlags;
      phase := Idle;
    }

    method Assign(ghost held: map<int, byte>)
      requires Valid() && PeerReached(held) && phase == Spawned && tx.op.Some?
      modifies `tx, `phase
      ensures Valid() && PeerReached(held) && tx == old(tx).Begin() && phase == Handshake
      ensures Quietly(old(tx), tx)
    {
      hide WindowFor, Tallied, PosSound, Acks.Sound, CacheSound, QueueSound, Told, Tx.Sound, Tx.Reached, FinFlags;
      tx.BeginSound(iss + 1, held);
      tx, phase := tx.Begin(), Handshake;
    }

    /** The zero-window timer: probe with the next byte, or repeat the first unacknowledged segment. */
    method PersistTimeout(ghost held: map<int, byte>) returns (ghost stop: int)
      requires Valid() && PeerReached(held) && phase == Window && tx.op.Some?
      modifies `counted, `tx, `acks, `phase, `probes, `queue, `ooo, `oooBytes, `state, account
      ensures Valid() && PeerReached(held)
      ensures probes == old(probes) + 1 && account.used - Held() == old(account.used - Held())
      ensures if probes > cfg.persistMaxProbes then state == Closed else state == old(state) && queue == old(queue) && ooo == old(ooo)
      ensures state != Closed ==> tx.op.Some? && tx.op.value.started
      ensures state != Closed ==>
                if old(tx).Unsent() > 0 then ProbeSent(old(tx), tx, iss + 1)
                else if !old(tx).Done() then RoundSent(old(tx), tx, cfg.mss, stop, cfg.mss) else tx == old(tx)
      ensures state != Closed ==>
                && old(tx).wire <= tx.wire
                && acks.out == old(acks).out + Rendered(tx.wire[|old(tx).wire|..], if old(tx).Unsent() > 0 then Ack else AckPsh)
      ensures state != Closed ==> tx.op.value.implicitAccept == old(tx).op.value.implicitAccept
    {
      hide WindowFor, Tallied, Valid, PeerReached, Tx.Sound, Tx.Circle, Acks.Sound, Wrap, Add32, RoundSent, Sent, ProbeSent;
      hide RoundPacked, Resent, Row, Carried;
      ActiveTx();
      WithinTotal(tx, iss + 1);
      stop := 0;
      probes := probes + 1;
      if probes > cfg.persistMaxProbes {
        Abort();
        ClosedReached(held);
        return;
      }
      var w := tx.op.value;
      if w.offset < w.total {
        SendProbe(held);
      } else if tx.una != Add32(w.startSeq, w.total) {
        stop := SendAgain(cfg.mss, held);
      }
    }

    /** The retransmission timer. */
    method RtoTimeout(ghost held: map<int, byte>) returns (ghost stop: int)
      requires Valid() && PeerReached(held) && phase == Progress && tx.op.Some?
      modifies `counted, `tx, `acks, `phase, `lastUna, `retransmits, `queue, `ooo, `oooBytes, `state, account
      ensures Valid() && PeerReached(held)
      ensures account.used - Held() == old(account.used - Held())
      ensures retransmits == if old(tx.una) == old(lastUna) then old(retransmits) + 1 else 0
      ensures if retransmits > cfg.rtoMaxRetransmits then state == Closed else state == old(state) && queue == old(queue) && ooo == old(ooo)
      ensures state != Closed ==> tx.op.Some? && tx.op.value.started && lastUna == tx.una
      ensures state != Closed ==>
                if old(tx.una) == old(lastUna) && old(tx.una != Add32(tx.op.value.startSeq, tx.op.value.total))
                then RoundSent(old(tx), tx, old(tx).peerWnd, stop, cfg.mss) else tx == old(tx)
      ensures state != Closed ==>
                old(tx).wire <= tx.wire && acks.out == old(acks).out + Rendered(tx.wire[|old(tx).wire|..], AckPsh)
      ensures state != Closed ==> tx.op.value.implicitAccept == old(tx).op.value.implicitAccept
    {
      hide WindowFor, Tallied, Valid, PeerReached, Tx.Unsent, Tx.Sound, Tx.Circle, Acks.Sound, Wrap, Add32, Resent, Row, Carried, Sent;
      hide RoundPacked;
      ActiveTx();
      stop := 0;
      if tx.una == lastUna {
        retransmits := retransmits + 1;
        if retransmits > cfg.rtoMaxRetransmits {
          Abort();
          ClosedReached(held);
          return;
        }
        var w := tx.op.value;
        if tx.una != Add32(w.startSeq, w.total) {
          stop := SendAgain(tx.peerWnd, held);
        }
      } else {
        retransmits := 0;
      }
      lastUna := tx.una;
    }

    /** Nothing was acknowledged since the retransmission timer was set. */
    predicate Stuck()
      reads `tx, `lastUna
    {
      tx.una == lastUna
    }

    /** A timer has fired once more than it may. */
    predicate Exhausted(wake: Wake)
      reads `phase, `probes, `retransmits, `tx, `lastUna
    {
      wake == Timer
      && ((phase == Window && probes >= cfg.persistMaxProbes)
          || (phase == Progress && tx.una == lastUna && retransmits >= cfg.rtoMaxRetransmits))
    }

    /** How often the zero-window timer has fired without an answer, after this wake-up. */
    function ProbesAfter(wake: Wake): nat
      reads `phase, `probes
    {
      if phase != Window then probes else if wake == Timer then probes + 1 else 0
    }

    /** How often the retransmission timer has fired without progress, after this wake-up. */
    function RetransmitsAfter(wake: Wake): nat
      reads `phase, `retransmits, `tx, `lastUna
    {
      if phase != Progress then retransmits
      else if tx.una != lastUna then 0
      else if wake == Timer then retransmits + 1 else retransmits
    }

    /** The zero-window timer fires for a write that is gone. */
    predicate Dangles(wake: Wake)
      reads `phase, `probes, `tx
    {
      phase == Window && wake == Timer && tx.op.None? && probes < cfg.persistMaxProbes
    }

    /**
     The coroutine wakes up.  If the write was taken away while it slept, it ends; but a timer that fired at the same time
     is still served, and the zero-window timer looks at the write without asking whether it is there.
     */
    method Resume(wake: Wake, ghost stream: seq<byte>, ghost held: map<int, byte>)
      returns (ghost mid: Tx, ghost k: Acks, ghost stop: int)
      requires Valid() && PeerSound(stream, held) && Kept(writes, held) && phase != Idle && phase != Spawned
      modifies `counted, `tx, `acks, `phase, `lastUna, `probes, `retransmits, `writes, `queue, `ooo, `oooBytes, `state
      modifies `fault, account
      ensures Valid() && PeerSound(stream, held) && Kept(writes, held) && Rank(old(state)) <= Rank(state)
      ensures account.used - Held() == old(account.used - Held())
      ensures fault <==> old(fault) || old(Dangles(wake))
      ensures old(state) == Closed ==> acks.out == old(acks).out
      ensures old(phase) == Handshake && old(tx).op.Some? && !old(tx).op.value.implicitAccept && old(state) != Established ==>
                && acks == old(acks) && state == old(state)
                && if old(tx).Done() then tx == old(tx).(op := None) else tx == old(tx) && phase == Handshake
      ensures old(tx).op.None? ==> Quietly(old(tx), tx) && phase == Idle
      ensures state == if old(Exhausted(wake)) then Closed else old(state)
      ensures old(tx).op.Some? && old(phase) == Device && wake == DeviceDone(false) ==> tx.op.None? && phase == Idle
      ensures old(tx).op.Some? && !(old(phase) == Device && wake == DeviceDone(false)) ==>
                && Went(wake, old(tx), old(acks), old(writes), old(phase), old(Stuck()), mid, k, stop)
                && probes == old(ProbesAfter(wake)) && retransmits == old(RetransmitsAfter(wake))
      ensures old(tx).op.Some? && !old(tx).op.value.implicitAccept && old(state) !in {SynRcvd, SynAckSent, Established} ==> Muted()
    {
      hide WindowFor, Tallied, Valid, PeerReached, Faithful, Kept, Tx.Sound, Tx.Circle, Acks.Sound, Wrap, Tx.Done, Flat, Served, Turned;
      mid, k, stop := tx, acks, 0;
      ClosedOp();
      if tx.op.None? {
        Orphan(wake, stream, held);
        return;
      }
      if phase == Device && wake == DeviceDone(false) {
        Fail(held);
        return;
      }
      FaithfulParts(stream);
      mid, k, stop := GoOn(wake, held);
      if state == Closed { ClosedFaithful(stream); }
    }

    /** The write is gone: what its timers still do, and the end of the coroutine. */
    method Orphan(wake: Wake, ghost stream: seq<byte>, ghost held: map<int, byte>)
      requires Valid() && PeerSound(stream, held) && tx.op.None?
      modifies `counted, `tx, `acks, `phase, `probes, `retransmits, `queue, `ooo, `oooBytes, `state, `fault, account
      ensures Valid() && PeerSound(stream, held) && Rank(old(state)) <= Rank(state) && phase == Idle && Quietly(old(tx), tx)
      ensures account.used - Held() == old(account.used - Held())
      ensures fault <==> old(fault) || old(Dangles(wake))
      ensures state == if old(Exhausted(wake)) then Closed else old(state)
      ensures old(state) == Closed ==> acks.out == old(acks).out
    {
      hide WindowFor, Tallied, Valid, PeerReached, Faithful, Sent, Tx.Sound, RxQueue.Queue.Clear;
      FaithfulParts(stream);
      var end := false;
      if phase == Window && wake == Timer {
        probes := probes + 1;
        end := probes > cfg.persistMaxProbes;
        fault := fault || !end;
      } else if phase == Progress && wake == Timer && tx.una == lastUna {
        retransmits := retransmits + 1;
        end := retransmits > cfg.rtoMaxRetransmits;
      }
      if end {
        Abort();
        ClosedReached(held);
        ClosedFaithful(stream);
      }
      Vanish(held);
    }

    /** A timer that fired was served, in the packets that it takes, and nothing else happened. */
    ghost predicate Woken(wake: Wake, t0: Tx, k0: Acks, phase0: Phase, stuck: bool, mid: Tx, k: Acks, stop: int)
      requires t0.op.Some?
      reads `rcvNxt, `state, `queue, `oooBytes, account
    {
      if wake == Timer then
        && Served(t0, mid, phase0, stuck, iss + 1, cfg.mss, stop)
        && Shown(t0, k0.out, mid, k.out, if phase0 == Window && t0.Unsent() > 0 then Ack else AckPsh)
      else mid == t0 && k == k0
    }

    /**
     The coroutine woke up with a write: a timer was served, which made `mid` and `k`, and the loop turned once from there.
     If the timer fired once too often the flow is closed instead.
     */
    ghost predicate Went(wake: Wake, t0: Tx, k0: Acks, w0: seq<Written>, phase0: Phase, stuck: bool, mid: Tx, k: Acks, stop: int)
      requires t0.op.Some?
      reads `tx, `acks, `phase, `lastUna, `writes, `rcvNxt, `state, `queue, `oooBytes, account
    {
      state != Closed ==>
        mid.op.Some? && Woken(wake, t0, k0, phase0, stuck, mid, k, stop) && Turned(mid, k, w0)
    }

    /** Serve the timer that fired, and turn the loop once. */
    method GoOn(wake: Wake, ghost held: map<int, byte>)
      returns (ghost mid: Tx, ghost k: Acks, ghost stop: int)
      requires Valid() && PeerReached(held) && Kept(writes, held) && tx.op.Some? && phase != Spawned
      modifies `counted, `tx, `acks, `phase, `lastUna, `probes, `retransmits, `writes, `queue, `ooo, `oooBytes, `state, account
      ensures Valid() && PeerReached(held) && Kept(writes, held) && Rank(old(state)) <= Rank(state)
      ensures state != Closed ==> ooo == old(ooo)
      ensures account.used - Held() == old(account.used - Held())
      ensures old(phase) == Handshake && !old(tx).op.value.implicitAccept && old(state) != Established ==>
                && acks == old(acks) && state == old(state)
                && if old(tx).Done() then tx == old(tx).(op := None) else tx == old(tx) && phase == Handshake
      ensures !old(tx).op.value.implicitAccept && old(state) !in {SynRcvd, SynAckSent, Established} ==> Muted()
      ensures Went(wake, old(tx), old(acks), old(writes), old(phase), old(Stuck()), mid, k, stop)
      ensures state == if old(Exhausted(wake)) then Closed else old(state)
      ensures probes == old(ProbesAfter(wake)) && retransmits == old(RetransmitsAfter(wake))
    {
      hide WindowFor, Tallied, Valid, PeerReached, Kept, NextSent, Quietly, Tx.Begin, Tx.Sound, Tx.Circle, Acks.Sound, Wrap;
      hide Tx.Done, Tx.Unsent, Sub32, Flat, Woken, Turned, Went, Exhausted, ProbesAfter, RetransmitsAfter;
      stop := OnWake(wake, held);
      mid, k := tx, acks;
      if state == Closed {
        ClosedOp();
      } else {
        Turn(held);
      }
      WentNow(wake, old(tx), old(acks), old(writes), old(phase), old(Stuck()), mid, k, stop);
    }

    lemma WentNow(wake: Wake, t0: Tx, k0: Acks, w0: seq<Written>, phase0: Phase, stuck: bool, mid: Tx, k: Acks, stop: int)
      requires t0.op.Some?
      requires state != Closed ==> mid.op.Some? && Woken(wake, t0, k0, phase0, stuck, mid, k, stop) && Turned(mid, k, w0)
      ensures Went(wake, t0, k0, w0, phase0, stuck, mid, k, stop)
    {
      hide Woken, Turned;
    }

    /** Between waking up and the head of the loop: the timers' work, and the counters. */
    method OnWake(wake: Wake, ghost held: map<int, byte>) returns (ghost stop: int)
      requires Valid() && PeerReached(held) && tx.op.Some? && phase != Spawned
      modifies `counted, `tx, `acks, `phase, `lastUna, `probes, `retransmits, `queue, `ooo, `oooBytes, `state, account
      ensures Valid() && PeerReached(held) && Rank(old(state)) <= Rank(state)
      ensures account.used - Held() == old(account.used - Held())
      ensures state != Closed ==> tx.op.Some? && tx.op.value.started && ooo == old(ooo)
      ensures old(phase) == Handshake ==> tx == old(tx) && acks == old(acks) && phase == old(phase) && state == old(state)
      ensures state != Closed ==> tx.op.value.implicitAccept == old(tx).op.value.implicitAccept
      ensures state == if old(Exhausted(wake)) then Closed else old(state)
      ensures state != Closed ==>
                Woken(wake, old(tx), old(acks), old(phase), old(Stuck()), tx, acks, stop)
      ensures probes == old(ProbesAfter(wake)) && retransmits == old(RetransmitsAfter(wake))
    {
      hide WindowFor, Tallied, Valid, PeerReached, Tx.Sound, Tx.Circle, Acks.Sound, Wrap, RoundSent, ProbeSent, Add32;
      hide Tx.Unsent, Tx.Done;
      ActiveTx();
      stop := 0;
      if phase == Window {
        if wake == Timer {
          stop := PersistTimeout(held);
        } else {
          probes := 0;
        }
      } else if phase == Progress {
        if wake == Timer {
          stop := RtoTimeout(held);
        } else {
          if tx.una != lastUna {
            retransmits := 0;
          }
          lastUna := tx.una;
        }
      }
    }
  }

  /** The fields of an incoming segment that the engine looks at. */
  datatype Arrival = Arrival(sq: u32, ack: u32, syn: bool, ackFlag: bool, rst: bool, fin: bool, wnd: nat, data: seq<byte>)

  /** How an attempt to read or write was answered at once. */
  datatype Answer = Begun | BadDescriptor | Empty | NoBufferSpace
}
