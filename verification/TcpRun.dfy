/**
 Whole runs of a flow.  The peer sends one stream, cut into segments in any way; the network loses, duplicates and
 reorders in both directions; the application reads, writes and closes; timers fire whenever they are armed.
 */
module TcpRun {
  import opened Bytes
  import opened SeqNum
  import opened OooCache
  import opened Accountant
  import opened DelayedAck
  import opened RecvFacts
  import opened TcpSend
  import opened TcpFlow
  import RxQueue
  import SynOptions

  /**
   What may happen next.  An event that cannot happen in the present state is skipped.  In `Deliver`, the peer's segment
   covers positions [p, p + len) and acknowledges everything below `a`; in `SynAgain`, the SYN comes once more with the
   first `early` bytes of the stream, unless they would do harm; in `Reach`, the payload
   of the packet that was sent as the `i`-th one with data reaches the peer, unless it is too old to be told from a newer one.
   */
  datatype Event =
    | Deliver(p: int, len: nat, fin: bool, a: int, wnd: nat)
    | SynAgain(early: nat)
    | PeerReset
    | Reach(i: nat)
    | Accept
    | Read(n: nat)
    | Write(buffers: seq<seq<byte>>)
    | Spawn
    | Awake(wake: Wake)
    | AckTimer
    | StopReceiving
    | StopSending
    | CloseSocket
    | ResetSocket

  /** What happens to a flow whether or not the application was given it. */
  predicate FromNetwork(e: Event) {
    e.Deliver? || e.SynAgain? || e.PeerReset? || e.Reach? || e.AckTimer?
  }

  /** The peer takes the bytes it does not hold yet. */
  function Take(held: map<int, byte>, s: Piece): map<int, byte> {
    Placed(s.pos, s.data) + held
  }

  lemma TakeReached(tx: Tx, base: int, held: map<int, byte>, i: nat)
    requires tx.Sound(base) && tx.Reached(base, held) && i < |tx.wire|
    ensures tx.Reached(base, Take(held, tx.wire[i]))
  {
    assert tx.OnPlan(base, tx.wire[i]);
    hide Tx.Planned, Tx.Wired, Tx.Circle, Tx.Front, Tx.Edge;
  }

  lemma TakeKept(writes: seq<Written>, held: map<int, byte>, s: Piece)
    requires Kept(writes, held)
    ensures Kept(writes, Take(held, s))
  {
    forall i | 0 <= i < |writes|
      ensures Holds(Take(held, s), writes[i].pos, writes[i].data)
    {
      TakeHolds(held, s, writes[i].pos, writes[i].data);
    }
  }

  lemma TakeHolds(held: map<int, byte>, s: Piece, pos: int, data: seq<byte>)
    requires Holds(held, pos, data)
    ensures Holds(Take(held, s), pos, data)
  {
    forall i | 0 <= i < |data|
      ensures HoldsAt(Take(held, s), pos, data, i)
    {
      assert HoldsAt(held, pos, data, i);
    }
  }

  /** Both directions are as they should be. */
  ghost predicate Good(f: Flow, stream: seq<byte>, held: map<int, byte>)
    reads f, f.account
  {
    f.Valid() && f.PeerSound(stream, held) && Kept(f.writes, held)
  }

  /** The peer may send this segment, and it is near enough to be told from an older one. */
  ghost predicate Timely(f: Flow, stream: seq<byte>, held: map<int, byte>, e: Event)
    requires e.Deliver?
    reads f
  {
    && f.state != Closed && e.wnd <= 65535
    && f.irs + 1 <= e.p && e.p + e.len <= f.irs + 1 + |stream| && (e.fin ==> e.p + e.len == f.irs + 1 + |stream|)
    && f.rcvPos - HALF < e.p && e.p + e.len < f.rcvPos + HALF - 1
    && (f.appClosed || f.tx.Truthful(f.iss + 1, held, e.a))
  }

  /** What a timely segment does to a flow that stays open: see `Flow.HandleSegment`. */
  twostate predicate Arrived(f: Flow, stream: seq<byte>, e: Event)
    requires e.Deliver? && f.irs + 1 <= e.p && e.p + e.len <= f.irs + 1 + |stream|
    reads f, f.account
  {
    var base := f.irs + 1;
    var t0 := old(f.tx);
    && f.tx.peerWnd == ShiftLeft(e.wnd, f.sndWndScale)
    && (!t0.Frees(Wrap(e.a)) ==> f.tx == t0.OnAck(Wrap(e.a)).(peerWnd := f.tx.peerWnd))
    && (old(f.state) == SynAckSent ==> (f.state != SynAckSent <==> Wrap(e.a) == Add32(f.iss, 1)))
    && (!t0.Frees(Wrap(e.a)) && old(f.state) !in {SynRcvd, SynAckSent} && (e.len > 0 || e.fin) ==>
          Took(old(f.Standing()), e.p, stream[e.p - base..e.p - base + e.len], e.fin, f.Cached(f.rcvPos), f.accepted, f.rcvPos,
               old(f.acks.out) < f.acks.out))
  }

  /** What an event is for, when it can happen at all. */
  twostate predicate Happened(f: Flow, stream: seq<byte>, held: map<int, byte>, held': map<int, byte>, e: Event)
    reads f, f.account
  {
    match e
    case Deliver(_, _, _, _, _) => old(Timely(f, stream, held, e)) && f.state != Closed ==> Arrived(f, stream, e)
    case SynAgain(_) => true
    case PeerReset => Settled(f, e)
    case Reach(i) =>
      i < |old(f.tx.wire)| && -HALF <= old(f.tx.wire[i]).pos - old(f.tx.unaPos) < HALF ==> held' == Take(held, old(f.tx.wire[i]))
    case Accept => Settled(f, e)
    case Read(n) =>
      old(Usable(f)) && !old(f.rxShutdown) && n > 0 && old(f.queue.read.None?) ==>
        && old(f.queue.head + f.queue.bytes == |f.queue.data|) && f.queue.head <= |f.queue.data|
        && ReadsFlushed(old(f.queue).(read := Some(n)), f.queue, f.finReceived)
    case Write(buffers) =>
      old(Usable(f)) && 0 < |Flat(buffers)| < MODULUS && !old(f.tx).finSent && old(f.tx).op.None? ==>
        f.phase == Spawned && f.tx.op.Some? && f.tx.op.value.buffers == buffers
    case Spawn =>
      Settled(f, e) && (old(f.phase) == Spawned && old(f.tx).op.Some? ==> f.Turned(old(f.tx).Begin(), old(f.acks), old(f.writes)))
    case Awake(wake) =>
      old(f.phase) !in {Idle, Spawned} ==>
        && f.state == (if old(f.Exhausted(wake)) then Closed else old(f.state))
        && (old(f.tx).op.Some? && !(old(f.phase) == Device && wake == DeviceDone(false)) ==>
              exists mid, k, stop ::
                f.Went(wake, old(f.tx), old(f.acks), old(f.writes), old(f.phase), old(f.Stuck()), mid, k, stop))
    case AckTimer => Settled(f, e)
    case StopReceiving => Settled(f, e)
    case StopSending => Settled(f, e)
    case CloseSocket => Settled(f, e)
    case ResetSocket => Settled(f, e) && (old(Usable(f)) ==> f.state == Closed)
  }

  /** What the state shows afterwards. */
  predicate Settled(f: Flow, e: Event)
    reads f
  {
    match e
    case PeerReset => f.state == Closed
    case Accept => f.state != SynRcvd
    case Spawn => f.phase != Spawned
    case AckTimer => !f.acks.timer
    case StopReceiving => f.state == Closed || f.rxShutdown
    case StopSending => f.state == Closed || f.appClosed || f.tx.finSent || f.tx.finPending
    case CloseSocket => f.state == Closed || f.appClosed
    case ResetSocket => f.state == Closed || f.appClosed
    case _ => true
  }

  predicate Usable(f: Flow)
    reads f
  {
    f.state != Closed && !f.appClosed
  }

  /** A segment of the peer's stream arrives, if it is near enough to be told from an older one. */
  method OnDeliver(f: Flow, stream: seq<byte>, held: map<int, byte>, e: Event)
    requires Good(f, stream, held) && e.Deliver?
    modifies f, f.account
    ensures Good(f, stream, held) && Rank(old(f.state)) <= Rank(f.state)
    ensures f.account.used - f.Held() == old(f.account.used - f.Held())
    ensures old(f.state) == Closed ==> f.acks.out == old(f.acks.out)
    ensures FromNetwork(e) && old(f.state) == SynRcvd ==> f.state in {SynRcvd, Closed}
    ensures old(f.Muted()) ==> f.Muted() && f.tx.wire == old(f.tx.wire)
    ensures f.fault == old(f.fault)
    ensures Happened(f, stream, held, held, e)
  {
    hide Flow.Valid, Flow.Faithful, Flow.PeerReached, Kept, Arrived;
    var base := f.irs + 1;
    if f.state == Closed || e.wnd > 65535 {
      return;
    }
    if !(base <= e.p && e.p + e.len <= base + |stream| && (e.fin ==> e.p + e.len == base + |stream|)) {
      return;
    }
    if !(f.rcvPos - HALF < e.p && e.p + e.len < f.rcvPos + HALF - 1) {
      return;
    }
    if !f.appClosed && !f.tx.Truthful(f.iss + 1, held, e.a) {
      return;
    }
    Deliver(f, stream, held, e);
  }

  method Deliver(f: Flow, stream: seq<byte>, held: map<int, byte>, e: Event)
    requires Good(f, stream, held) && e.Deliver? && Timely(f, stream, held, e)
    modifies f, f.account
    ensures Good(f, stream, held) && Rank(old(f.state)) <= Rank(f.state)
    ensures f.account.used - f.Held() == old(f.account.used - f.Held())
    ensures old(f.state) == SynRcvd ==> f.state in {SynRcvd, Closed}
    ensures old(f.Muted()) ==> f.Muted() && f.tx.wire == old(f.tx.wire)
    ensures f.fault == old(f.fault)
    ensures f.state != Closed ==> Arrived(f, stream, e)
  {
    hide Flow.Valid, Flow.Faithful, Flow.PeerReached, Kept, Took, Flow.Cached, Flow.Standing, ShiftLeft, Tx.OnAck, Tx.Frees, Widened;
    var base := f.irs + 1;
    var g := Arrival(Wrap(e.p), Wrap(e.a), false, true, false, e.fin, e.wnd, stream[e.p - base..e.p - base + e.len]);
    f.FaithfulParts(stream);
    var _, _, _ := f.HandleSegment(g, e.p, e.a, stream, held);
  }

  /** A write is posted, or the coroutine that serves it runs. */
  method OnWrite(f: Flow, stream: seq<byte>, ghost held: map<int, byte>, e: Event)
    requires Good(f, stream, held)
    modifies f, f.account
    ensures Good(f, stream, held) && Rank(old(f.state)) <= Rank(f.state)
    ensures f.account.used - f.Held() == old(f.account.used - f.Held())
    ensures old(f.state) == Closed ==> f.acks.out == old(f.acks.out)
    ensures old(f.Muted()) ==> f.Muted() && f.tx.wire == old(f.tx.wire)
    ensures f.fault <==> old(f.fault) || (e.Awake? && old(f.Dangles(e.wake)) && old(f.phase) !in {Idle, Spawned})
    ensures e.Write? || e.Spawn? || e.Awake? ==> Happened(f, stream, held, held, e)
  {
    hide Flow.Valid, Flow.Faithful, Flow.PeerReached, Kept, Flat, Flow.Turned, Flow.Went;
    match e
    case Write(buffers) =>
      if |Flat(buffers)| < MODULUS {
        var _ := f.StartWrite(buffers, held);
      }
    case Spawn =>
      if f.phase == Spawned {
        f.Begin(held);
      }
    case Awake(wake) =>
      if f.phase != Idle && f.phase != Spawned {
        ghost var mid, k, stop := f.Resume(wake, stream, held);
      }
    case _ =>
  }

  /** One event. */
  method Step(f: Flow, stream: seq<byte>, held: map<int, byte>, e: Event) returns (held': map<int, byte>)
    requires Good(f, stream, held)
    modifies f, f.account
    ensures Happened(f, stream, held, held', e) && Settled(f, e)
    ensures Good(f, stream, held') && Rank(old(f.state)) <= Rank(f.state)
    ensures f.account.used - f.Held() == old(f.account.used - f.Held())
    ensures old(f.state) == Closed ==> f.acks.out == old(f.acks.out)
    ensures FromNetwork(e) && old(f.state) == SynRcvd ==> f.state in {SynRcvd, Closed}
    ensures old(f.Muted()) ==> f.Muted() && f.tx.wire == old(f.tx.wire)
    ensures f.fault <==> old(f.fault) || (e.Awake? && old(f.Dangles(e.wake)) && old(f.phase) !in {Idle, Spawned})
  {
    hide Flow.Valid, Flow.Faithful, Flow.PeerReached, Kept, Flat, Timely, Arrived, Take, ReadsFlushed, Flow.Turned, Flow.Went, Flow.Exhausted;
    held' := held;
    match e
    case Deliver(_, _, _, _, _) =>
      OnDeliver(f, stream, held, e);
    case Write(_) =>
      OnWrite(f, stream, held, e);
    case Spawn =>
      OnWrite(f, stream, held, e);
    case Awake(_) =>
      OnWrite(f, stream, held, e);
    case Reach(i) =>
      held' := OnReached(f, stream, held, i);
    case Read(n) =>
      OnRead(f, stream, held, n);
    case SynAgain(_) =>
      OnSynAgain(f, stream, held, e);
    case PeerReset =>
      OnReset(f, stream, held, e);
    case ResetSocket =>
      OnReset(f, stream, held, e);
    case Accept =>
      OnLocal(f, stream, held, e);
    case AckTimer =>
      OnLocal(f, stream, held, e);
    case _ =>
      OnStop(f, stream, held, e);
  }

  /** A packet reaches the peer. */
  method OnReached(f: Flow, stream: seq<byte>, held: map<int, byte>, i: nat) returns (held': map<int, byte>)
    requires Good(f, stream, held)
    ensures Good(f, stream, held')
    ensures Happened(f, stream, held, held', Reach(i))
  {
    hide Flow.Valid, Flow.Faithful, Flow.PeerReached, Kept, Take;
    held' := held;
    if i < |f.tx.wire| && -HALF <= f.tx.wire[i].pos - f.tx.unaPos < HALF {
      f.PacketsCarry(i);
      var (sq, payload) := Sends(f.acks.out)[i];
      held' := Take(held, Piece(Unwrap(f.tx.unaPos, sq), payload));
      TakeKept(f.writes, held, f.tx.wire[i]);
      OnReach(f, held, i);
    }
  }

  /** A read is posted. */
  method OnRead(f: Flow, stream: seq<byte>, held: map<int, byte>, n: nat)
    requires Good(f, stream, held)
    modifies f, f.account
    ensures Happened(f, stream, held, held, Read(n))
    ensures Good(f, stream, held) && Rank(old(f.state)) <= Rank(f.state)
    ensures f.account.used - f.Held() == old(f.account.used - f.Held())
    ensures old(f.state) == Closed ==> f.acks.out == old(f.acks.out)
    ensures old(f.Muted()) ==> f.Muted() && f.tx.wire == old(f.tx.wire)
    ensures f.fault == old(f.fault)
  {
    hide Flow.Valid, Flow.Faithful, Flow.PeerReached, Kept, ReadsFlushed;
    if f.state != Closed { f.QueueShape(); }
    var _ := f.StartRead(n, held);
    if f.state != Closed { f.QueueShape(); }
  }

  lemma OnReach(f: Flow, held: map<int, byte>, i: nat)
    requires f.Valid() && f.PeerReached(held) && i < |f.tx.wire|
    ensures f.PeerReached(Take(held, f.tx.wire[i]))
  {
    if f.state != Closed && !f.appClosed {
      f.TxOf();
      TakeReached(f.tx, f.iss + 1, held, i);
    }
  }

  /** A repeated SYN is data on an open flow, one place too early; see `Flow.HandleSegment` for when that is harmless. */
  method OnSynAgain(f: Flow, stream: seq<byte>, ghost held: map<int, byte>, e: Event)
    requires Good(f, stream, held) && e.SynAgain?
    modifies f, f.account
    ensures Happened(f, stream, held, held, e)
    ensures Good(f, stream, held) && Rank(old(f.state)) <= Rank(f.state)
    ensures f.account.used - f.Held() == old(f.account.used - f.Held())
    ensures old(f.state) == Closed ==> f.acks.out == old(f.acks.out)
    ensures old(f.state) == SynRcvd ==> f.state in {SynRcvd, Closed}
    ensures old(f.Muted()) ==> f.Muted() && f.tx.wire == old(f.tx.wire)
    ensures f.fault == old(f.fault)
  {
    hide Flow.Valid, Flow.Faithful, Flow.PeerReached, Kept, Flow.Fits, Alike, Flow.Acknowledged, Flow.Shook, Took, Flow.Standing, Flow.Cached, Widened, Tx.OnAck, Tx.Frees;
    if f.state == Closed || e.early > |stream| || !f.Harmless(f.irs, e.early, stream) {
      return;
    }
    if !(f.rcvPos - HALF < f.irs && f.irs + e.early < f.rcvPos + HALF - 1) {
      return;
    }
    f.Numbered();
    f.FaithfulParts(stream);
    var _, _, _ := f.HandleSegment(Arrival(f.irs, 0, true, false, false, false, 0, stream[..e.early]), f.irs, 0, stream, held);
  }

  /** The application ends one direction, or both. */
  method OnStop(f: Flow, stream: seq<byte>, ghost held: map<int, byte>, e: Event)
    requires Good(f, stream, held) && (e.StopReceiving? || e.StopSending? || e.CloseSocket?)
    modifies f, f.account
    ensures Happened(f, stream, held, held, e)
    ensures Good(f, stream, held) && Rank(old(f.state)) <= Rank(f.state)
    ensures f.account.used - f.Held() == old(f.account.used - f.Held())
    ensures old(f.state) == Closed ==> f.acks.out == old(f.acks.out)
    ensures FromNetwork(e) && old(f.state) == SynRcvd ==> f.state in {SynRcvd, Closed}
    ensures old(f.Muted()) ==> f.Muted() && f.tx.wire == old(f.tx.wire)
    ensures f.fault == old(f.fault)
  {
    hide Flow.Valid, Flow.Faithful, Flow.CacheFaithful, Flow.PeerReached, Kept, Flow.Sent, Tx.Drained, FinAdded, RxQueue.Queue.Clear, Flow.Control;
    match e
    case StopReceiving =>
      f.ShutdownReceive(stream, held);
    case StopSending =>
      f.ShutdownSend(stream, held);
    case CloseSocket =>
      f.Close(stream, held);
    case _ =>
  }

  /** A reset, from either side. */
  method OnReset(f: Flow, stream: seq<byte>, ghost held: map<int, byte>, e: Event)
    requires Good(f, stream, held) && (e.PeerReset? || e.ResetSocket?)
    modifies f, f.account
    ensures Happened(f, stream, held, held, e)
    ensures Good(f, stream, held) && Rank(old(f.state)) <= Rank(f.state)
    ensures f.account.used - f.Held() == old(f.account.used - f.Held())
    ensures old(f.state) == Closed ==> f.acks.out == old(f.acks.out)
    ensures FromNetwork(e) && old(f.state) == SynRcvd ==> f.state in {SynRcvd, Closed}
    ensures old(f.Muted()) ==> f.Muted() && f.tx.wire == old(f.tx.wire)
    ensures f.fault == old(f.fault)
  {
    hide Flow.Valid, Flow.Faithful, Flow.CacheFaithful, Flow.PeerReached, Kept, Flow.Sent, Flow.Acknowledged, Flow.Shook, Took, Flow.Standing, Flow.Cached, Widened, Tx.OnAck, Tx.Frees, RxQueue.Queue.Clear, Flow.Control;
    match e
    case PeerReset =>
      if f.state != Closed {
        f.Numbered();
        var _, _, _ := f.HandleSegment(Arrival(f.rcvNxt, 0, false, false, true, false, 0, []), 0, 0, stream, held);
      }
    case ResetSocket =>
      if f.state != Closed && !f.appClosed {
        f.FaithfulParts(stream);
        f.Abort();
        f.ClosedFaithful(stream);
        f.ClosedReached(held);
      }
    case _ =>
  }

  /** The application takes the flow, or the acknowledgement timer fires. */
  method OnLocal(f: Flow, stream: seq<byte>, ghost held: map<int, byte>, e: Event)
    requires Good(f, stream, held) && (e.Accept? || e.AckTimer?)
    modifies f, f.account
    ensures Happened(f, stream, held, held, e)
    ensures Good(f, stream, held) && Rank(old(f.state)) <= Rank(f.state)
    ensures f.account.used - f.Held() == old(f.account.used - f.Held())
    ensures old(f.state) == Closed ==> f.acks.out == old(f.acks.out)
    ensures FromNetwork(e) && old(f.state) == SynRcvd ==> f.state in {SynRcvd, Closed}
    ensures old(f.Muted()) ==> f.Muted() && f.tx.wire == old(f.tx.wire)
    ensures f.fault == old(f.fault)
  {
    hide Flow.Valid, Flow.Faithful, Flow.CacheFaithful, Flow.PeerReached, Kept, Flow.Sent, Flow.Control;
    match e
    case Accept =>
      f.AcceptFlow(held);
    case AckTimer =>
      if f.acks.timer {
        f.AckTimeout();
      }
    case _ =>
  }

  /**
   Completed reads returned a prefix of the stream, and the whole stream if one of them ended in end-of-file.  Without a
   close or a receive shutdown, they and the queue are exactly the stream up to `rcvNxt`.
   */
  ghost predicate ReadsStream(f: Flow, stream: seq<byte>)
    reads f
  {
    && f.queue.delivered <= f.accepted <= stream
    && f.rcvPos == f.irs + 1 + |f.accepted| + (if f.finReceived then 1 else 0)
    && (f.queue.eof ==> f.queue.delivered == stream)
    && (f.state != Closed && !f.rxShutdown && !f.appClosed ==>
          f.queue.head <= |f.queue.data| && f.queue.delivered + f.queue.data[f.queue.head..] == f.accepted)
  }

  /**
   After any run: the application has read a prefix of the peer's stream, and all of it when it was told end-of-file;
   what it has not read is queued, unless it stopped receiving; and the peer holds every byte of every write that
   was reported successful.  A run goes no further than a step without a defined outcome.
   */
  method Run(f: Flow, stream: seq<byte>, events: seq<Event>) returns (held: map<int, byte>)
    requires Good(f, stream, map[])
    modifies f, f.account
    ensures ReadsStream(f, stream)
    ensures Kept(f.writes, held)
    ensures f.account.used - f.Held() == old(f.account.used - f.Held())
    ensures Rank(old(f.state)) <= Rank(f.state) && Good(f, stream, held)
  {
    hide Flow.Valid, Flow.Faithful, Flow.PeerReached, Kept, ReadsStream;
    held := map[];
    var i := 0;
    while i < |events| && !f.fault
      invariant 0 <= i <= |events| && Good(f, stream, held)
      invariant f.account.used - f.Held() == old(f.account.used - f.Held())
      invariant Rank(old(f.state)) <= Rank(f.state)
    {
      held := Step(f, stream, held, events[i]);
      i := i + 1;
    }
    f.Inner();
    ReadOut(f, stream);
  }

  /**
   A connection from its SYN on, on a budget of its own: the SYN carries the first `early` bytes of the stream, which are
   kept if they fit, and anything may happen afterwards.
   */
  method Session(cfg: Config, limit: nat, iss: u32, irs: u32, opts: seq<byte>, wnd: nat, early: nat,
                 stream: seq<byte>, events: seq<Event>) returns (f: Flow, held: map<int, byte>)
    requires cfg.mss > 0 && wnd <= 65535 && early <= |stream|
    ensures fresh(f) && f.irs == irs && f.iss == iss && f.account.limit == limit
    ensures ReadsStream(f, stream) && Kept(f.writes, held)
    ensures f.account.used == f.Held() <= limit && (f.state == Closed ==> f.account.used == 0)
  {
    hide Flow.Valid, Flow.Faithful, Flow.PeerReached, Kept, ReadsStream;
    var wscale := SynOptions.WindowScale(opts);
    var account := new BufferAccountant(limit);
    f := new Flow(cfg, account, iss, irs, wscale, wnd, irs + 1 + |stream|);
    if early > 0 {
      f.TakeSynData(stream[..early], map[]);
    }
    f.ClosedFaithful(stream);
    NothingKept(f.writes);
    held := Run(f, stream, events);
    ClosedEmpty(f);
  }

  lemma ClosedEmpty(f: Flow)
    requires f.Valid()
    ensures f.Held() <= f.account.used <= f.account.limit && (f.state == Closed ==> f.Held() == 0)
  {
    hide CacheSound, Acks.Sound, Tx.Sound, QueueSound, PosSound, FinFlags, LoopSound, Told;
  }

  /**
   Repeated with its payload [1, 2] on an established connection that has not taken the payload in, a SYN puts it into the
   wrong place: what was accepted is no beginning of the stream any more.
   */
  method SynDataCorrupts() returns (f: Flow)
    ensures fresh(f) && f.Valid() && !(f.accepted <= [1, 2])
  {
    hide Flow.Valid, Flow.PeerReached, Flow.CacheFaithful, Tx.OnAck, Tx.Drained, Tx.Accepted, Unsynced;
    f := JustEstablished(65535, 3);
    f.FreshFaithful([1, 2]);
    assert f.Misplaces(2);
    assert !Alike([1, 2], 0, 2) by { assert [1, 2][1] != [1, 2][0]; }
    var _, _, _ := f.HandleSegment(Arrival(0, 0, true, false, false, false, 0, [1, 2]), 0, 0, [1, 2], map[]);
  }

  /**
   A write that is posted after the peer's FIN is taken, and waits for a state that cannot come: nothing of it is sent,
   now or later, as `Step` says of muted flows.
   */
  method HalfClosedWrite() returns (f: Flow, r: Answer)
    ensures fresh(f) && f.Valid() && f.state == CloseWait && r == Begun && f.tx.op.Some? && f.tx.wire == [] && f.Muted()
  {
    hide Flow.Valid, Flow.PeerReached, Flow.CacheFaithful, Tx.OnAck, Tx.Drained, Tx.Begin, Tx.Done, Flow.Sent, Flat;
    f := JustEstablished(65535, 1);
    f.FreshFaithful([]);
    var _, _, _ := f.HandleSegment(Arrival(1, 0, false, false, false, true, 0, []), 1, 0, [], map[]);
    f.FlagsMatchState();
    FlatOne([1]);
    r := f.StartWrite([[1]], map[]);
    NothingKept(f.writes);
    f.Begin(map[]);
  }

  lemma FlatOne(b: seq<byte>)
    ensures Flat([b]) == b
  {
    assert [b][..0] == [];
  }

  /** The end of sending is announced before the peer has acknowledged the SYN: its acknowledgement then meets a reset. */
  method EarlyShutdown() returns (f: Flow)
    ensures fresh(f) && f.Valid() && f.state == Closed
  {
    hide Flow.Valid, Flow.PeerReached, Flow.CacheFaithful, Flow.Sent;
    var account := new BufferAccountant(100);
    f := new Flow(Config(100, 10, 10, 5, 5), account, 0, 0, None, 65535, 1);
    f.FreshFaithful([]);
    f.AcceptFlow(map[]);
    f.ShutdownSend([], map[]);
    var _, _, _ := f.HandleSegment(Arrival(1, 1, false, true, false, false, 65535, []), 1, 1, [], map[]);
  }

  /** A flow whose write waits for a window. */
  method WaitingWrite() returns (f: Flow)
    ensures fresh(f) && fresh(f.account) && f.Valid() && f.PeerSound([], map[]) && f.writes == [] && f.state == Established && !f.appClosed
    ensures f.phase == Window && f.tx.op.Some? && f.probes < f.cfg.persistMaxProbes
  {
    hide Flow.Valid, Flow.PeerReached, Flow.CacheFaithful, Tx.Done, Tx.Begin, Quietly, Flow.Sent, Flat;
    f := JustEstablished(0, 1);
    f.FreshFaithful([]);
    FlatOne([1]);
    var r := f.StartWrite([[1]], map[]);
    NothingKept(f.writes);
    f.Begin(map[]);
    NothingKept([]);
  }

  /** A write waits for a window, the application closes, and the zero-window timer fires in the same turn. */
  method DanglingProbe() returns (f: Flow)
    ensures fresh(f) && f.fault
  {
    hide Flow.Valid, Flow.PeerReached, Flow.Faithful, Tx.Done, Tx.Begin, Quietly, Flow.Sent, Kept, Tx.Finish;
    f := WaitingWrite();
    f.Close([], map[]);
    NothingKept(f.writes);
    var _, _, _ := f.Resume(Timer, [], map[]);
  }

  /** A flow that was accepted and established, with nothing received and nothing sent. */
  method JustEstablished(wnd: nat, ghost finAt: int) returns (f: Flow)
    requires wnd <= 65535 && 1 <= finAt
    ensures fresh(f) && fresh(f.account) && f.Valid() && f.PeerReached(map[]) && f.state == Established && f.irs == 0 && f.iss == 0
    ensures f.tx == Unsynced(0, wnd).Accepted() && f.phase == Idle && f.accepted == [] && f.rcvPos == 1 && f.ooo == map[]
    ensures !f.rxShutdown && !f.appClosed && !f.finReceived && !f.fault && f.finAt == finAt && f.writes == []
    ensures f.queue.bytes == 0 && f.oooBytes == 0 && f.account.used == 0 && f.account.limit == 100 && f.cfg == Config(100, 10, 10, 5, 5)
  {
    hide Flow.Valid, Flow.PeerReached, Flow.Sent, Tx.Accepted, ReadsFlushed, Flow.Control, Unsynced;
    var account := new BufferAccountant(100);
    f := new Flow(Config(100, 10, 10, 5, 5), account, 0, 0, None, wnd, finAt);
    f.AcceptFlow(map[]);
    ghost var q := f.queue;
    f.Establish(map[]);
    f.QueueShape();
    Unread(q, f.queue, f.finReceived);
  }

  lemma Unread(q0: RxQueue.Queue, q: RxQueue.Queue, fin: bool)
    requires q0 == RxQueue.Empty && q.head <= |q.data| && ReadsFlushed(q0, q, fin)
    ensures q.bytes == 0
  {
  }

  lemma NothingKept(writes: seq<Written>)
    requires writes == []
    ensures Kept(writes, map[])
  {
  }

  lemma ReadOut(f: Flow, stream: seq<byte>)
    requires f.Local() && f.Faithful(stream)
    ensures ReadsStream(f, stream)
  {
    f.FaithfulParts(stream);
    hide CacheSound, Acks.Sound, Tx.Sound, Tx.Reached, FinFlags, LoopSound, InStream;
  }
}
