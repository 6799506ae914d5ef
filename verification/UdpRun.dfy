/**
 Whole runs of the UDP engine: datagrams in and out, reads, closes and timers in any order, with timers served at most
 `lag` late.
 */
module UdpRun {
  import opened Accountant
  import opened Udp

  /** An event that comes before an earlier one, or that overtakes a timer by more than the lag, is skipped. */
  datatype Event =
    | Packet(key: int, d: Datagram, now: nat)
    | Timer(now: nat)
    | Send(id: int, family: nat, to: nat, size: nat, mtu: nat, now: nat)
    | Receive(id: int, total: nat)
    | NextSession
    | CloseSession(id: int)

  /** The timer removes only sessions that were idle for their timeout; otherwise a session leaves only if it is closed. */
  ghost predicate Leaves(ss0: Sessions, ss: Sessions, e: Event) {
    forall id :: id in ss0 && id !in ss ==>
      e == CloseSession(id) || (e.Timer? && ss0[id].lastActivity + ss0[id].timeout <= e.now)
  }

  /** A session that stays has read more of the datagrams it got, never different ones. */
  ghost predicate Grows(ss0: Sessions, ss: Sessions) {
    forall id :: id in ss0 && id in ss ==> ss0[id].got <= ss[id].got && ss0[id].given <= ss[id].given && ss0[id].asked <= ss[id].asked
  }

  lemma ArrivedGrows(s: Session, d: Datagram, now: nat, cap: nat, room: int)
    ensures var t := Arrived(Refreshed(s, now, true), d, cap, room); s.got <= t.got && s.given <= t.given && s.asked <= t.asked
  {
  }

  /** The datagram counts as activity of its session, whose reads or queue it reaches if they have room. */
  predicate Reached(s: Session, t: Session, d: Datagram, now: nat, cap: nat, room: int) {
    t.lastActivity == now && t.got == s.got + if s.waiters != [] || (s.rxBytes + |d.data| <= cap && |d.data| <= room) then [d] else []
  }

  lemma ArrivedReached(s: Session, d: Datagram, now: nat, cap: nat, room: int)
    ensures Reached(s, Arrived(Refreshed(s, now, true), d, cap, room), d, now, cap, room)
  {
  }

  /** What an event is for, when it is its time. */
  twostate predicate Happened(u: Engine, e: Event)
    reads u, u.account
  {
    match e
    case Packet(key, d, now) =>
      old(u.Punctual(now)) ==>
        if key in old(u.table) then
          && old(u.table[key] in u.sessions) && old(u.table[key]) in u.sessions
          && Reached(old(u.sessions[u.table[key]]), u.sessions[old(u.table[key])], d, now, u.maxRxQueue,
                     u.account.limit - old(u.account.used))
        else if old(|u.table| >= u.maxFlows || (u.accepts == 0 && |u.pending| >= MAX_PENDING)) then u.sessions == old(u.sessions)
        else key in u.table && u.table[key] in u.sessions && u.sessions[u.table[key]].lastActivity == now
    case Timer(now) =>
      old(u.Punctual(now) && u.waiting && u.target <= now) ==> Expired(old(u.sessions), u.sessions, now)
    case Send(id, family, to, size, mtu, now) =>
      old(u.Punctual(now)) && id in old(u.sessions) && Outcome(family, to, size, mtu).Counts() ==>
        id in u.sessions && u.sessions[id].lastActivity == now
    case Receive(id, total) =>
      id in old(u.sessions) ==> id in u.sessions && u.sessions[id].asked == old(u.sessions)[id].asked + [total]
    case NextSession =>
      if old(u.pending) == [] then u.accepts == old(u.accepts) + 1 else u.pending == old(u.pending)[1..]
    case CloseSession(id) => u.sessions == old(u.sessions) - {id}
  }

  method OnPacket(u: Engine, key: int, d: Datagram, now: nat)
    requires u.Valid() && u.Punctual(now)
    modifies u, u.account
    ensures u.Valid() && old(u.sessions).Keys <= u.sessions.Keys && Grows(old(u.sessions), u.sessions)
    ensures u.account.used - RxTotal(u.sessions) == old(u.account.used - RxTotal(u.sessions))
    ensures Happened(u, Packet(key, d, now))
  {
    hide Engine.Valid, RxTotal, Arrived, Refreshed, Engine.First;
    ghost var ss, room := u.sessions, u.account.limit - u.account.used;
    u.FirstSession(key, d, now, room);
    if key in u.table && u.table[key] in ss {
      ArrivedGrows(ss[u.table[key]], d, now, u.maxRxQueue, room);
      ArrivedReached(ss[u.table[key]], d, now, u.maxRxQueue, room);
    }
    u.OnPacket(key, d, now);
  }

  method OnSend(u: Engine, id: int, family: nat, to: nat, size: nat, mtu: nat, now: nat)
    requires u.Valid() && u.Punctual(now)
    modifies u, u.account
    ensures u.Valid() && old(u.sessions).Keys <= u.sessions.Keys && Grows(old(u.sessions), u.sessions)
    ensures u.account.used - RxTotal(u.sessions) == old(u.account.used - RxTotal(u.sessions))
    ensures Happened(u, Send(id, family, to, size, mtu, now))
  {
    hide Engine.Valid, RxTotal, Outcome;
    var _ := u.StartSend(id, family, to, size, mtu, now);
  }

  method OnTimer(u: Engine, now: nat)
    requires u.Valid() && u.Punctual(now) && u.waiting && u.target <= now
    modifies u, u.account
    ensures u.Valid() && Leaves(old(u.sessions), u.sessions, Timer(now)) && Grows(old(u.sessions), u.sessions)
    ensures u.account.used - RxTotal(u.sessions) == old(u.account.used - RxTotal(u.sessions))
    ensures Happened(u, Timer(now))
  {
    hide Engine.Valid, RxTotal, Still;
    ghost var ss := u.sessions;
    forall id | id in ss ensures ss[id].lastActivity + ss[id].timeout <= ss[id].expiry { u.NeverEarly(id); }
    u.OnTimer(now);
    forall id | id in u.sessions ensures ss[id].got == u.sessions[id].got && ss[id].given == u.sessions[id].given && ss[id].asked == u.sessions[id].asked {
      SameGot(ss[id], u.sessions[id]);
    }
  }

  lemma SameGot(s: Session, t: Session)
    requires Still(s) == Still(t)
    ensures s.got == t.got && s.given == t.given && s.asked == t.asked
  {
    assert Still(s).got == s.got && Still(s).given == s.given && Still(s).asked == s.asked;
  }

  method Step(u: Engine, e: Event)
    requires u.Valid()
    modifies u, u.account
    ensures u.Valid() && Leaves(old(u.sessions), u.sessions, e) && Grows(old(u.sessions), u.sessions) && Happened(u, e)
    ensures u.account.used - RxTotal(u.sessions) == old(u.account.used - RxTotal(u.sessions))
  {
    hide Engine.Valid, RxTotal;
    match e
    case Packet(key, d, now) =>
      if u.Punctual(now) {
        OnPacket(u, key, d, now);
      }
    case Timer(now) =>
      if u.Punctual(now) && u.waiting && u.target <= now {
        OnTimer(u, now);
      }
    case Send(id, family, to, size, mtu, now) =>
      if u.Punctual(now) {
        OnSend(u, id, family, to, size, mtu, now);
      }
    case Receive(id, total) =>
      var _ := u.StartReceive(id, total);
    case NextSession =>
      var _ := u.AsyncAccept();
    case CloseSession(id) =>
      u.Close(id);
  }

  /**
   The first read has returned the first datagram, and so on, each cut to the room of its read; what no read has taken is
   queued, and reads wait only while nothing is queued.
   */
  ghost predicate ReadsDatagrams(s: Session) {
    InTurn(s) && (s.waiters != [] ==> s.rx == [])
  }

  /** No session is open later than two timeouts after its last packet, and none expires before one. */
  ghost predicate Fresh(s: Session, now: nat, lag: nat) {
    && now <= s.lastActivity + 2 * s.timeout + 2 * lag
    && s.lastActivity + s.timeout <= s.expiry
  }

  /** The life of an engine on a budget of its own. */
  method Life(limit: nat, maxRxQueue: nat, maxFlows: nat, idleTimeout: nat, lag: nat, events: seq<Event>) returns (u: Engine)
    ensures fresh(u) && u.lag == lag && u.account.limit == limit
    ensures forall id :: id in u.sessions ==> ReadsDatagrams(u.sessions[id])
    ensures forall id, now: nat :: id in u.sessions && u.Punctual(now) ==> Fresh(u.sessions[id], now, lag)
    ensures u.account.used == RxTotal(u.sessions) <= limit
  {
    hide Engine.Valid, RxTotal, Leaves, Grows, ReadsDatagrams, Fresh, Engine.Punctual;
    var account := new BufferAccountant(limit);
    u := new Engine(account, maxRxQueue, maxFlows, idleTimeout, lag);
    NoBytes();
    for i := 0 to |events|
      invariant u.Valid() && fresh(u) && fresh(u.account) && u.account.limit == limit && u.lag == lag
      invariant u.account.used == RxTotal(u.sessions)
    {
      Step(u, events[i]);
    }
    forall id | id in u.sessions ensures ReadsDatagrams(u.sessions[id]) { Delivered(u, id); }
    forall id, now: nat | id in u.sessions && u.Punctual(now) ensures Fresh(u.sessions[id], now, lag) { Bounded(u, id, now); }
    WithinLimit(u);
  }

  /**
   A session of one second is still open 1599 ms after its last packet, though the timer is never late: packets at 0 and
   400 ms share one entry, and the timer run at 1000 ms extends the session from then.
   */
  method Overstayer() returns (u: Engine, id: int)
    ensures fresh(u) && u.Valid() && u.lag == 0 && u.Punctual(1999) && id in u.sessions
    ensures u.sessions[id].timeout == 1000 && u.sessions[id].lastActivity == 400
  {
    hide Engine.Valid, RxTotal, Expired;
    var account := new BufferAccountant(100);
    u := new Engine(account, 100, 10, 1000, 0);
    var d := Datagram([], 1);
    u.OnPacket(7, d, 0);
    id := u.table[7];
    u.ArmedFor(id);
    OnlyTarget(u.sessions, id, u.target);
    u.OnPacket(7, d, 400);
    ghost var ss := u.sessions;
    u.OnTimer(1000);
    Extended(ss, u.sessions, id);
    u.ArmedFor(id);
    OnlyTarget(u.sessions, id, u.target);
  }

  lemma OnlyTarget(ss: Sessions, id: int, t: nat)
    requires ss.Keys == {id} && TargetOf(ss, t, {})
    ensures t == ss[id].entryAt
  {
  }

  lemma Extended(ss0: Sessions, ss: Sessions, id: int)
    requires Expired(ss0, ss, 1000) && ss0.Keys == {id} && ss0[id].expiry == 1400 && ss0[id].entryAt == 1000
    requires ss0[id].timeout == 1000
    ensures ss.Keys == {id} && ss[id].entryAt == 2000 && ss[id].lastActivity == ss0[id].lastActivity && ss[id].timeout == 1000
  {
    assert id in ss0.Keys;
    forall j | j in ss ensures j in {id} { assert j in ss0.Keys; }
  }

  lemma Delivered(u: Engine, id: int)
    requires u.Valid() && id in u.sessions
    ensures ReadsDatagrams(u.sessions[id])
  {
    hide HeapSound, Armed, TimesSound, TableSound, AcceptSound, RxTotal;
    assert QueueSound(u.sessions[id], u.maxRxQueue);
  }

  lemma Bounded(u: Engine, id: int, now: nat)
    requires u.Valid() && id in u.sessions && u.Punctual(now)
    ensures Fresh(u.sessions[id], now, u.lag)
  {
    hide Engine.Valid;
    u.IdleBound(now, id);
  }

  lemma WithinLimit(u: Engine)
    requires u.Valid()
    ensures u.account.used <= u.account.limit
  {
  }
}
