/**
 The UDP engine: sessions, their datagram queues, and the lazy expiry heap that closes idle sessions.

 A session that is closed leaves the table; `int` names stand for the session objects, so that heap entries of closed
 sessions stay recognisable.  Times are milliseconds.
 */
module Udp {
  import opened Bytes
  import opened Accountant
  import opened Sums
  import opened Fragments

  const PUSH_INTERVAL: nat := 500
  const MAX_PENDING: nat := 1024

  datatype Datagram = Datagram(data: seq<byte>, sender: int)

  /** An entry of the expiry heap; it counts only while the session has this generation. */
  datatype Entry = Entry(at: nat, gen: nat, id: int)

  /**
   `got` records the datagrams that were accepted, `asked` the room of every read that was posted and `given` what reads
   received; `lastActivity` is the last packet in either direction and `entryAt` the time of the entry that counts.
   */
  datatype Session = Session(key: int, timeout: nat, expiry: nat, gen: nat, lastPush: nat, live: bool,
                             rx: seq<Datagram>, rxBytes: nat, waiters: seq<nat>,
                             got: seq<Datagram>, given: seq<Datagram>, asked: seq<nat>, lastActivity: nat, entryAt: nat)

  // ---- the heap ----

  type Sessions = map<int, Session>
  type Heap = multiset<Entry>

  predicate Current(ss: Sessions, e: Entry) {
    e.id in ss && ss[e.id].gen == e.gen
  }

  /** The session has exactly one entry of its generation, at `entryAt`, and none of a later one. */
  ghost predicate OneEntry(heap: Heap, id: int, s: Session) {
    && heap[Entry(s.entryAt, s.gen, id)] == 1
    && forall e :: e in heap && e.id == id ==> e.gen <= s.gen && (e.gen == s.gen ==> e.at == s.entryAt)
  }

  /** No entry of the session counts. */
  ghost predicate NoEntry(heap: Heap, id: int, s: Session) {
    forall e :: e in heap && e.id == id ==> e.gen < s.gen
  }

  /** The times of a session at `clock`, when timers run at most `lag` late. */
  predicate Timed(s: Session, clock: nat, lag: nat) {
    && s.lastPush <= clock && s.lastActivity <= clock
    && s.entryAt == s.lastPush + s.timeout <= s.expiry
    && s.lastActivity + s.timeout <= s.expiry
    && (s.entryAt <= s.lastActivity + s.timeout
        || (s.expiry == s.entryAt && s.entryAt <= s.lastActivity + 2 * s.timeout + lag))
  }

  /** Every open session has its entry, except those in `out`, which are about to get a new one. */
  ghost predicate HeapSound(ss: Sessions, heap: Heap, next: int, out: set<int>) {
    && (forall id :: id in ss ==> Listed(heap, id, ss[id], next, out))
    && (forall e :: e in heap ==> e.id < next)
  }

  ghost predicate Listed(heap: Heap, id: int, s: Session, next: int, out: set<int>) {
    id < next && s.live == (id !in out) && if id in out then NoEntry(heap, id, s) else OneEntry(heap, id, s)
  }

  ghost predicate TimesSound(ss: Sessions, clock: nat, lag: nat) {
    forall id :: id in ss ==> Timed(ss[id], clock, lag)
  }

  /** The timer is set for no later than the first entry that counts. */
  ghost predicate Armed(ss: Sessions, heap: Heap, waiting: bool, target: nat) {
    forall e :: e in heap && Current(ss, e) ==> waiting && target <= e.at
  }

  /** `t` is the time of an entry that counts, of a session that is not in `out`. */
  ghost predicate TargetOf(ss: Sessions, t: nat, out: set<int>) {
    exists id :: id in ss && id !in out && ss[id].entryAt == t
  }

  ghost predicate IsTop(heap: Heap, e: Entry) {
    e in heap && forall x :: x in heap ==> e.at <= x.at
  }

  /** A heap with entries has a first one. */
  lemma {:induction false} TopExists(heap: Heap)
    requires |heap| > 0
    ensures exists e :: IsTop(heap, e)
    decreases |heap|
  {
    var x :| x in heap;
    var rest := heap - multiset{x};
    if |rest| == 0 {
      assert forall y :: y in heap ==> y == x || y in rest;
      assert IsTop(heap, x);
    } else {
      TopExists(rest);
      var y :| IsTop(rest, y);
      assert forall z :: z in heap ==> z == x || z in rest;
      assert IsTop(heap, if x.at <= y.at then x else y);
    }
  }

  /** The first entry of the heap. */
  method Top(heap: Heap) returns (e: Entry)
    requires |heap| > 0
    ensures IsTop(heap, e)
  {
    TopExists(heap);
    e :| e in heap && forall x :: x in heap ==> e.at <= x.at;
  }

  /** Dropping an entry that does not count changes nothing for the others. */
  lemma DropStale(ss: Sessions, heap: Heap, e: Entry, next: int, out: set<int>)
    requires HeapSound(ss, heap, next, out) && e in heap && !Current(ss, e)
    ensures HeapSound(ss, heap - multiset{e}, next, out)
  {
    forall id | id in ss ensures Listed(heap - multiset{e}, id, ss[id], next, out) {
      assert Listed(heap, id, ss[id], next, out);
    }
  }

  /** An entry that counts is taken off the heap; its session waits for a new one. */
  lemma TakeOff(ss: Sessions, heap: Heap, e: Entry, next: int, out: set<int>)
    requires HeapSound(ss, heap, next, out) && e in heap && Current(ss, e)
    ensures e.id !in out && e.at == ss[e.id].entryAt
    ensures HeapSound(ss[e.id := ss[e.id].(live := false)], heap - multiset{e}, next, out + {e.id})
    ensures HeapSound(ss - {e.id}, heap - multiset{e}, next, out)
  {
    var s := ss[e.id];
    var h := heap - multiset{e};
    assert Listed(heap, e.id, s, next, out);
    var t := ss[e.id := s.(live := false)];
    forall id | id in t ensures Listed(h, id, t[id], next, out + {e.id}) {
      assert Listed(heap, id, ss[id], next, out);
    }
    forall id | id in ss - {e.id} ensures Listed(h, id, ss[id], next, out) {
      assert Listed(heap, id, ss[id], next, out);
    }
  }

  /** A session gets an entry for `at` under a new generation. */
  lemma PutOn(ss: Sessions, heap: Heap, id: int, s: Session, next: int, out: set<int>)
    requires HeapSound(ss, heap, next, out) && id in ss
    requires s.gen == ss[id].gen + 1 && s.live
    ensures HeapSound(ss[id := s], heap + multiset{Entry(s.entryAt, s.gen, id)}, next, out - {id})
  {
    var n := Entry(s.entryAt, s.gen, id);
    var h := heap + multiset{n};
    assert Listed(heap, id, ss[id], next, out);
    assert n !in heap;
    var t := ss[id := s];
    forall j | j in t ensures Listed(h, j, t[j], next, out - {id}) {
      if j != id { assert Listed(heap, j, ss[j], next, out); }
    }
  }

  /** A change that leaves generation and entry alone. */
  lemma Touch(ss: Sessions, heap: Heap, id: int, s: Session, next: int, out: set<int>)
    requires HeapSound(ss, heap, next, out) && id in ss
    requires s.gen == ss[id].gen && s.live == ss[id].live && s.entryAt == ss[id].entryAt
    ensures HeapSound(ss[id := s], heap, next, out)
  {
    var t := ss[id := s];
    forall j | j in t ensures Listed(heap, j, t[j], next, out) {
      assert Listed(heap, j, ss[j], next, out);
    }
  }

  lemma LiveIsListed(ss: Sessions, heap: Heap, id: int, next: int, out: set<int>)
    requires HeapSound(ss, heap, next, out) && id in ss && ss[id].live
    ensures id !in out && out - {id} == out
  {
    assert Listed(heap, id, ss[id], next, out);
  }

  lemma Removed(ss: Sessions, heap: Heap, id: int, next: int, out: set<int>)
    requires HeapSound(ss, heap, next, out)
    ensures HeapSound(ss - {id}, heap, next, out)
  {
  }

  // ---- the datagram queue ----

  function Volume(q: seq<Datagram>): nat {
    if q == [] then 0 else Volume(q[..|q| - 1]) + |q[|q| - 1].data|
  }

  /** What a read with room for `room` bytes received of a datagram: its first bytes, as many as there was room for. */
  predicate Cut(whole: Datagram, part: Datagram, room: nat) {
    part.sender == whole.sender && part.data <= whole.data && |part.data| == Min(|whole.data|, room)
  }

  /** The reads received the accepted datagrams, each in its turn; the other datagrams are queued, the other reads wait. */
  ghost predicate InTurn(s: Session) {
    && |s.given| <= |s.got| && s.rx == s.got[|s.given|..]
    && |s.given| <= |s.asked| && s.waiters == s.asked[|s.given|..]
    && forall i :: 0 <= i < |s.given| ==> Cut(s.got[i], s.given[i], s.asked[i])
  }

  ghost predicate QueueSound(s: Session, cap: nat) {
    && InTurn(s) && s.rxBytes == Volume(s.rx) <= cap
    && (s.waiters != [] ==> s.rx == [])
  }

  ghost predicate QueuesSound(ss: Sessions, cap: nat) {
    forall id :: id in ss ==> QueueSound(ss[id], cap)
  }

  ghost function Sizes(ss: Sessions): map<int, nat> {
    map id | id in ss :: ss[id].rxBytes
  }

  /** All bytes queued in open sessions. */
  ghost function RxTotal(ss: Sessions): nat {
    Sum(Sizes(ss))
  }

  lemma NoBytes()
    ensures RxTotal(map[]) == 0
  {
    assert Sizes(map[]) == map[];
  }

  lemma TotalUpdate(ss: Sessions, id: int, s: Session)
    requires id in ss
    ensures RxTotal(ss[id := s]) == RxTotal(ss) - ss[id].rxBytes + s.rxBytes
    ensures ss[id].rxBytes <= RxTotal(ss)
  {
    SumWith(Sizes(ss), id);
    SumUpdate(Sizes(ss), id, s.rxBytes);
    assert Sizes(ss[id := s]) == Sizes(ss)[id := s.rxBytes];
  }

  lemma TotalAdd(ss: Sessions, id: int, s: Session)
    requires id !in ss
    ensures RxTotal(ss[id := s]) == RxTotal(ss) + s.rxBytes
  {
    SumUpdate(Sizes(ss), id, s.rxBytes);
    SumAbsent(Sizes(ss), id);
    assert Sizes(ss[id := s]) == Sizes(ss)[id := s.rxBytes];
  }

  lemma TotalRemove(ss: Sessions, id: int)
    requires id in ss
    ensures RxTotal(ss - {id}) == RxTotal(ss) - ss[id].rxBytes
    ensures ss[id].rxBytes <= RxTotal(ss)
  {
    SumWith(Sizes(ss), id);
    assert Sizes(ss - {id}) == Sizes(ss) - {id};
  }

  /** A session that was just made. */
  function Blank(key: int, timeout: nat, now: nat): Session {
    Session(key, timeout, now + timeout, 0, 0, false, [], 0, [], [], [], [], now, timeout)
  }

  /** The session has an entry that counts, pushed less than half a second ago. */
  predicate Throttled(s: Session, now: nat) {
    s.live && now - s.lastPush < PUSH_INTERVAL
  }

  /** A session whose idle time starts again, with a new entry unless that is throttled. */
  function Refreshed(s: Session, now: nat, active: bool): Session {
    var t := s.(expiry := now + s.timeout, lastActivity := if active then now else s.lastActivity);
    if Throttled(s, now) then t
    else t.(gen := s.gen + 1, live := true, lastPush := now, entryAt := t.expiry)
  }

  function Enqueued(s: Session, d: Datagram): Session {
    s.(rx := s.rx + [d], rxBytes := s.rxBytes + |d.data|, got := s.got + [d])
  }

  /** The longest waiting read takes a datagram that just came. */
  function HandedOver(s: Session, d: Datagram): Session
    requires s.waiters != []
  {
    s.(waiters := s.waiters[1..], got := s.got + [d],
       given := s.given + [Datagram(d.data[..Min(|d.data|, s.waiters[0])], d.sender)])
  }

  /** A read takes the first queued datagram. */
  function Popped(s: Session, total: nat): Session
    requires s.rx != [] && |s.rx[0].data| <= s.rxBytes
  {
    var d := s.rx[0];
    s.(rx := s.rx[1..], rxBytes := s.rxBytes - |d.data|, asked := s.asked + [total],
       given := s.given + [Datagram(d.data[..Min(|d.data|, total)], d.sender)])
  }

  /** From `s` to `t` a read with room for `total` bytes took the first queued datagram, and nothing else happened. */
  predicate ReadFirst(s: Session, t: Session, total: nat) {
    && s.rx != [] && s.rxBytes == t.rxBytes + |s.rx[0].data| && |t.given| == |s.given| + 1
    && Cut(s.rx[0], t.given[|s.given|], total)
    && t == s.(rx := s.rx[1..], rxBytes := t.rxBytes, asked := s.asked + [total], given := s.given + [t.given[|s.given|]])
  }

  lemma EnqueuedSound(s: Session, d: Datagram, cap: nat)
    requires QueueSound(s, cap) && s.waiters == [] && s.rxBytes + |d.data| <= cap
    ensures QueueSound(Enqueued(s, d), cap)
  {
    assert (s.rx + [d])[..|s.rx|] == s.rx;
  }

  lemma HandedOverSound(s: Session, d: Datagram, cap: nat)
    requires QueueSound(s, cap) && s.waiters != []
    ensures QueueSound(HandedOver(s, d), cap)
  {
  }

  lemma {:induction false} BytesFirst(q: seq<Datagram>)
    requires q != []
    ensures Volume(q) == |q[0].data| + Volume(q[1..])
    decreases |q|
  {
    var n := |q| - 1;
    if n > 0 {
      BytesFirst(q[..n]);
      assert q[..n][1..] == q[1..][..n - 1];
    }
  }

  lemma PoppedSound(s: Session, total: nat, cap: nat)
    requires QueueSound(s, cap) && s.rx != []
    ensures |s.rx[0].data| <= s.rxBytes && QueueSound(Popped(s, total), cap) && ReadFirst(s, Popped(s, total), total)
  {
    BytesFirst(s.rx);
    assert s.got[|s.given|..][1..] == s.got[|s.given| + 1..];
  }

  // ---- the table and the accept queue ----

  ghost predicate TableSound(table: map<int, int>, ss: Sessions) {
    && (forall k :: k in table ==> table[k] in ss && ss[table[k]].key == k)
    && (forall id :: id in ss ==> ss[id].key in table && table[ss[id].key] == id)
  }

  /** New sessions wait for an accept, or accepts wait for a new session. */
  ghost predicate AcceptSound(pending: seq<int>, accepts: nat, ss: Sessions) {
    && (pending == [] || accepts == 0) && |pending| <= MAX_PENDING
    && (forall i :: 0 <= i < |pending| ==> pending[i] in ss)
    && Distinct(pending)
  }

  // ---- sending ----

  function IpHeader(family: nat): nat {
    if family == 4 then IPV4_HEADER else 40
  }

  /** What becomes of a datagram that the application sends; `NoFragments` if the MTU is too small to cut it up. */
  datatype Outgoing = BadDescriptor | WrongFamily | TooLong | InOne | InFragments | NoFragments
  {
    /** It counts as activity of the session. */
    predicate Counts() {
      InOne? || InFragments? || NoFragments?
    }
  }

  /** A datagram leaves whole if it fits the MTU; if not, IPv4 cuts it up if it can and IPv6 refuses it. */
  function Outcome(family: nat, to: nat, total: nat, mtu: nat): Outgoing {
    if family != to then WrongFamily
    else if UDP_HEADER + total > 65535 then TooLong
    else if IpHeader(family) + UDP_HEADER + total <= mtu || total == 0 then InOne
    else if family != 4 then TooLong
    else if mtu < IPV4_HEADER + UDP_HEADER then NoFragments else InFragments
  }

  class Engine {
    const account: BufferAccountant
    const maxRxQueue: nat
    const maxFlows: nat
    const idleTimeout: nat
    // how late the model lets timers be served; the engine never looks at it
    const lag: nat

    var sessions: Sessions
    var table: map<int, int>
    var next: int
    var heap: Heap
    var waiting: bool
    var target: nat
    var pending: seq<int>
    var accepts: nat
    // recorded by the model: the time of the last step
    var clock: nat

    constructor (account: BufferAccountant, maxRxQueue: nat, maxFlows: nat, idleTimeout: nat, lag: nat)
      requires account.Valid()
      ensures Valid() && this.account == account && sessions == map[] && this.idleTimeout == idleTimeout && this.lag == lag
      ensures !waiting && clock == 0 && table == map[] && pending == [] && accepts == 0
      ensures this.maxRxQueue == maxRxQueue && this.maxFlows == maxFlows
    {
      this.account, this.maxRxQueue, this.maxFlows, this.idleTimeout, this.lag := account, maxRxQueue, maxFlows, idleTimeout, lag;
      sessions, table, next, heap := map[], map[], 0, multiset{};
      waiting, target, pending, accepts, clock := false, 0, [], 0, 0;
      new;
      assert Sizes(map[]) == map[];
    }

    ghost predicate MemSound()
      reads `sessions, account
    {
      account.Valid() && RxTotal(sessions) <= account.used
    }

    /** Everything about the sessions but their timers. */
    ghost predicate Store()
      reads `sessions, `table, `pending, `accepts
    {
      && TableSound(table, sessions) && |table| <= maxFlows
      && AcceptSound(pending, accepts, sessions) && QueuesSound(sessions, maxRxQueue)
    }

    ghost predicate Timers()
      reads `sessions, `heap, `next, `waiting, `target, `clock
    {
      && HeapSound(sessions, heap, next, {}) && TimesSound(sessions, clock, lag)
      && Armed(sessions, heap, waiting, target)
    }

    ghost predicate Valid()
      reads this, account
    {
      MemSound() && Store() && Timers()
    }

    /** Timers are served at most `lag` late. */
    predicate Punctual(now: nat)
      reads `clock, `waiting, `target
    {
      clock <= now && (waiting ==> now <= target + lag)
    }

    /** Set the timer for the first entry that counts, and drop the entries before it. */
    method Arm(ghost out: set<int>)
      requires HeapSound(sessions, heap, next, out)
      modifies `heap, `waiting, `target
      ensures HeapSound(sessions, heap, next, out) && Armed(sessions, heap, waiting, target)
      ensures (waiting == old(waiting) && target == old(target)) || TargetOf(sessions, target, out)
      ensures old(waiting) ==> waiting && target <= old(target)
    {
      hide HeapSound;
      var top := Entry(0, 0, 0);
      while |heap| > 0
        invariant HeapSound(sessions, heap, next, out) && waiting == old(waiting) && target == old(target)
        decreases |heap|
      {
        top := Top(heap);
        if Current(sessions, top) {
          break;
        }
        DropStale(sessions, heap, top, next, out);
        heap := heap - multiset{top};
      }
      if |heap| == 0 {
        return;
      }
      if waiting && top.at >= target {
        return;
      }
      TakeOff(sessions, heap, top, next, out);
      CurrentOut(sessions, heap, top, next, out);
      target, waiting := top.at, true;
    }

    /** A session's idle time starts again; its heap entry is renewed at most twice a second. */
    method Refresh(id: int, now: nat, active: bool, ghost out: set<int>)
      requires id in sessions && HeapSound(sessions, heap, next, out) && TimesSound(sessions, now, lag)
      requires out == {} ==> Armed(sessions, heap, waiting, target)
      requires active || (id in out && now <= sessions[id].entryAt + lag
                          && sessions[id].entryAt <= sessions[id].lastActivity + sessions[id].timeout)
      modifies `sessions, `heap, `waiting, `target
      ensures HeapSound(sessions, heap, next, out - {id}) && TimesSound(sessions, now, lag) && id in sessions
      ensures out - {id} == {} ==> Armed(sessions, heap, waiting, target)
      ensures (waiting == old(waiting) && target == old(target)) || TargetOf(sessions, target, out - {id})
      ensures sessions == old(sessions)[id := Refreshed(old(sessions)[id], now, active)]
      ensures Throttled(old(sessions)[id], now) ==> heap == old(heap) && waiting == old(waiting) && target == old(target)
    {
      hide HeapSound;
      var s := sessions[id];
      s := s.(expiry := now + s.timeout, lastActivity := if active then now else s.lastActivity);
      if s.live && now - s.lastPush < PUSH_INTERVAL {
        Touch(sessions, heap, id, s, next, out);
        LiveIsListed(sessions, heap, id, next, out);
        sessions := sessions[id := s];
        return;
      }
      s := s.(gen := s.gen + 1, live := true, lastPush := now, entryAt := s.expiry);
      PutOn(sessions, heap, id, s, next, out);
      sessions := sessions[id := s];
      heap := heap + multiset{Entry(s.expiry, s.gen, id)};
      Arm(out - {id});
    }

    /** Close a session: nothing of it stays in the table, the accept queue or the budget. */
    method Remove(id: int)
      requires id in sessions && MemSound() && Store()
      modifies `sessions, `table, `pending, account
      ensures sessions == old(sessions) - {id} && MemSound() && Store()
      ensures account.used - RxTotal(sessions) == old(account.used - RxTotal(sessions))
    {
      hide TableSound, AcceptSound, QueuesSound, RxTotal;
      var s := sessions[id];
      TotalRemove(sessions, id);
      StoreRemoved(table, sessions, pending, accepts, id, maxRxQueue);
      sessions := sessions - {id};
      table := table - {s.key};
      pending := Without(pending, id);
      if s.rxBytes > 0 {
        account.Release(s.rxBytes);
      }
    }

    /** Take every entry whose time has come off the heap. */
    method Drain(now: nat) returns (extended: seq<int>)
      requires MemSound() && Store() && HeapSound(sessions, heap, next, {})
      modifies `sessions, `table, `pending, `heap, account
      ensures MemSound() && Store() && HeapSound(sessions, heap, next, Members(extended))
      ensures Draining(old(sessions), sessions, Members(extended), now)
      ensures forall e :: e in heap ==> e.at > now
      ensures forall i, j :: 0 <= i < j < |extended| ==> extended[i] != extended[j]
      ensures account.used - RxTotal(sessions) == old(account.used - RxTotal(sessions))
    {
      hide HeapSound, TableSound, AcceptSound, QueuesSound, RxTotal, Draining, SameStore;
      extended := [];
      DrainStart(sessions, heap, next, now);
      while |heap| > 0
        invariant MemSound() && Store() && HeapSound(sessions, heap, next, Members(extended))
        invariant Draining(old(sessions), sessions, Members(extended), now)
        invariant forall i, j :: 0 <= i < j < |extended| ==> extended[i] != extended[j]
        invariant account.used - RxTotal(sessions) == old(account.used - RxTotal(sessions))
        decreases |heap|
      {
        var top := Top(heap);
        if top.at > now {
          break;
        }
        ghost var out := Members(extended);
        if Current(sessions, top) {
          TakeOff(sessions, heap, top, next, out);
          if sessions[top.id].expiry <= now {
            DrainOne(old(sessions), sessions, out, now, top.id);
            Remove(top.id);
          } else {
            var s := sessions[top.id];
            DrainOne(old(sessions), sessions, out, now, top.id);
            StillStore(table, sessions, sessions[top.id := s.(live := false)], pending, accepts, maxRxQueue);
            sessions := sessions[top.id := s.(live := false)];
            assert Members(extended + [top.id]) == out + {top.id};
            extended := extended + [top.id];
          }
        } else {
          DropStale(sessions, heap, top, next, out);
        }
        heap := heap - multiset{top};
      }
    }

    /** A packet of the session in either direction. */
    method Active(id: int, now: nat)
      requires Valid() && Punctual(now) && id in sessions
      modifies `sessions, `heap, `waiting, `target, `clock
      ensures Valid() && Punctual(now) && clock == now && SameStore(old(sessions), sessions) && id in sessions
      ensures sessions == old(sessions)[id := Refreshed(old(sessions)[id], now, true)]
      ensures (waiting == old(waiting) && target == old(target)) || TargetOf(sessions, target, {})
      ensures Throttled(old(sessions)[id], now) ==> waiting == old(waiting) && target == old(target)
      ensures account.used - RxTotal(sessions) == old(account.used - RxTotal(sessions))
    {
      hide HeapSound, TableSound, AcceptSound, QueuesSound, RxTotal, Armed, TimesSound, SameStore, Still;
      Soon(sessions, heap, next, waiting, target, clock, now, lag);
      ghost var ss := sessions;
      clock := now;
      Refresh(id, now, true, {});
      assert {} - {id} == {};
      RefreshedStore(ss, sessions, id, now, true);
      StillStore(table, ss, sessions, pending, accepts, maxRxQueue);
    }

    /**
     Send a datagram of `total` bytes from a session of address family `family` to a remote of family `to`.  One that is
     refused at once does not count as activity; one that the fragmenter refuses does.
     */
    method StartSend(id: int, family: nat, to: nat, total: nat, mtu: nat, now: nat) returns (r: Outgoing)
      requires Valid() && Punctual(now)
      modifies `sessions, `heap, `waiting, `target, `clock
      ensures Valid() && r == (if id in old(sessions) then Outcome(family, to, total, mtu) else BadDescriptor)
      ensures !r.Counts() ==> sessions == old(sessions) && heap == old(heap) && waiting == old(waiting) && target == old(target)
      ensures r.Counts() ==>
                id in old(sessions) && clock == now && sessions == old(sessions)[id := Refreshed(old(sessions)[id], now, true)]
      ensures account.used - RxTotal(sessions) == old(account.used - RxTotal(sessions))
    {
      hide RxTotal, Valid, TargetOf, SameStore, Refreshed;
      if id !in sessions {
        return BadDescriptor;
      }
      if family != to {
        return WrongFamily;
      }
      if UDP_HEADER + total > 65535 {
        return TooLong;
      }
      var header := IpHeader(family) + UDP_HEADER;
      var payload := if mtu > header then mtu - header else 0;
      var oversized := total > payload;
      if oversized && family != 4 {
        return TooLong;
      }
      Active(id, now);
      if oversized {
        return if MaxPayload(mtu) < UDP_HEADER then NoFragments else InFragments;
      }
      return InOne;
    }

    /** Replace a session by one with the same timers. */
    method Put(id: int, s: Session)
      requires MemSound() && Store() && Timers() && id in sessions && SameTimers(sessions[id], s) && QueueSound(s, maxRxQueue)
      requires RxTotal(sessions) - sessions[id].rxBytes + s.rxBytes <= account.used && s.key == sessions[id].key
      modifies `sessions
      ensures Valid() && sessions == old(sessions)[id := s]
      ensures RxTotal(sessions) == old(RxTotal(sessions)) - old(sessions)[id].rxBytes + s.rxBytes
    {
      hide RxTotal, HeapSound, QueueSound;
      TotalUpdate(sessions, id, s);
      Touch(sessions, heap, id, s, next, {});
      PutStore(table, sessions, pending, accepts, id, s, maxRxQueue);
      hide TableSound, AcceptSound, QueuesSound;
      sessions := sessions[id := s];
    }

    lemma SessionQueue(id: int)
      requires Store() && id in sessions
      ensures QueueSound(sessions[id], maxRxQueue)
    {
    }

    /** A datagram goes to the longest waiting read, or into the queue if there is room. */
    method TakeIn(id: int, d: Datagram)
      requires Valid() && id in sessions
      modifies `sessions, account
      ensures Valid() && id in sessions && sessions == old(sessions)[id := sessions[id]]
      ensures SameTimers(old(sessions)[id], sessions[id])
      ensures account.used - RxTotal(sessions) == old(account.used - RxTotal(sessions))
      ensures sessions[id] == Arrived(old(sessions)[id], d, maxRxQueue, account.limit - old(account.used))
      ensures var s := old(sessions)[id];
              sessions[id] ==
                if s.waiters != [] then
                  s.(waiters := s.waiters[1..], got := s.got + [d],
                     given := s.given + [Datagram(d.data[..Min(|d.data|, s.waiters[0])], d.sender)])
                else if s.rxBytes + |d.data| <= maxRxQueue && old(account.used) + |d.data| <= account.limit then
                  s.(rx := s.rx + [d], rxBytes := s.rxBytes + |d.data|, got := s.got + [d])
                else s
    {
      hide RxTotal, HeapSound, QueueSound, TableSound, AcceptSound, QueuesSound, Armed, TimesSound;
      var s := sessions[id];
      SessionQueue(id);
      TotalUpdate(sessions, id, s);
      if s.waiters != [] {
        HandedOverSound(s, d, maxRxQueue);
        Put(id, HandedOver(s, d));
        return;
      }
      if s.rxBytes + |d.data| > maxRxQueue {
        return;
      }
      var ok := account.Reserve(|d.data|);
      if ok {
        EnqueuedSound(s, d, maxRxQueue);
        Put(id, Enqueued(s, d));
      }
    }

    /** A datagram of a session that exists. */
    method Deliver(id: int, d: Datagram, now: nat)
      requires Valid() && Punctual(now) && id in sessions
      modifies `sessions, `heap, `waiting, `target, `clock, account
      ensures Valid() && clock == now
      ensures sessions == old(sessions)[id := Arrived(Refreshed(old(sessions)[id], now, true), d, maxRxQueue,
                                                      account.limit - old(account.used))]
      ensures (waiting == old(waiting) && target == old(target)) || TargetOf(sessions, target, {})
      ensures Throttled(old(sessions)[id], now) ==> waiting == old(waiting) && target == old(target)
      ensures account.used - RxTotal(sessions) == old(account.used - RxTotal(sessions))
    {
      hide RxTotal, HeapSound, QueueSound, TableSound, AcceptSound, QueuesSound, Armed, TimesSound, SameStore, Refreshed;
      hide Arrived, TargetOf;
      Active(id, now);
      ghost var ss := sessions;
      TakeIn(id, d);
      SameTargets(ss, sessions, id, target);
    }

    /** A read: the first queued datagram, or the end of the line. */
    method StartReceive(id: int, total: nat) returns (ok: bool)
      requires Valid()
      modifies `sessions, account
      ensures Valid() && ok == (id in old(sessions)) && sessions.Keys == old(sessions).Keys
      ensures account.used - RxTotal(sessions) == old(account.used - RxTotal(sessions))
      ensures !ok ==> sessions == old(sessions)
      ensures ok && old(sessions)[id].rx == [] ==>
                sessions == old(sessions)[id := old(sessions)[id].(waiters := old(sessions)[id].waiters + [total],
                                                                   asked := old(sessions)[id].asked + [total])]
      ensures ok && old(sessions)[id].rx != [] ==>
                id in sessions && sessions == old(sessions)[id := sessions[id]] && ReadFirst(old(sessions)[id], sessions[id], total)
    {
      hide RxTotal, HeapSound, QueueSound, TableSound, AcceptSound, QueuesSound, Armed, TimesSound, ReadFirst;
      ok := id in sessions;
      if !ok {
        return;
      }
      var s := sessions[id];
      SessionQueue(id);
      TotalUpdate(sessions, id, s);
      if s.rx == [] {
        WaitSound(s, total, maxRxQueue);
        Put(id, s.(waiters := s.waiters + [total], asked := s.asked + [total]));
        return;
      }
      PoppedSound(s, total, maxRxQueue);
      Put(id, Popped(s, total));
      account.Release(|s.rx[0].data|);
    }

    /** A new session, with its first entry. */
    method Open(key: int, now: nat) returns (id: int)
      requires Valid() && Punctual(now) && key !in table && |table| < maxFlows
      modifies `sessions, `table, `next, `heap, `waiting, `target, `clock
      ensures Valid() && Punctual(now) && clock == now && id in sessions && id !in old(sessions)
      ensures sessions == old(sessions)[id := Refreshed(Blank(key, idleTimeout, now), now, true)]
      ensures key in table && table[key] == id
      ensures (waiting == old(waiting) && target == old(target)) || TargetOf(sessions, target, {})
      ensures account.used - RxTotal(sessions) == old(account.used - RxTotal(sessions))
    {
      hide RxTotal, HeapSound, QueueSound, TableSound, AcceptSound, QueuesSound, Armed, TimesSound, SameStore, Still;
      Soon(sessions, heap, next, waiting, target, clock, now, lag);
      var s := Blank(key, idleTimeout, now);
      id := next;
      NewSound(table, sessions, heap, next, pending, accepts, s, now, lag, maxRxQueue);
      TotalAdd(sessions, id, s);
      sessions, table, next, clock := sessions[id := s], table[key := id], next + 1, now;
      ghost var ss := sessions;
      Refresh(id, now, true, {id});
      assert {id} - {id} == {};
      RefreshedStore(ss, sessions, id, now, true);
      StillStore(table, ss, sessions, pending, accepts, maxRxQueue);
    }

    /** A new session takes its first datagram. */
    method Welcome(key: int, d: Datagram, now: nat) returns (id: int)
      requires Valid() && Punctual(now) && key !in table && |table| < maxFlows
      modifies `sessions, `table, `next, `heap, `waiting, `target, `clock, account
      ensures Valid() && clock == now && id !in old(sessions) && key in table && table[key] == id
      ensures sessions == old(sessions)[id := First(key, d, now, account.limit - old(account.used))]
      ensures (waiting == old(waiting) && target == old(target)) || TargetOf(sessions, target, {})
      ensures account.used - RxTotal(sessions) == old(account.used - RxTotal(sessions))
    {
      hide RxTotal, HeapSound, QueueSound, TableSound, AcceptSound, QueuesSound, Armed, TimesSound, SameStore, Refreshed;
      hide Arrived, TargetOf;
      id := Open(key, now);
      ghost var ss := sessions;
      TakeIn(id, d);
      SameTargets(ss, sessions, id, target);
      ss := sessions;
      Active(id, now);
      Again(ss, sessions, id, key, d, idleTimeout, now, maxRxQueue, account.limit - old(account.used));
    }

    /** A session that was just made for a datagram. */
    ghost function First(key: int, d: Datagram, now: nat, room: int): Session {
      Arrived(Refreshed(Blank(key, idleTimeout, now), now, true), d, maxRxQueue, room)
    }

    /** It has the engine's idle timeout from now on, one entry for that time, and the datagram if that fits. */
    lemma FirstSession(key: int, d: Datagram, now: nat, room: int)
      ensures var s := First(key, d, now, room);
              && s.key == key && s.timeout == idleTimeout && s.expiry == s.entryAt == now + idleTimeout
              && s.live && s.lastPush == s.lastActivity == now
              && s.got == s.rx == (if |d.data| <= maxRxQueue && |d.data| <= room then [d] else [])
              && s.given == [] && s.asked == s.waiters == []
    {
    }

    /** A UDP datagram from the client with key `key`. */
    method OnPacket(key: int, d: Datagram, now: nat)
      requires Valid() && Punctual(now)
      modifies `sessions, `table, `next, `heap, `waiting, `target, `clock, `pending, `accepts, account
      ensures Valid() && account.used - RxTotal(sessions) == old(account.used - RxTotal(sessions))
      ensures old(key in table) ==>
                && clock == now && accepts == old(accepts) && pending == old(pending)
                && old(table[key] in sessions) && table == old(table)
                && sessions == old(sessions)[table[key] := Arrived(Refreshed(old(sessions)[table[key]], now, true), d, maxRxQueue,
                                                                   account.limit - old(account.used))]
                && (Throttled(old(sessions)[table[key]], now) ==> waiting == old(waiting) && target == old(target))
      ensures old(key !in table && (|table| >= maxFlows || (accepts == 0 && |pending| >= MAX_PENDING))) ==> sessions == old(sessions)
      ensures old(key !in table && |table| < maxFlows && (accepts > 0 || |pending| < MAX_PENDING)) ==>
                && key in table && table[key] !in old(sessions) && clock == now
                && sessions == old(sessions)[table[key] := First(key, d, now, account.limit - old(account.used))]
                && (if old(accepts) > 0 then accepts == old(accepts) - 1 && pending == old(pending)
                    else pending == old(pending) + [table[key]] && accepts == old(accepts))
      ensures (waiting == old(waiting) && target == old(target)) || TargetOf(sessions, target, {})
    {
      hide RxTotal, HeapSound, QueueSound, TableSound, AcceptSound, QueuesSound, Armed, TimesSound, First, Refreshed, Arrived, TargetOf;
      if key in table {
        TableHas(table, sessions, key);
        Deliver(table[key], d, now);
        return;
      }
      if |table| >= maxFlows {
        return;
      }
      if accepts == 0 && |pending| >= MAX_PENDING {
        return;
      }
      var id := Welcome(key, d, now);
      NewAccept(table, pending, accepts, old(sessions), sessions, id);
      if accepts > 0 {
        accepts := accepts - 1;
      } else {
        pending := pending + [id];
      }
    }

    /** Wait for a new session, or take the oldest one that waits. */
    method AsyncAccept() returns (r: Option<int>)
      requires Valid()
      modifies `pending, `accepts
      ensures Valid()
      ensures if old(pending) == [] then r == None && accepts == old(accepts) + 1 && pending == []
              else r == Some(old(pending)[0]) && r.value in sessions && pending == old(pending)[1..] && accepts == old(accepts)
    {
      hide RxTotal, HeapSound, QueueSound, TableSound, QueuesSound, Armed, TimesSound;
      if pending != [] {
        r := Some(pending[0]);
        pending := pending[1..];
      } else {
        r := None;
        accepts := accepts + 1;
      }
    }

    /** The application closes a session. */
    method Close(id: int)
      requires Valid()
      modifies `sessions, `table, `pending, account
      ensures Valid() && sessions == old(sessions) - {id}
      ensures account.used - RxTotal(sessions) == old(account.used - RxTotal(sessions))
    {
      hide RxTotal, HeapSound, QueueSound, TableSound, AcceptSound, QueuesSound;
      if id in sessions {
        Removed(sessions, heap, id, next, {});
        Remove(id);
      } else {
        assert sessions - {id} == sessions;
      }
    }

    /** The engine closes: no session, no entry, no byte of the budget is left. */
    method CloseAll()
      requires Valid()
      modifies `sessions, `table, `pending, `accepts, `heap, `waiting, account
      ensures Valid() && sessions == map[] && heap == multiset{} && pending == [] && accepts == 0 && !waiting
      ensures account.used == old(account.used - RxTotal(sessions))
    {
      hide RxTotal, HeapSound, QueueSound, TableSound, AcceptSound, QueuesSound, Armed, TimesSound;
      waiting := false;
      ghost var left := account.used - RxTotal(sessions);
      while |sessions| > 0
        invariant MemSound() && Store() && account.used - RxTotal(sessions) == left && !waiting
        decreases |sessions|
      {
        SomeKey(sessions);
        var id :| id in sessions;
        ghost var ss := sessions;
        Remove(id);
        Smaller(ss, id);
      }
      assert sessions == map[];
      NothingLeft(table, pending, accepts, next, clock, lag, maxRxQueue);
      pending, accepts, heap := [], 0, multiset{};
    }

    /** While a session is open the timer runs, and no later than its entry. */
    lemma ArmedFor(id: int)
      requires Valid() && id in sessions
      ensures waiting && target <= sessions[id].entryAt
    {
      hide TableSound, AcceptSound, QueuesSound, TimesSound, RxTotal;
      assert Listed(heap, id, sessions[id], next, {});
      assert Entry(sessions[id].entryAt, sessions[id].gen, id) in heap;
    }

    /** A session does not expire before it was idle for its timeout. */
    lemma NeverEarly(id: int)
      requires Valid() && id in sessions
      ensures sessions[id].lastActivity + sessions[id].timeout <= sessions[id].expiry
    {
      hide HeapSound, Armed;
      assert Timed(sessions[id], clock, lag);
    }

    /** While timers are punctual, no session outlives its last packet by more than two timeouts. */
    lemma IdleBound(now: nat, id: int)
      requires Valid() && Punctual(now) && id in sessions
      ensures now <= sessions[id].lastActivity + 2 * sessions[id].timeout + 2 * lag
      ensures sessions[id].expiry >= sessions[id].lastActivity + sessions[id].timeout
    {
      Soon(sessions, heap, next, waiting, target, clock, now, lag);
      hide HeapSound, Armed;
      assert Timed(sessions[id], now, lag);
    }

    /** Give every session in `extended` a new entry, one timeout from now. */
    method Renew(extended: seq<int>, now: nat)
      requires HeapSound(sessions, heap, next, Members(extended)) && TimesSound(sessions, now, lag)
      requires forall i, j :: 0 <= i < j < |extended| ==> extended[i] != extended[j]
      requires Extendable(sessions, Members(extended), now, lag) && !waiting
      modifies `sessions, `heap, `waiting, `target
      ensures HeapSound(sessions, heap, next, {}) && TimesSound(sessions, now, lag)
      ensures Armed(sessions, heap, waiting, target)
      ensures Renewed(old(sessions), sessions, Members(extended), {}, now)
      ensures waiting ==> TargetOf(sessions, target, {})
    {
      hide HeapSound, Armed, Renewed, TimesSound, Extendable, TargetOf;
      RenewStart(sessions, Members(extended), now, lag);
      for i := 0 to |extended|
        invariant HeapSound(sessions, heap, next, Members(extended[i..])) && TimesSound(sessions, now, lag)
        invariant Renewed(old(sessions), sessions, Members(extended), Members(extended[i..]), now)
        invariant waiting ==> TargetOf(sessions, target, Members(extended[i..]))
      {
        ghost var ss := sessions;
        MembersNext(extended, i);
        RenewMay(old(sessions), sessions, Members(extended), Members(extended[i..]), now, lag, extended[i]);
        NotLive(sessions, heap, next, Members(extended[i..]), extended[i]);
        Refresh(extended[i], now, false, Members(extended[i..]));
        RenewOne(old(sessions), ss, sessions, Members(extended), Members(extended[i..]), now, extended[i]);
        if TargetOf(ss, target, Members(extended[i..])) { StillTarget(ss, sessions, extended[i], target, Members(extended[i..])); }
      }
      assert Members(extended[|extended|..]) == {};
      Arm({});
    }

    /** The expiry timer: close every session whose time is over, and give the others a new entry. */
    method OnTimer(now: nat)
      requires Valid() && Punctual(now) && waiting && target <= now
      modifies `sessions, `table, `pending, `heap, `waiting, `target, `clock, account
      ensures Valid() && clock == now
      ensures Expired(old(sessions), sessions, now) && (waiting ==> TargetOf(sessions, target, {}))
      ensures account.used - RxTotal(sessions) == old(account.used - RxTotal(sessions))
    {
      hide HeapSound, TableSound, AcceptSound, QueuesSound, RxTotal, Armed, Draining, Renewed, TimesSound, Extendable, Expired, TargetOf;
      hide SameStore, Still, Members;
      ghost var ss0, h0 := sessions, heap;
      Soon(sessions, heap, next, waiting, target, clock, now, lag);
      waiting, clock := false, now;
      var extended := Drain(now);
      ghost var ss1, h1 := sessions, heap;
      DrainDone(ss0, ss1, h1, next, Members(extended), now, lag);
      Renew(extended, now);
      ExpiredAll(ss0, ss1, sessions, Members(extended), now);
      StillStore(table, ss1, sessions, pending, accepts, maxRxQueue);
    }
  }

  ghost predicate Extendable(ss: Sessions, out: set<int>, now: nat, lag: nat) {
    forall id :: id in out ==>
      id in ss && now <= ss[id].entryAt + lag && ss[id].entryAt <= ss[id].lastActivity + ss[id].timeout
  }

  /** Sessions in `out` but not in `rest` have a new entry and a new expiry; nothing else has changed. */
  ghost predicate Renewed(ss0: Sessions, ss: Sessions, out: set<int>, rest: set<int>, now: nat) {
    && SameStore(ss0, ss)
    && (forall id :: id in ss ==> ss[id].lastActivity == ss0[id].lastActivity && ss[id].timeout == ss0[id].timeout)
    && (forall id :: id in ss && (id in rest || id !in out) ==> ss[id] == ss0[id])
    && (forall id :: id in ss && id in out && id !in rest ==> ss[id].expiry == ss[id].entryAt == now + ss[id].timeout)
  }

  /** The timer closes exactly the sessions whose expiry has passed, and starts anew those whose entry was too early. */
  ghost predicate Expired(ss0: Sessions, ss: Sessions, now: nat) {
    && (forall id :: id in ss <==> id in ss0 && ss0[id].expiry > now)
    && (forall id :: id in ss ==>
          && Still(ss[id]) == Still(ss0[id])
          && ss[id].lastActivity == ss0[id].lastActivity && ss[id].timeout == ss0[id].timeout
          && (if ss0[id].entryAt <= now then ss[id].expiry == ss[id].entryAt == now + ss0[id].timeout
              else ss[id].expiry == ss0[id].expiry && ss[id].entryAt == ss0[id].entryAt))
  }

  /**
   A session that the timer extends overstays its idle timeout, unless its last packet came at this very moment: the
   new expiry counts from the timer run and not from the packet.
   */
  lemma Overstays(ss0: Sessions, ss: Sessions, now: nat, id: int)
    requires Expired(ss0, ss, now) && id in ss && ss0[id].entryAt <= now && ss0[id].lastActivity <= now
    ensures ss[id].expiry == ss0[id].lastActivity + ss0[id].timeout <==> ss0[id].lastActivity == now
    ensures ss[id].expiry >= ss0[id].lastActivity + ss0[id].timeout
  {
  }

  lemma NotLive(ss: Sessions, heap: Heap, next: int, out: set<int>, id: int)
    requires HeapSound(ss, heap, next, out) && id in ss && id in out
    ensures !ss[id].live
  {
    assert Listed(heap, id, ss[id], next, out);
  }

  /** The session of an entry that counts is not in `out`, and the entry is at its time. */
  lemma CurrentOut(ss: Sessions, heap: Heap, e: Entry, next: int, out: set<int>)
    requires HeapSound(ss, heap, next, out) && e in heap && Current(ss, e)
    ensures e.id !in out && ss[e.id].entryAt == e.at
  {
    assert Listed(heap, e.id, ss[e.id], next, out);
  }

  lemma StillTarget(ss: Sessions, ss': Sessions, id: int, t: nat, out: set<int>)
    requires TargetOf(ss, t, out) && id in out && id in ss' && ss' == ss[id := ss'[id]]
    ensures TargetOf(ss', t, out - {id})
  {
    var j :| j in ss && j !in out && ss[j].entryAt == t;
    assert j in ss' && j !in out - {id} && ss'[j].entryAt == t;
  }

  lemma SameTargets(ss: Sessions, ss': Sessions, id: int, t: nat)
    requires id in ss && id in ss' && ss' == ss[id := ss'[id]] && ss'[id].entryAt == ss[id].entryAt
    ensures TargetOf(ss, t, {}) ==> TargetOf(ss', t, {})
  {
    if TargetOf(ss, t, {}) {
      var j :| j in ss && j !in {} && ss[j].entryAt == t;
      assert j in ss' && ss'[j].entryAt == t;
    }
  }

  /** Refreshing a new session once more changes nothing. */
  lemma Again(ss: Sessions, ss': Sessions, id: int, key: int, d: Datagram, timeout: nat, now: nat, cap: nat, room: int)
    requires id in ss && ss[id] == Arrived(Refreshed(Blank(key, timeout, now), now, true), d, cap, room)
    requires ss' == ss[id := Refreshed(ss[id], now, true)]
    ensures ss' == ss
  {
    assert Refreshed(ss[id], now, true) == ss[id];
  }

  lemma RenewStart(ss: Sessions, out: set<int>, now: nat, lag: nat)
    ensures Renewed(ss, ss, out, out, now)
  {
  }

  lemma MembersNext(q: seq<int>, i: nat)
    requires i < |q| && forall i, j :: 0 <= i < j < |q| ==> q[i] != q[j]
    ensures q[i] in Members(q[i..]) && Members(q[i + 1..]) == Members(q[i..]) - {q[i]} && Members(q[i..]) <= Members(q)
  {
    assert q[i..] == [q[i]] + q[i + 1..];
  }

  lemma RenewMay(ss0: Sessions, ss: Sessions, out: set<int>, rest: set<int>, now: nat, lag: nat, id: int)
    requires Renewed(ss0, ss, out, rest, now) && Extendable(ss0, out, now, lag) && id in rest && rest <= out
    ensures id in ss && now <= ss[id].entryAt + lag && ss[id].entryAt <= ss[id].lastActivity + ss[id].timeout
    ensures rest != {}
  {
  }

  lemma RenewOne(ss0: Sessions, ss: Sessions, ss': Sessions, out: set<int>, rest: set<int>, now: nat, id: int)
    requires Renewed(ss0, ss, out, rest, now) && id in rest && rest <= out && id in ss && id in ss' && ss' == ss[id := ss'[id]]
    requires ss'[id] == Refreshed(ss[id], now, false) && !ss[id].live
    ensures Renewed(ss0, ss', out, rest - {id}, now)
  {
    forall j | j in ss' ensures Still(ss0[j]) == Still(ss'[j]) {
      assert Still(ss0[j]) == Still(ss[j]);
    }
  }

  lemma Soon(ss: Sessions, heap: Heap, next: int, waiting: bool, target: nat, clock: nat, now: nat, lag: nat)
    requires HeapSound(ss, heap, next, {}) && Armed(ss, heap, waiting, target) && TimesSound(ss, clock, lag)
    requires clock <= now && (waiting ==> now <= target + lag)
    ensures TimesSound(ss, now, lag) && forall id :: id in ss ==> now <= ss[id].entryAt + lag
  {
    forall id | id in ss
      ensures now <= ss[id].entryAt + lag
    {
      assert Listed(heap, id, ss[id], next, {});
      assert Entry(ss[id].entryAt, ss[id].gen, id) in heap;
    }
  }

  lemma DrainDone(ss0: Sessions, ss: Sessions, heap: Heap, next: int, out: set<int>, now: nat, lag: nat)
    requires Draining(ss0, ss, out, now) && TimesSound(ss0, now, lag) && HeapSound(ss, heap, next, out)
    requires forall id :: id in ss0 ==> now <= ss0[id].entryAt + lag
    requires forall e :: e in heap ==> e.at > now
    ensures TimesSound(ss, now, lag) && Extendable(ss, out, now, lag)
    ensures forall id :: id in ss ==> ss[id].expiry > now
    ensures forall id :: id in ss ==> (id in out <==> ss[id].entryAt <= now)
  {
    forall id | id in ss
      ensures Timed(ss[id], now, lag) && ss[id].expiry > now && (id in out <==> ss[id].entryAt <= now)
    {
      assert Timed(ss0[id], now, lag);
      assert Listed(heap, id, ss[id], next, out);
      if id !in out { assert Entry(ss[id].entryAt, ss[id].gen, id) in heap; }
    }
  }

  lemma ExpiredAll(ss0: Sessions, ss1: Sessions, ss: Sessions, out: set<int>, now: nat)
    requires Draining(ss0, ss1, out, now) && Renewed(ss1, ss, out, {}, now)
    requires forall id :: id in ss1 ==> ss1[id].expiry > now && (id in out <==> ss1[id].entryAt <= now)
    ensures Expired(ss0, ss, now) && SameStore(ss1, ss)
  {
  }

  ghost function Members(q: seq<int>): set<int> {
    set x | x in q
  }

  predicate SameTimers(s: Session, t: Session) {
    && t.timeout == s.timeout && t.expiry == s.expiry && t.gen == s.gen && t.lastPush == s.lastPush
    && t.live == s.live && t.lastActivity == s.lastActivity && t.entryAt == s.entryAt
  }

  lemma PutStore(table: map<int, int>, ss: Sessions, pending: seq<int>, accepts: nat, id: int, s: Session, cap: nat)
    requires TableSound(table, ss) && AcceptSound(pending, accepts, ss) && QueuesSound(ss, cap)
    requires id in ss && s.key == ss[id].key && QueueSound(s, cap)
    ensures TableSound(table, ss[id := s]) && AcceptSound(pending, accepts, ss[id := s]) && QueuesSound(ss[id := s], cap)
  {
    hide QueueSound;
  }

  /** What becomes of a session when a datagram arrives and `room` bytes of the budget are free. */
  function Arrived(s: Session, d: Datagram, cap: nat, room: int): Session {
    if s.waiters != [] then HandedOver(s, d)
    else if s.rxBytes + |d.data| <= cap && |d.data| <= room then Enqueued(s, d)
    else s
  }

  lemma WaitSound(s: Session, total: nat, cap: nat)
    requires QueueSound(s, cap) && s.rx == []
    ensures QueueSound(s.(waiters := s.waiters + [total], asked := s.asked + [total]), cap)
  {
  }

  lemma NewSound(table: map<int, int>, ss: Sessions, heap: Heap, next: int, pending: seq<int>, accepts: nat, s: Session,
                 now: nat, lag: nat, cap: nat)
    requires TableSound(table, ss) && AcceptSound(pending, accepts, ss) && QueuesSound(ss, cap)
    requires HeapSound(ss, heap, next, {}) && TimesSound(ss, now, lag) && s.key !in table
    requires s.gen == 0 && !s.live && Timed(s, now, lag) && s.rx == [] && s.rxBytes == 0 && s.got == [] && s.given == []
    requires s.asked == [] == s.waiters
    ensures next !in ss && |table[s.key := next]| == |table| + 1
    ensures HeapSound(ss[next := s], heap, next + 1, {next}) && TimesSound(ss[next := s], now, lag)
    ensures TableSound(table[s.key := next], ss[next := s]) && AcceptSound(pending, accepts, ss[next := s])
    ensures QueuesSound(ss[next := s], cap)
  {
    assert QueueSound(s, cap);
    hide *;
    NewHeap(ss, heap, next, s);
    NewTable(table, ss, next, s);
    NewTimes(ss, next, s, now, lag);
    NewQueues(ss, next, s, pending, accepts, cap);
  }

  lemma NewHeap(ss: Sessions, heap: Heap, next: int, s: Session)
    requires HeapSound(ss, heap, next, {}) && s.gen == 0 && !s.live
    ensures next !in ss && HeapSound(ss[next := s], heap, next + 1, {next})
  {
    hide OneEntry;
    forall id | id in ss ensures id < next && Listed(heap, id, ss[id], next + 1, {next}) {
      assert Listed(heap, id, ss[id], next, {});
    }
    assert Listed(heap, next, s, next + 1, {next});
  }

  lemma NewTable(table: map<int, int>, ss: Sessions, id: int, s: Session)
    requires TableSound(table, ss) && s.key !in table && id !in ss
    ensures TableSound(table[s.key := id], ss[id := s]) && |table[s.key := id]| == |table| + 1
  {
  }

  lemma NewTimes(ss: Sessions, id: int, s: Session, now: nat, lag: nat)
    requires TimesSound(ss, now, lag) && Timed(s, now, lag)
    ensures TimesSound(ss[id := s], now, lag)
  {
    hide Timed;
  }

  lemma NewQueues(ss: Sessions, id: int, s: Session, pending: seq<int>, accepts: nat, cap: nat)
    requires QueuesSound(ss, cap) && QueueSound(s, cap) && AcceptSound(pending, accepts, ss)
    ensures QueuesSound(ss[id := s], cap) && AcceptSound(pending, accepts, ss[id := s])
  {
    hide QueueSound, Distinct;
  }

  lemma RefreshedStore(ss: Sessions, ss': Sessions, id: int, now: nat, active: bool)
    requires id in ss && ss' == ss[id := Refreshed(ss[id], now, active)]
    ensures SameStore(ss, ss')
  {
  }

  lemma TableHas(table: map<int, int>, ss: Sessions, key: int)
    requires TableSound(table, ss) && key in table
    ensures table[key] in ss && ss[table[key]].key == key
  {
  }

  lemma NewAccept(table: map<int, int>, pending: seq<int>, accepts: nat, ss0: Sessions, ss: Sessions, id: int)
    requires AcceptSound(pending, accepts, ss0) && ss.Keys == ss0.Keys + {id} && id !in ss0 && TableSound(table, ss)
    ensures accepts > 0 ==> AcceptSound(pending, accepts - 1, ss)
    ensures accepts == 0 && |pending| < MAX_PENDING ==> AcceptSound(pending + [id], accepts, ss)
    ensures ss[id].key in table && table[ss[id].key] == id
  {
  }

  lemma SomeKey(ss: Sessions)
    requires |ss| > 0
    ensures exists id :: id in ss
  {
    Inhabited(ss.Keys);
    assert |ss.Keys| == |ss|;
  }

  lemma Smaller(ss: Sessions, id: int)
    requires id in ss
    ensures |ss - {id}| < |ss|
  {
    assert (ss - {id}).Keys == ss.Keys - {id};
  }

  lemma NothingLeft(table: map<int, int>, pending: seq<int>, accepts: nat, next: int, clock: nat, lag: nat, cap: nat)
    requires TableSound(table, map[]) && AcceptSound(pending, accepts, map[])
    ensures HeapSound(map[], multiset{}, next, {}) && TimesSound(map[], clock, lag)
    ensures AcceptSound([], 0, map[]) && RxTotal(map[]) == 0
    ensures forall t :: Armed(map[], multiset{}, false, t)
  {
    assert Sizes(map[]) == map[];
  }

  /** A session without its timers. */
  function Still(s: Session): Session {
    s.(timeout := 0, expiry := 0, gen := 0, lastPush := 0, live := false, lastActivity := 0, entryAt := 0)
  }

  ghost predicate SameStore(ss: Sessions, ss': Sessions) {
    ss.Keys == ss'.Keys && forall id :: id in ss ==> Still(ss[id]) == Still(ss'[id])
  }

  lemma StillStore(table: map<int, int>, ss: Sessions, ss': Sessions, pending: seq<int>, accepts: nat, cap: nat)
    requires TableSound(table, ss) && AcceptSound(pending, accepts, ss) && QueuesSound(ss, cap) && SameStore(ss, ss')
    ensures TableSound(table, ss') && AcceptSound(pending, accepts, ss') && QueuesSound(ss', cap)
    ensures RxTotal(ss') == RxTotal(ss)
  {
    assert Sizes(ss') == Sizes(ss) by {
      forall id | id in ss ensures ss[id].rxBytes == ss'[id].rxBytes { assert Still(ss[id]).rxBytes == Still(ss'[id]).rxBytes; }
    }
    forall id | id in ss'
      ensures QueueSound(ss'[id], cap) && ss'[id].key == ss[id].key
    {
      assert QueueSound(ss[id], cap);
      assert QueueSound(Still(ss[id]), cap);
      assert Still(ss'[id]).key == Still(ss[id]).key;
    }
  }

  lemma StoreRemoved(table: map<int, int>, ss: Sessions, pending: seq<int>, accepts: nat, id: int, cap: nat)
    requires TableSound(table, ss) && AcceptSound(pending, accepts, ss) && QueuesSound(ss, cap) && id in ss
    ensures TableSound(table - {ss[id].key}, ss - {id}) && AcceptSound(Without(pending, id), accepts, ss - {id})
    ensures QueuesSound(ss - {id}, cap) && |table - {ss[id].key}| <= |table|
  {
    WithoutSays(pending, id);
    hide QueueSound, Without;
    assert table == (table - {ss[id].key})[ss[id].key := id];
  }

  /** Where the timer's first loop stands: who is gone, and who gets more time. */
  ghost predicate Draining(ss0: Sessions, ss: Sessions, out: set<int>, now: nat) {
    && (forall id :: id in ss ==> id in ss0 && ss[id] == ss0[id].(live := id !in out))
    && (forall id :: id in ss0 && id !in ss ==> ss0[id].expiry <= now)
    && (forall id :: id in out ==> id in ss && ss[id].entryAt <= now < ss[id].expiry)
  }

  lemma DrainStart(ss: Sessions, heap: Heap, next: int, now: nat)
    requires HeapSound(ss, heap, next, {})
    ensures Draining(ss, ss, {}, now) && Members([]) == {}
  {
    forall id | id in ss ensures ss[id].live { assert Listed(heap, id, ss[id], next, {}); }
  }

  lemma DrainOne(ss0: Sessions, ss: Sessions, out: set<int>, now: nat, id: int)
    requires Draining(ss0, ss, out, now) && id in ss && id !in out && ss[id].entryAt <= now
    ensures ss[id].expiry <= now ==> Draining(ss0, ss - {id}, out, now)
    ensures ss[id].expiry > now ==> Draining(ss0, ss[id := ss[id].(live := false)], out + {id}, now)
    ensures SameStore(ss, ss[id := ss[id].(live := false)])
  {
  }
}
