/** The engine's table of flows: who is accepted, what is counted, and what the shared budget pays for. */
module TcpEngine {
  import opened Bytes
  import opened SeqNum
  import opened Sums
  import opened Accountant
  import opened DelayedAck
  import opened RecvFacts
  import opened TcpFlow
  import TcpSend
  import TcpRun
  import RxQueue
  import SynOptions

  type Flows = map<int, Flow>

  ghost function HeldBy(flows: Flows): map<int, nat>
    reads flows.Values
  {
    map k | k in flows :: flows[k].Held()
  }

  /** One for every flow past the handshake. */
  function Counts(s: State): nat {
    if s in {SynRcvd, SynAckSent, Closed} then 0 else 1
  }

  ghost function CountedBy(flows: Flows): map<int, nat>
    reads flows.Values
  {
    map k | k in flows :: Counts(flows[k].state)
  }

  /** The flows of a table: distinct, on one budget, and open, except that the one in `but` may just have closed. */
  ghost predicate Rows(flows: Flows, account: BufferAccountant, but: set<int>)
    reads flows.Values
  {
    && (forall k :: k in flows ==> Row(flows[k], account) && (k in but || flows[k].state != Closed))
    && (forall k, l :: k in flows && l in flows && k != l ==> flows[k] != flows[l])
  }

  ghost predicate Row(f: Flow, account: BufferAccountant)
    reads f
  {
    f.account == account && f.Local()
  }

  /** Every flow is handed to an acceptor or waits for one, and goes beyond its SYN only when handed over. */
  ghost predicate Queues(flows: Flows, pending: seq<Flow>, acceptors: nat, handed: set<Flow>)
    reads flows.Values
  {
    && (pending == [] || acceptors == 0)
    && (forall i :: 0 <= i < |pending| ==> Owned(flows, pending[i]) && pending[i] !in handed)
    && Distinct(pending)
    && (forall k :: k in flows ==> Placed(flows[k], pending, handed))
  }

  ghost predicate Owned(flows: Flows, f: Flow) {
    exists k :: k in flows && flows[k] == f
  }

  predicate Placed(f: Flow, pending: seq<Flow>, handed: set<Flow>)
    reads f
  {
    f in handed || (f in pending && f.state in {SynRcvd, Closed})
  }

  lemma RowsWithout(flows: Flows, account: BufferAccountant, k: int)
    requires Rows(flows, account, {k}) && k in flows
    ensures flows[k].state == Closed ==> Rows(flows - {k}, account, {})
    ensures flows[k].state != Closed ==> Rows(flows, account, {})
  {
    hide Row;
  }

  lemma OwnedLess(flows: Flows, k: int, x: Flow)
    requires Owned(flows, x) && k in flows && flows[k] != x
    ensures Owned(flows - {k}, x)
  {
    var l :| l in flows && flows[l] == x;
    assert l in flows - {k};
  }

  lemma QueuesWithout(flows: Flows, account: BufferAccountant, k: int, pending: seq<Flow>, acceptors: nat, handed: set<Flow>)
    requires Rows(flows, account, {k}) && k in flows && Queues(flows, pending, acceptors, handed)
    ensures Queues(flows - {k}, Without(pending, flows[k]), acceptors, handed)
  {
    hide Row, Distinct, Owned;
    var f, q := flows[k], Without(pending, flows[k]);
    WithoutSays(pending, f);
    forall i | 0 <= i < |q| ensures Owned(flows - {k}, q[i]) && q[i] !in handed {
      var j :| 0 <= j < |pending| && pending[j] == q[i];
      OwnedLess(flows, k, pending[j]);
    }
    forall l | l in flows - {k} ensures Placed(flows[l], q, handed) {
      assert Placed(flows[l], pending, handed) && flows[l] != f;
    }
  }

  lemma SumsWithout(flows: Flows, k: int)
    requires k in flows && flows[k].state == Closed && flows[k].Held() == 0
    ensures Sum(HeldBy(flows - {k})) == Sum(HeldBy(flows)) && Sum(CountedBy(flows - {k})) == Sum(CountedBy(flows))
  {
    SumWith(HeldBy(flows), k);
    SumWith(CountedBy(flows), k);
    assert HeldBy(flows - {k}) == HeldBy(flows) - {k} && CountedBy(flows - {k}) == CountedBy(flows) - {k};
  }

  /** The flow that a SYN with `data` made: nothing was sent or written, and at most the data was taken in. */
  ghost predicate NewFlow(f: Flow, irs: u32, opts: seq<byte>, data: seq<byte>, finAt: int)
    reads f
  {
    && f.state == SynRcvd && f.irs == irs && f.finAt == finAt && f.acks.out == []
    && (match SynOptions.Scan(opts, None)
        case Some(n) => f.sndWndScale == n && f.rcvWndScale == RCV_WND_SCALE
        case None => f.sndWndScale == f.rcvWndScale == 0)
    && f.accepted <= data && f.writes == [] && f.PeerReached(map[])
  }

  /** It sends from `iss` on, knows the window of the SYN, and took in the data if that fitted. */
  ghost predicate Opened(f: Flow, cfg: Config, iss: u32, wnd: nat, data: seq<byte>, fits: bool)
    reads f
  {
    f.cfg == cfg && f.iss == iss && f.tx == TcpSend.Unsynced(iss, wnd) && f.accepted == if fits then data else []
  }

  /** The control block for a SYN, with the data it carries. */
  method MakeFlow(account: BufferAccountant, cfg: Config, iss: u32, irs: u32, opts: seq<byte>, wnd: nat, data: seq<byte>,
                  ghost finAt: int) returns (f: Flow)
    requires account.Valid() && cfg.mss > 0 && wnd <= 65535
    requires irs + 1 + |data| <= finAt
    modifies account
    ensures fresh(f) && f.Valid() && f.account == account && NewFlow(f, irs, opts, data, finAt)
    ensures Opened(f, cfg, iss, wnd, data, |data| <= cfg.maxRxQueue && old(account.used) + |data| <= account.limit)
    ensures account.Valid() && account.used == old(account.used) + f.Held()
  {
    hide Flow.Valid, RxQueue.Queue.Enqueue, SynOptions.Scan;
    var wscale := SynOptions.WindowScale(opts);
    f := new Flow(cfg, account, iss, irs, wscale, wnd, finAt);
    if data != [] {
      f.TakeSynData(data, map[]);
    }
    f.BudgetValid();
  }

  /** The end of a flow, with or without a reset. */
  method End(f: Flow, reset: bool)
    requires f.Valid()
    modifies f, f.account
    ensures f.Valid() && f.Local() && f.account.Valid() && f.state == Closed
    ensures f.accepted == old(f.accepted) && f.writes == old(f.writes)
    ensures f.account.used == old(f.account.used - f.Held()) && f.Held() == 0
    ensures f.acks.out == old(f.acks.out) + if reset && old(f.state) != Closed then [old(f.Control(f.tx.nxt, RstAck))] else []
  {
    hide Flow.Valid, Flow.Local, Flow.Sent, TcpSend.Quietly, RxQueue.Queue.Clear;
    if reset {
      f.Abort();
    } else {
      f.CloseFlow();
    }
    f.BudgetValid();
    f.Inner();
  }

  class Engine {
    const account: BufferAccountant
    const maxFlows: nat

    var flows: Flows
    var connections: int
    // flows that wait for an acceptor, and acceptors that wait for a flow
    var pending: seq<Flow>
    var acceptors: nat
    // recorded by the model: the flows handed to an acceptor
    var handed: set<Flow>

    /** Bytes held by all flows, and connections past the handshake. */
    ghost predicate Balanced()
      reads this, flows.Values, account
    {
      && account.Valid() && Sum(HeldBy(flows)) <= account.used
      && connections == Sum(CountedBy(flows))
    }

    ghost predicate Valid()
      reads this, flows.Values, account
    {
      Rows(flows, account, {}) && Queues(flows, pending, acceptors, handed) && Balanced()
    }

    constructor (account: BufferAccountant, maxFlows: nat)
      requires account.Valid()
      ensures Valid() && this.account == account && flows == map[] && connections == 0
    {
      this.account, this.maxFlows := account, maxFlows;
      flows, connections, pending, acceptors, handed := map[], 0, [], 0, {};
      new;
      assert HeldBy(map[]) == map[] && CountedBy(map[]) == map[];
    }

    lemma FlowValid(k: int)
      requires Valid() && k in flows
      ensures flows[k].Valid()
    {
      SumWith(HeldBy(flows), k);
    }

    /** A closed flow leaves the table and the queue. */
    method Settle(k: int)
      requires Rows(flows, account, {k}) && k in flows && Queues(flows, pending, acceptors, handed) && Balanced()
      modifies this
      ensures Valid() && flows == (if old(flows[k].state) == Closed then old(flows) - {k} else old(flows))
      ensures Sum(HeldBy(flows)) == old(Sum(HeldBy(flows)))
    {
      hide Row, Queues, HeldBy, CountedBy;
      var f := flows[k];
      RowsWithout(flows, account, k);
      if f.state == Closed {
        RowOf(flows, account, k);
        SumsWithout(flows, k);
        QueuesWithout(flows, account, k, pending, acceptors, handed);
        hide Rows;
        flows, pending := flows - {k}, Without(pending, f);
      }
    }

    /** What a step of one flow does to the sums. */
    lemma Rebalance(k: int, held: map<int, nat>, counted: map<int, nat>, used: nat, before: int)
      requires k in flows && k in held && k in counted && account.Valid()
      requires HeldBy(flows) == held[k := flows[k].Held()] && CountedBy(flows) == counted[k := Counts(flows[k].state)]
      requires Sum(held) <= used && account.used - flows[k].Held() == used - held[k] && before == Sum(counted)
      ensures Sum(HeldBy(flows)) <= account.used
      ensures account.used - Sum(HeldBy(flows)) == used - Sum(held)
      ensures Sum(CountedBy(flows)) == before + Counts(flows[k].state) - counted[k]
    {
      hide HeldBy, CountedBy, Counts;
      SumWith(held, k);
      SumWith(counted, k);
      SumUpdate(held, k, flows[k].Held());
      SumUpdate(counted, k, Counts(flows[k].state));
    }

    /** Everything the engine knew before a step of flow `k`, except about that flow. */
    ghost predicate Apart(k: int, held: map<int, nat>, states: map<int, State>, counted: map<int, nat>)
      reads this, flows.Values
    {
      && k in flows && held.Keys == states.Keys == counted.Keys == flows.Keys
      && (forall l :: l in flows && l != k ==> Same(flows[l], account, held[l], states[l], counted[l]))
      && (forall l, m :: l in flows && m in flows && l != m ==> flows[l] != flows[m])
      && Lined(flows, states, pending, acceptors, handed)
    }

    /** Account for a step of flow `k`, whose connection count was `c`. */
    method Finish(k: int, c: int, ghost held: map<int, nat>, ghost states: map<int, State>, ghost counted: map<int, nat>, ghost used: nat)
      requires Apart(k, held, states, counted) && account.Valid() && flows[k].Valid() && flows[k].account == account
      requires flows[k] in handed || flows[k].state in {SynRcvd, Closed}
      requires Sum(held) <= used && account.used - flows[k].Held() == used - held[k]
      requires connections == Sum(counted) && c == counted[k]
      modifies this
      ensures Valid() && account.used - Sum(HeldBy(flows)) == used - Sum(held)
      ensures flows == (if old(flows[k].state) == Closed then old(flows) - {k} else old(flows))
    {
      hide Flow.Local, Same, Lined, Queues, HeldBy, CountedBy, StatesOf, Counts, Rows;
      var f := flows[k];
      OneStep(flows, k, account, pending, acceptors, handed, held, states, counted);
      RowOf(flows, account, k);
      Rebalance(k, held, counted, used, connections);
      connections := connections + f.counted - c;
      Settle(k);
    }

    /** What is known before a step of flow `k`. */
    lemma Prepare(k: int)
      requires Valid() && k in flows
      ensures Apart(k, HeldBy(flows), StatesOf(flows), CountedBy(flows)) && flows[k].Valid() && flows[k].account == account
      ensures account.used - flows[k].Held() == account.used - HeldBy(flows)[k]
      ensures flows[k].counted == CountedBy(flows)[k] && flows[k].state != Closed
      ensures flows[k] in handed || flows[k].state == SynRcvd
    {
      FlowValid(k);
      OnceHanded(k);
      Before(flows, account, pending, acceptors, handed);
      RowOf(flows, account, k);
      SumsKnow(flows, k);
    }

    /** A segment for a flow of the table. */
    method OnSegment(k: int, g: Arrival, ghost p: int, ghost a: int, ghost stream: seq<byte>, ghost peer: map<int, byte>)
      returns (ghost m: seq<Packet>, ghost o: Scene, ghost out: seq<Packet>)
      requires Valid() && k in flows && flows[k].PeerSound(stream, peer) && flows[k].Honest(g, p, a, stream, peer)
      modifies this, flows[k], account
      ensures Valid() && account.used - Sum(HeldBy(flows)) == old(account.used - Sum(HeldBy(flows)))
      ensures flows == if old(flows[k]).state == Closed then old(flows) - {k} else old(flows)
      ensures var f := old(flows[k]);
              f.state != Closed ==>
                f.Acknowledged(g, old(flows[k].tx), f.tx, old(flows[k].state), old(flows[k].acks.out), m, f.appClosed,
                               old(flows[k].Control(flows[k].tx.OnAck(g.ack).nxt, FinAck)))
      ensures var f := old(flows[k]);
              f.state !in {SynRcvd, SynAckSent, Closed} && (g.data != [] || g.fin) ==>
                Took(o, p, g.data, g.fin, f.Cached(f.rcvPos), f.accepted, f.rcvPos, out < f.acks.out)
      ensures var f := old(flows[k]);
              f.state != Closed ==>
                && Widened(old(flows[k].Standing()), o) && m <= out
                && (old(flows[k].state) != SynAckSent ==> o == old(flows[k].Standing()) && out == m)
      ensures g.rst ==> old(flows[k]).state == Closed
    {
      hide Flow.Standing, Flow.Acknowledged, Widened, Took, Flow.Cached, Flow.Control;
      hide Flow.Valid, Flow.Local, Flow.PeerSound, Flow.PeerReached, Flow.Faithful, Flow.CacheFaithful, Flow.Honest, Flow.Harmless,
           TcpSend.Tx.OnAck, TcpSend.Tx.Drained, TcpSend.Quietly, DelayedAck.ShiftLeft, Flow.Fits, Same, Lined, Queues, Rows, HeldBy, CountedBy, StatesOf;
      var f := flows[k];
      Prepare(k);
      var c := f.counted;
      ghost var held, counted, states, used := HeldBy(flows), CountedBy(flows), StatesOf(flows), account.used;
      m, o, out := f.HandleSegment(g, p, a, stream, peer);
      f.BudgetValid();
      Finish(k, c, held, states, counted, used);
    }

    /** A new flow goes to the longest waiting acceptor, or waits for one. */
    method NotifyAccept(f: Flow)
      requires Rows(flows, account, {}) && Balanced() && Owned(flows, f) && f.state == SynRcvd && f !in handed && f !in pending
      requires Newcomer(flows, f, pending, acceptors, handed)
      modifies this
      ensures Valid() && flows == old(flows) && connections == old(connections)
      ensures if old(acceptors) > 0 then handed == old(handed) + {f} && pending == old(pending) && acceptors == old(acceptors) - 1
              else handed == old(handed) && pending == old(pending) + [f] && acceptors == 0
    {
      hide Rows, HeldBy, CountedBy;
      Welcome(flows, f, pending, acceptors, handed);
      if acceptors > 0 {
        acceptors, handed := acceptors - 1, handed + {f};
      } else {
        pending := pending + [f];
      }
    }

    /** A SYN for a key without a flow: refused silently when the table is full. */
    method OnSyn(key: int, cfg: Config, iss: u32, irs: u32, opts: seq<byte>, wnd: nat, data: seq<byte>, ghost finAt: int)
      requires Valid() && key !in flows && cfg.mss > 0 && wnd <= 65535
      requires irs + 1 + |data| <= finAt
      modifies this, account
      ensures Valid() && account.used - Sum(HeldBy(flows)) == old(account.used - Sum(HeldBy(flows)))
      ensures if |old(flows)| >= maxFlows then flows == old(flows)
              else key in flows && flows == old(flows)[key := flows[key]] && NewFlow(flows[key], irs, opts, data, finAt) && fresh(flows[key])
      ensures |old(flows)| < maxFlows ==>
                Opened(flows[key], cfg, iss, wnd, data, |data| <= cfg.maxRxQueue && old(account.used) + |data| <= account.limit)
    {
      hide Flow.Valid, Flow.Local, Flow.PeerReached, Opened, Same, Lined, Row, HeldBy, CountedBy, StatesOf;
      if |flows| >= maxFlows {
        return;
      }
      var f := MakeFlow(account, cfg, iss, irs, opts, wnd, data, finAt);
      Admit(key, f);
    }

    /** A new SYN for a flow in TIME_WAIT replaces it. */
    method Reopen(key: int, cfg: Config, iss: u32, irs: u32, opts: seq<byte>, wnd: nat, data: seq<byte>, ghost finAt: int)
      requires Valid() && key in flows && flows[key].state == TimeWait
      requires cfg.mss > 0 && wnd <= 65535 && irs + 1 + |data| <= finAt
      modifies this, flows[key], account
      ensures Valid() && account.used - Sum(HeldBy(flows)) == old(account.used - Sum(HeldBy(flows)))
      ensures if |old(flows)| > maxFlows then flows == old(flows) - {key}
              else key in flows && flows == old(flows)[key := flows[key]] && NewFlow(flows[key], irs, opts, data, finAt) && fresh(flows[key])
      ensures |old(flows)| <= maxFlows ==>
                Opened(flows[key], cfg, iss, wnd, data,
                       |data| <= cfg.maxRxQueue && old(account.used - flows[key].Held()) + |data| <= account.limit)
      ensures old(flows[key]).state == Closed
      ensures old(flows[key]).Local() && old(flows[key]).accepted == old(flows[key].accepted)
              && old(flows[key]).writes == old(flows[key].writes)
    {
      hide Valid, HeldBy, Flow.Local, Opened;
      var f := flows[key];
      ghost var fs := flows;
      Evict(key, false);
      Fewer(fs, key);
      OnSyn(key, cfg, iss, irs, opts, wnd, data, finAt);
    }

    /** A flow that holds its share of the budget enters the table. */
    method Admit(key: int, f: Flow)
      requires Rows(flows, account, {}) && Queues(flows, pending, acceptors, handed) && connections == Sum(CountedBy(flows))
      requires key !in flows && f.Valid() && f.account == account && f.state == SynRcvd
      requires !Owned(flows, f) && f !in handed && f !in pending
      requires Sum(HeldBy(flows)) + f.Held() <= account.used
      modifies this
      ensures Valid() && flows == old(flows)[key := f]
      ensures Sum(HeldBy(flows)) == old(Sum(HeldBy(flows))) + f.Held()
    {
      hide Flow.Local, HeldBy, CountedBy;
      f.BudgetValid();
      Admitted(flows, account, key, f, pending, acceptors, handed);
      hide Rows, Newcomer;
      flows := flows[key := f];
      NotifyAccept(f);
    }

    /** Anything that can happen to one flow; what the application does, it does to flows it was given. */
    method OnEvent(k: int, stream: seq<byte>, peer: map<int, byte>, e: TcpRun.Event) returns (peer': map<int, byte>)
      requires Valid() && k in flows && (flows[k] in handed || TcpRun.FromNetwork(e))
      requires flows[k].PeerSound(stream, peer) && TcpSend.Kept(flows[k].writes, peer)
      modifies this, flows[k], account
      ensures Valid() && account.used - Sum(HeldBy(flows)) == old(account.used - Sum(HeldBy(flows)))
      ensures old(flows[k]).PeerSound(stream, peer') && TcpSend.Kept(old(flows[k]).writes, peer')
      ensures flows == if old(flows[k]).state == Closed then old(flows) - {k} else old(flows)
      ensures old(flows[k]).Local() && TcpRun.Settled(old(flows[k]), e)
    {
      hide TcpRun.Happened, TcpRun.Settled;
      hide Flow.Valid, Flow.Local, Flow.PeerSound, TcpSend.Kept, Same, Lined, Queues, Rows, HeldBy, CountedBy, StatesOf;
      var f := flows[k];
      Prepare(k);
      var c := f.counted;
      ghost var held, counted, states, used := HeldBy(flows), CountedBy(flows), StatesOf(flows), account.used;
      peer' := TcpRun.Step(f, stream, peer, e);
      f.BudgetValid();
      f.Inner();
      Finish(k, c, held, states, counted, used);
    }

    /**
     A flow is given up.  The sweep, for one that stayed too long in its state, resets it if it is half-open or was never
     taken by an acceptor.
     */
    method Evict(k: int, sweep: bool)
      requires Valid() && k in flows
      modifies this, flows[k], account
      ensures Valid() && flows == old(flows) - {k} && old(flows[k]).state == Closed
      ensures account.used - Sum(HeldBy(flows)) == old(account.used - Sum(HeldBy(flows)))
      ensures old(flows[k]).Local() && old(flows[k]).accepted == old(flows[k].accepted) && old(flows[k]).writes == old(flows[k].writes)
      ensures account.used == old(account.used - flows[k].Held())
      ensures var f := old(flows[k]);
              f.acks.out == old(flows[k].acks.out) +
                if sweep && (old(f.state) in {SynRcvd, SynAckSent} || (old(f.state) == Established && f !in old(handed)))
                then [old(flows[k].Control(flows[k].tx.nxt, RstAck))] else []
    {
      hide Flow.Valid, Flow.Local, Same, Lined, Queues, Rows, HeldBy, CountedBy, StatesOf, Flow.Sent, TcpSend.Quietly,
           RxQueue.Queue.Clear;
      var f := flows[k];
      Prepare(k);
      var c := f.counted;
      ghost var held, counted, states, used := HeldBy(flows), CountedBy(flows), StatesOf(flows), account.used;
      if sweep && (f.state in {SynRcvd, SynAckSent} || (f.state == Established && f !in handed)) {
        End(f, true);
      } else {
        End(f, false);
      }
      Finish(k, c, held, states, counted, used);
    }

    /** An acceptor takes the oldest waiting flow, or waits. */
    method AsyncAccept() returns (r: Option<Flow>)
      requires Valid()
      modifies this
      ensures Valid() && flows == old(flows) && connections == old(connections)
      ensures if old(pending) == [] then r == None && acceptors == old(acceptors) + 1 && handed == old(handed)
              else r == Some(old(pending)[0]) && r.value !in old(handed) && handed == old(handed) + {r.value}
                   && pending == old(pending)[1..] && Owned(flows, r.value)
    {
      hide Rows, HeldBy, CountedBy;
      if pending == [] {
        acceptors := acceptors + 1;
        return None;
      }
      var f := pending[0];
      TakeFirst(flows, pending, acceptors, handed);
      pending, handed := pending[1..], handed + {f};
      return Some(f);
    }

    /** The engine closes: every flow goes, and its bytes come back. */
    method CloseAll()
      requires Valid()
      modifies this, flows.Values, account
      ensures Valid() && flows == map[] && pending == [] && acceptors == 0 && connections == 0
      ensures account.used == old(account.used - Sum(HeldBy(flows)))
    {
      hide Flow.Valid, Same, Lined, Queues, Rows, HeldBy, CountedBy, StatesOf;
      ghost var rest := account.used - Sum(HeldBy(flows));
      while |flows| > 0
        invariant Valid() && account.used - Sum(HeldBy(flows)) == rest && flows.Values <= old(flows).Values
        decreases |flows|
      {
        AKey(flows);
        var k :| k in flows;
        ghost var fs := flows;
        Evict(k, false);
        Fewer(fs, k);
      }
      assert flows == map[];
      EmptyTable(pending, acceptors, handed);
      acceptors := 0;
    }

    lemma OnceHanded(k: int)
      requires Valid() && k in flows
      ensures flows[k] in handed || flows[k].state == SynRcvd
    {
      assert Placed(flows[k], pending, handed);
    }
  }

  /** All flows but `f` are placed. */
  ghost predicate Newcomer(flows: Flows, f: Flow, pending: seq<Flow>, acceptors: nat, handed: set<Flow>)
    reads flows.Values
  {
    && (pending == [] || acceptors == 0)
    && (forall i :: 0 <= i < |pending| ==> Owned(flows, pending[i]) && pending[i] !in handed)
    && Distinct(pending)
    && (forall k :: k in flows && flows[k] != f ==> Placed(flows[k], pending, handed))
  }

  lemma Welcome(flows: Flows, f: Flow, pending: seq<Flow>, acceptors: nat, handed: set<Flow>)
    requires Newcomer(flows, f, pending, acceptors, handed) && Owned(flows, f) && f.state == SynRcvd
    requires f !in handed && f !in pending
    ensures acceptors > 0 ==> Queues(flows, pending, acceptors - 1, handed + {f})
    ensures acceptors == 0 ==> Queues(flows, pending + [f], acceptors, handed)
  {
    forall k | k in flows ensures Placed(flows[k], pending, handed + {f}) && Placed(flows[k], pending + [f], handed) {
      if flows[k] != f { assert Placed(flows[k], pending, handed); }
    }
  }

  lemma Admitted(flows: Flows, account: BufferAccountant, key: int, f: Flow, pending: seq<Flow>, acceptors: nat, handed: set<Flow>)
    requires Rows(flows, account, {}) && Queues(flows, pending, acceptors, handed)
    requires key !in flows && Row(f, account) && f.state == SynRcvd && !Owned(flows, f)
    ensures Rows(flows[key := f], account, {}) && Newcomer(flows[key := f], f, pending, acceptors, handed) && Owned(flows[key := f], f)
    ensures Sum(HeldBy(flows[key := f])) == Sum(HeldBy(flows)) + f.Held()
    ensures Sum(CountedBy(flows[key := f])) == Sum(CountedBy(flows))
  {
    AdmittedRows(flows, account, key, f);
    AdmittedSums(flows, key, f);
    AdmittedQueue(flows, key, f, pending, acceptors, handed);
    hide *;
  }

  lemma OwnedMore(flows: Flows, key: int, f: Flow, g: Flow)
    requires key !in flows && (Owned(flows, g) || g == f)
    ensures Owned(flows[key := f], g)
  {
    var t := flows[key := f];
    if g == f {
      assert t[key] == g;
    } else {
      var l :| l in flows && flows[l] == g;
      assert t[l] == g;
    }
  }

  lemma AdmittedQueue(flows: Flows, key: int, f: Flow, pending: seq<Flow>, acceptors: nat, handed: set<Flow>)
    requires Queues(flows, pending, acceptors, handed) && key !in flows
    ensures Newcomer(flows[key := f], f, pending, acceptors, handed) && Owned(flows[key := f], f)
  {
    hide Distinct, Owned;
    var t := flows[key := f];
    OwnedMore(flows, key, f, f);
    forall i | 0 <= i < |pending| ensures Owned(t, pending[i]) { OwnedMore(flows, key, f, pending[i]); }
    forall k | k in t && t[k] != f ensures Placed(t[k], pending, handed) {
      assert Placed(flows[k], pending, handed);
    }
  }

  lemma AdmittedRows(flows: Flows, account: BufferAccountant, key: int, f: Flow)
    requires Rows(flows, account, {}) && key !in flows && Row(f, account) && f.state == SynRcvd && !Owned(flows, f)
    ensures Rows(flows[key := f], account, {})
  {
    hide Row;
    var t := flows[key := f];
    forall k, l | k in t && l in t && k != l ensures t[k] != t[l] {
      if k == key { assert flows[l] != f; } else if l == key { assert flows[k] != f; }
    }
  }

  lemma AdmittedSums(flows: Flows, key: int, f: Flow)
    requires key !in flows && f.state == SynRcvd
    ensures Sum(HeldBy(flows[key := f])) == Sum(HeldBy(flows)) + f.Held()
    ensures Sum(CountedBy(flows[key := f])) == Sum(CountedBy(flows))
  {
    hide *;
    HeldWith(flows, key, f);
    CountedWith(flows, key, f);
    SumUpdate(HeldBy(flows), key, f.Held());
    SumUpdate(CountedBy(flows), key, 0);
    SumAbsent(HeldBy(flows), key);
    SumAbsent(CountedBy(flows), key);
  }

  lemma HeldWith(flows: Flows, key: int, f: Flow)
    requires key !in flows
    ensures HeldBy(flows[key := f]) == HeldBy(flows)[key := f.Held()] && key !in HeldBy(flows)
  {
  }

  lemma CountedWith(flows: Flows, key: int, f: Flow)
    requires key !in flows && f.state == SynRcvd
    ensures CountedBy(flows[key := f]) == CountedBy(flows)[key := 0] && key !in CountedBy(flows)
  {
  }

  lemma TakeFirst(flows: Flows, pending: seq<Flow>, acceptors: nat, handed: set<Flow>)
    requires Queues(flows, pending, acceptors, handed) && pending != []
    ensures Queues(flows, pending[1..], acceptors, handed + {pending[0]})
    ensures Owned(flows, pending[0]) && pending[0] !in handed
  {
    assert pending == [pending[0]] + pending[1..];
    forall k | k in flows ensures Placed(flows[k], pending[1..], handed + {pending[0]}) {
      assert Placed(flows[k], pending, handed);
    }
  }

  lemma AKey(flows: Flows)
    requires |flows| > 0
    ensures exists k :: k in flows
  {
    Inhabited(flows.Keys);
    assert |flows.Keys| == |flows|;
  }

  lemma Fewer(flows: Flows, k: int)
    requires k in flows
    ensures |flows - {k}| < |flows| && (flows - {k}).Values <= flows.Values
  {
    assert (flows - {k}).Keys == flows.Keys - {k};
  }

  lemma EmptyTable(pending: seq<Flow>, acceptors: nat, handed: set<Flow>)
    requires Queues(map[], pending, acceptors, handed)
    ensures pending == [] && Queues(map[], [], 0, handed) && Sum(HeldBy(map[])) == 0 && Sum(CountedBy(map[])) == 0
  {
    assert HeldBy(map[]) == map[] && CountedBy(map[]) == map[];
    assert pending != [] ==> Owned(map[], pending[0]);
  }

  lemma SumsKnow(flows: Flows, k: int)
    requires k in flows
    ensures HeldBy(flows).Keys == StatesOf(flows).Keys == CountedBy(flows).Keys == flows.Keys
    ensures HeldBy(flows)[k] == flows[k].Held() && CountedBy(flows)[k] == Counts(flows[k].state)
  {
  }

  ghost function StatesOf(flows: Flows): map<int, State>
    reads flows.Values
  {
    map k | k in flows :: flows[k].state
  }

  /** A step of one flow leaves the others alone. */
  lemma OneStep(flows: Flows, k: int, account: BufferAccountant, pending: seq<Flow>, acceptors: nat, handed: set<Flow>,
                held: map<int, nat>, states: map<int, State>, counted: map<int, nat>)
    requires k in flows && held.Keys == states.Keys == counted.Keys == flows.Keys
    requires forall l :: l in flows && l != k ==> Same(flows[l], account, held[l], states[l], counted[l])
    requires forall l, m :: l in flows && m in flows && l != m ==> flows[l] != flows[m]
    requires Lined(flows, states, pending, acceptors, handed)
    requires Row(flows[k], account) && (flows[k] in handed || flows[k].state in {SynRcvd, Closed})
    ensures Rows(flows, account, {k}) && Queues(flows, pending, acceptors, handed)
    ensures HeldBy(flows) == held[k := flows[k].Held()]
    ensures CountedBy(flows) == counted[k := Counts(flows[k].state)]
  {
    hide Row, Distinct, Counts;
    forall l | l in flows
      ensures Row(flows[l], account) && Placed(flows[l], pending, handed)
      ensures l != k ==> flows[l].state != Closed && flows[l].Held() == held[l] && Counts(flows[l].state) == counted[l]
    {
      if l != k { assert Same(flows[l], account, held[l], states[l], counted[l]); }
    }
  }

  ghost predicate Same(f: Flow, account: BufferAccountant, held: nat, s: State, counted: nat)
    reads f
  {
    Row(f, account) && f.Held() == held && f.state == s != Closed && Counts(s) == counted
  }

  /** The accept queue, with the states that the flows had. */
  ghost predicate Lined(flows: Flows, states: map<int, State>, pending: seq<Flow>, acceptors: nat, handed: set<Flow>) {
    && (pending == [] || acceptors == 0) && states.Keys == flows.Keys
    && (forall i :: 0 <= i < |pending| ==> Owned(flows, pending[i]) && pending[i] !in handed)
    && Distinct(pending)
    && (forall k :: k in flows ==> flows[k] in handed || (flows[k] in pending && states[k] in {SynRcvd, Closed}))
  }

  lemma Before(flows: Flows, account: BufferAccountant, pending: seq<Flow>, acceptors: nat, handed: set<Flow>)
    requires Rows(flows, account, {}) && Queues(flows, pending, acceptors, handed)
    ensures Lined(flows, StatesOf(flows), pending, acceptors, handed)
    ensures forall l :: l in flows ==> Same(flows[l], account, HeldBy(flows)[l], StatesOf(flows)[l], CountedBy(flows)[l])
  {
    hide Row, Distinct, Counts;
    forall l | l in flows
      ensures Same(flows[l], account, HeldBy(flows)[l], StatesOf(flows)[l], CountedBy(flows)[l])
      ensures flows[l] in handed || (flows[l] in pending && StatesOf(flows)[l] in {SynRcvd, Closed})
    {
      assert Row(flows[l], account) && Placed(flows[l], pending, handed);
    }
  }

  lemma RowOf(flows: Flows, account: BufferAccountant, k: int)
    requires k in flows && (Rows(flows, account, {k}) || Rows(flows, account, {}))
    ensures flows[k].account == account && flows[k].Local() && (flows[k].state == Closed ==> flows[k].Held() == 0)
    ensures flows[k].counted == Counts(flows[k].state)
  {
    assert Row(flows[k], account);
    flows[k].ClosedHolds();
  }
}
