/** Whole runs of the stack: any number of TCP connections and UDP sessions on one budget. */
module StackRun {
  import opened Bytes
  import opened Sums
  import opened Stack
  import SeqNum
  import RecvFacts
  import SynOptions
  import TcpSend
  import TcpFlow
  import TcpRun
  import TcpEngine
  import Udp
  import UdpRun

  /** `Syn` opens a connection whose peer will send `stream`, the first `early` bytes of it with the SYN. */
  datatype Event =
    | Syn(key: int, cfg: RecvFacts.Config, iss: SeqNum.u32, irs: SeqNum.u32, opts: seq<byte>, wnd: nat, early: nat, stream: seq<byte>)
    | OnFlow(k: int, e: TcpRun.Event)
    | AcceptFlow
    | GiveUp(k: int, sweep: bool)
    | OnUdp(u: UdpRun.Event)

  /** What every peer sends, and what it holds. */
  datatype Peers = Peers(streams: map<int, seq<byte>>, held: map<int, map<int, byte>>)

  ghost function All(flows: TcpEngine.Flows): set<TcpFlow.Flow> {
    set k | k in flows :: flows[k]
  }

  ghost predicate Fine(f: TcpFlow.Flow, stream: seq<byte>, held: map<int, byte>)
    reads f
  {
    f.PeerSound(stream, held) && TcpSend.Kept(f.writes, held)
  }

  ghost predicate Served(flows: TcpEngine.Flows, p: Peers)
    reads All(flows)
  {
    forall k :: k in flows ==> k in p.streams && k in p.held && Fine(flows[k], p.streams[k], p.held[k])
  }

  lemma Apart(s: Stack)
    requires s.Valid()
    ensures forall k, l :: k in s.tcp.flows && l in s.tcp.flows && k != l ==> s.tcp.flows[k] != s.tcp.flows[l]
  {
    hide Udp.Engine.Valid, TcpEngine.Queues, TcpEngine.Row;
  }

  /** A connection that is over, with what its peer sent and what the peer holds. */
  datatype Past = Past(f: TcpFlow.Flow, stream: seq<byte>, held: map<int, byte>)

  /** It has read its peer's stream, and the peer holds what was written. */
  ghost predicate Over(x: Past)
    reads x.f
  {
    TcpRun.ReadsStream(x.f, x.stream) && TcpSend.Kept(x.f.writes, x.held)
  }

  ghost function Gone(past: seq<Past>): set<TcpFlow.Flow> {
    set i | 0 <= i < |past| :: past[i].f
  }

  /** `left` are the connections that are in `fs0` but not in `fs`, and they ended well. */
  ghost predicate Departed(fs0: TcpEngine.Flows, fs: TcpEngine.Flows, left: seq<Past>)
    reads Gone(left)
  {
    && (forall i :: 0 <= i < |left| ==> Over(left[i]) && left[i].f in All(fs0) && left[i].f !in All(fs))
    && All(fs0) <= All(fs) + Gone(left)
  }

  lemma NoneLeft(fs: TcpEngine.Flows)
    ensures Departed(fs, fs, [])
  {
  }

  lemma OneMore(fs0: TcpEngine.Flows, k: int, fs: TcpEngine.Flows)
    requires k !in fs0 && k in fs && fs == fs0[k := fs[k]]
    ensures Departed(fs0, fs, [])
  {
    forall l | l in fs0 ensures fs0[l] in All(fs) { assert l in fs && fs[l] == fs0[l]; }
  }

  /** The flow with key `k` left the table, and another one may have taken its place. */
  lemma OneLeft(fs0: TcpEngine.Flows, k: int, fs: TcpEngine.Flows, x: Past)
    requires k in fs0 && x.f == fs0[k] && Over(x)
    requires forall l, m :: l in fs0 && m in fs0 && l != m ==> fs0[l] != fs0[m]
    requires fs == fs0 - {k} || (k in fs && fs == fs0[k := fs[k]] && fs[k] != fs0[k])
    ensures Departed(fs0, fs, [x])
  {
    hide Over;
    forall l | l in fs0 && l != k ensures fs0[l] in All(fs) { assert l in fs && fs[l] == fs0[l]; }
    assert [x][0].f == fs0[k] && fs0[k] in Gone([x]);
  }

  method FlowStep(s: Stack, p: Peers, k: int, e: TcpRun.Event) returns (p': Peers, left: seq<Past>, ok: bool)
    requires s.Valid() && Served(s.tcp.flows, p)
    modifies s.tcp, All(s.tcp.flows), s.account
    ensures s.Valid() && Served(s.tcp.flows, p') && All(s.tcp.flows) <= old(All(s.tcp.flows))
    ensures Departed(old(s.tcp.flows), s.tcp.flows, left)
    ensures !ok ==> k in old(s.tcp.flows) && old(s.tcp.flows)[k].fault
  {
    hide Stack.Valid, Fine, Over, Departed, TcpFlow.Flow.Local, TcpFlow.Flow.PeerSound, TcpSend.Kept;
    p', left, ok := p, [], true;
    if k in s.tcp.flows && (s.tcp.flows[k] in s.tcp.handed || TcpRun.FromNetwork(e)) {
      Apart(s);
      ghost var fs := s.tcp.flows;
      var f := s.tcp.flows[k];
      OpenFine(f, p.streams[k], p.held[k]);
      var h := s.TcpEvent(k, p.streams[k], p.held[k], e);
      OpenFine(f, p.streams[k], h);
      FineOver(f, p.streams[k], h);
      p', ok := p.(held := p.held[k := h]), !f.fault;
      if k !in s.tcp.flows {
        left := [Past(f, p.streams[k], h)];
        OneLeft(fs, k, s.tcp.flows, left[0]);
        return;
      }
    }
    NoneLeft(s.tcp.flows);
  }

  lemma FineOver(f: TcpFlow.Flow, stream: seq<byte>, held: map<int, byte>)
    requires f.Local() && Fine(f, stream, held)
    ensures Over(Past(f, stream, held))
  {
    hide TcpFlow.Flow.Local, TcpFlow.Flow.Faithful, TcpSend.Kept;
    TcpRun.ReadOut(f, stream);
  }

  lemma OpenFine(f: TcpFlow.Flow, stream: seq<byte>, held: map<int, byte>)
    ensures Fine(f, stream, held) <==> f.PeerSound(stream, held) && TcpSend.Kept(f.writes, held)
  {
  }

  /** A SYN: a new connection with a peer that holds nothing yet, unless there is one already or no room. */
  method SynStep(s: Stack, p: Peers, e: Event) returns (p': Peers, left: seq<Past>)
    requires s.Valid() && Served(s.tcp.flows, p) && e.Syn?
    modifies s.tcp, All(s.tcp.flows), s.account
    ensures s.Valid() && Served(s.tcp.flows, p')
    ensures fresh(All(s.tcp.flows) - old(All(s.tcp.flows))) && Departed(old(s.tcp.flows), s.tcp.flows, left)
  {
    hide Stack.Valid, TcpFlow.Flow.Valid, Fine, Over, Departed, TcpEngine.NewFlow, Ended;
    p', left := p, [];
    NoneLeft(s.tcp.flows);
    if e.cfg.mss == 0 || e.wnd > 65535 || e.early > |e.stream| {
      return;
    }
    if e.key in s.tcp.flows && s.tcp.flows[e.key].state != RecvFacts.TimeWait {
      return;
    }
    Apart(s);
    var fs := s.tcp.flows;
    ghost var known := e.key in fs;
    ghost var acc := if known then fs[e.key].accepted else [];
    ghost var writes := if known then fs[e.key].writes else [];
    if known { Recall(fs[e.key], p.streams[e.key], p.held[e.key]); }
    s.TcpSyn(e.key, e.cfg, e.iss, e.irs, e.opts, e.wnd, e.stream[..e.early], e.irs + 1 + |e.stream|);
    if e.key in fs {
      EndedOver(fs[e.key], acc, writes, p.streams[e.key], p.held[e.key]);
      left := [Past(fs[e.key], p.streams[e.key], p.held[e.key])];
      OneLeft(fs, e.key, s.tcp.flows, left[0]);
    } else if e.key in s.tcp.flows {
      OneMore(fs, e.key, s.tcp.flows);
    }
    if e.key !in fs && s.tcp.flows == fs { NoneLeft(fs); }
    if s.tcp.flows == fs || s.tcp.flows == fs - {e.key} {
      return;
    }
    FlowOk(s, e.key);
    NewFine(s.tcp.flows[e.key], e.irs, e.opts, e.early, e.stream);
    p' := Peers(p.streams[e.key := e.stream], p.held[e.key := map[]]);
  }

  /** What is known of a flow before it ends. */
  lemma Recall(f: TcpFlow.Flow, stream: seq<byte>, held: map<int, byte>)
    requires Fine(f, stream, held)
    ensures |stream| == f.finAt - (f.irs + 1) && f.accepted <= stream && TcpSend.Kept(f.writes, held)
  {
    f.FaithfulParts(stream);
  }

  lemma EndedOver(f: TcpFlow.Flow, acc: seq<byte>, writes: seq<TcpSend.Written>, stream: seq<byte>, held: map<int, byte>)
    requires Ended(f, acc, writes) && |stream| == f.finAt - (f.irs + 1) && acc <= stream && TcpSend.Kept(writes, held)
    ensures Over(Past(f, stream, held))
  {
    f.EmptyFaithful(stream);
    hide TcpFlow.Flow.Local, TcpFlow.Flow.Faithful, TcpSend.Kept;
    TcpRun.ReadOut(f, stream);
  }

  lemma FlowOk(s: Stack, k: int)
    requires s.Valid() && k in s.tcp.flows
    ensures s.tcp.flows[k].Valid()
  {
    hide Udp.Engine.Valid, TcpEngine.Engine.Valid, TcpFlow.Flow.Valid, Stack.Conserved;
    s.tcp.FlowValid(k);
  }

  lemma NewFine(f: TcpFlow.Flow, irs: SeqNum.u32, opts: seq<byte>, early: nat, stream: seq<byte>)
    requires f.Valid() && early <= |stream| && TcpEngine.NewFlow(f, irs, opts, stream[..early], irs + 1 + |stream|)
    ensures Fine(f, stream, map[])
  {
    hide TcpFlow.Flow.Valid, TcpFlow.Flow.PeerReached, TcpFlow.Flow.Faithful, SynOptions.Scan;
    assert f.accepted <= stream;
    f.ClosedFaithful(stream);
  }

  /** One event; not `ok` if a flow did what has no defined outcome. */
  method Step(s: Stack, p: Peers, e: Event) returns (p': Peers, left: seq<Past>, ok: bool)
    requires s.Valid() && Served(s.tcp.flows, p)
    modifies s.tcp, s.udp, All(s.tcp.flows), s.account
    ensures s.Valid() && Served(s.tcp.flows, p')
    ensures fresh(All(s.tcp.flows) - old(All(s.tcp.flows))) && Departed(old(s.tcp.flows), s.tcp.flows, left)
  {
    hide Stack.Valid, Fine, Over, Departed;
    p', left, ok := p, [], true;
    match e
    case Syn(_, _, _, _, _, _, _, _) =>
      p', left := SynStep(s, p, e);
    case OnFlow(k, x) =>
      p', left, ok := FlowStep(s, p, k, x);
    case AcceptFlow =>
      var _ := s.TcpAccept();
      NoneLeft(s.tcp.flows);
    case GiveUp(k, sweep) =>
      if k in s.tcp.flows {
        left := GiveUpStep(s, p, k, sweep);
      } else {
        NoneLeft(s.tcp.flows);
      }
    case OnUdp(u) =>
      s.UdpEvent(u);
      NoneLeft(s.tcp.flows);
  }

  method GiveUpStep(s: Stack, p: Peers, k: int, sweep: bool) returns (left: seq<Past>)
    requires s.Valid() && Served(s.tcp.flows, p) && k in s.tcp.flows
    modifies s.tcp, All(s.tcp.flows), s.account
    ensures s.Valid() && Served(s.tcp.flows, p) && All(s.tcp.flows) <= old(All(s.tcp.flows))
    ensures Departed(old(s.tcp.flows), s.tcp.flows, left)
  {
    hide Stack.Valid, Fine, Over, Departed, Ended;
    ghost var fs := s.tcp.flows;
    Apart(s);
    var f := s.tcp.flows[k];
    ghost var acc, writes := f.accepted, f.writes;
    Recall(f, p.streams[k], p.held[k]);
    s.TcpGiveUp(k, sweep);
    EndedOver(f, acc, writes, p.streams[k], p.held[k]);
    left := [Past(f, p.streams[k], p.held[k])];
    OneLeft(fs, k, s.tcp.flows, left[0]);
  }

  /** Every connection reads its peer's stream, and its peer holds what was written. */
  ghost predicate StreamsKept(flows: TcpEngine.Flows, p: Peers)
    reads All(flows)
  {
    forall k :: k in flows ==>
      && k in p.streams && k in p.held
      && TcpRun.ReadsStream(flows[k], p.streams[k]) && TcpSend.Kept(flows[k].writes, p.held[k])
  }

  /**
   The life of a stack: whatever happens, every stream is kept, on the connections in the table and on those that have
   left it, which are all that were `ever` in it, and the budget and the connections are counted exactly.  A life goes no
   further than a step without a defined outcome.
   */
  method Life(limit: nat, maxTcpFlows: nat, maxUdpFlows: nat, maxRxQueue: nat, idleTimeout: nat, lag: nat,
              events: seq<Event>)
    returns (s: Stack, p: Peers, past: seq<Past>, ghost ever: set<TcpFlow.Flow>)
    ensures s.account.limit == limit && StreamsKept(s.tcp.flows, p)
    ensures (forall i :: 0 <= i < |past| ==> Over(past[i])) && ever <= All(s.tcp.flows) + Gone(past)
    ensures forall id :: id in s.udp.sessions ==> UdpRun.ReadsDatagrams(s.udp.sessions[id])
    ensures s.account.used == Sum(TcpEngine.HeldBy(s.tcp.flows)) + Udp.RxTotal(s.udp.sessions) <= limit
    ensures s.tcp.connections == Sum(TcpEngine.CountedBy(s.tcp.flows))
    ensures s.tcp.pending == [] || s.tcp.acceptors == 0
  {
    hide Stack.Valid, Fine, Over, StreamsKept, UdpRun.ReadsDatagrams, Udp.RxTotal, TcpEngine.HeldBy, TcpEngine.CountedBy;
    s := new Stack(limit, maxTcpFlows, maxUdpFlows, maxRxQueue, idleTimeout, lag);
    p, past, ever := Peers(map[], map[]), [], {};
    var i, ok := 0, true;
    while i < |events| && ok
      invariant 0 <= i <= |events| && s.Valid() && Served(s.tcp.flows, p) && s.account.limit == limit
      invariant fresh(s.tcp) && fresh(s.udp) && fresh(s.account)
      invariant fresh(All(s.tcp.flows))
      invariant forall j :: 0 <= j < |past| ==> past[j].f !in All(s.tcp.flows) && Over(past[j])
      invariant ever <= All(s.tcp.flows) + Gone(past)
    {
      var left;
      p, left, ok := Step(s, p, events[i]);
      i := i + 1;
      MoreGone(past, left);
      past := past + left;
      ever := ever + All(s.tcp.flows);
    }
    Books(s);
    AllKept(s, p);
    forall id | id in s.udp.sessions ensures UdpRun.ReadsDatagrams(s.udp.sessions[id]) { Datagrams(s, id); }
  }

  lemma MoreGone(past: seq<Past>, left: seq<Past>)
    ensures Gone(past + left) == Gone(past) + Gone(left)
  {
    forall f | f in Gone(left) ensures f in Gone(past + left) {
      var i :| 0 <= i < |left| && left[i].f == f;
      assert (past + left)[|past| + i].f == f;
    }
    forall f | f in Gone(past) ensures f in Gone(past + left) {
      var i :| 0 <= i < |past| && past[i].f == f;
      assert (past + left)[i].f == f;
    }
  }

  lemma Books(s: Stack)
    requires s.Valid()
    ensures s.account.used == Sum(TcpEngine.HeldBy(s.tcp.flows)) + Udp.RxTotal(s.udp.sessions) <= s.account.limit
    ensures s.tcp.connections == Sum(TcpEngine.CountedBy(s.tcp.flows)) && (s.tcp.pending == [] || s.tcp.acceptors == 0)
  {
    hide TcpEngine.HeldBy, TcpEngine.CountedBy, Udp.RxTotal, TcpEngine.Rows, Udp.Engine.Store, Udp.Engine.Timers;
  }

  lemma AllKept(s: Stack, p: Peers)
    requires s.Valid() && Served(s.tcp.flows, p)
    ensures StreamsKept(s.tcp.flows, p)
  {
    hide Stack.Valid, TcpRun.ReadsStream, Fine;
    forall k | k in s.tcp.flows
      ensures TcpRun.ReadsStream(s.tcp.flows[k], p.streams[k]) && TcpSend.Kept(s.tcp.flows[k].writes, p.held[k])
    {
      OneKept(s, k, p.streams[k], p.held[k]);
    }
  }

  lemma OneKept(s: Stack, k: int, stream: seq<byte>, held: map<int, byte>)
    requires s.Valid() && k in s.tcp.flows && Fine(s.tcp.flows[k], stream, held)
    ensures TcpRun.ReadsStream(s.tcp.flows[k], stream) && TcpSend.Kept(s.tcp.flows[k].writes, held)
  {
    hide Stack.Valid, TcpFlow.Flow.Valid, Fine;
    FlowOk(s, k);
    s.tcp.flows[k].Inner();
    FineOver(s.tcp.flows[k], stream, held);
  }

  lemma Datagrams(s: Stack, id: int)
    requires s.Valid() && id in s.udp.sessions
    ensures UdpRun.ReadsDatagrams(s.udp.sessions[id])
  {
    hide TcpEngine.Engine.Valid, Udp.Engine.Valid, Stack.Conserved;
    UdpRun.Delivered(s.udp, id);
  }
}
