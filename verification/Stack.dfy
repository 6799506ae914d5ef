/** The two engines on one budget. */
module Stack {
  import opened Bytes
  import opened Sums
  import opened Accountant
  import SeqNum
  import RecvFacts
  import TcpSend
  import TcpFlow
  import TcpRun
  import TcpEngine
  import Udp
  import UdpRun

  class Stack {
    const account: BufferAccountant
    const tcp: TcpEngine.Engine
    const udp: Udp.Engine

    constructor (limit: nat, maxTcpFlows: nat, maxUdpFlows: nat, maxRxQueue: nat, idleTimeout: nat, lag: nat)
      ensures Valid() && account.limit == limit && account.used == 0 && fresh(account) && fresh(tcp) && fresh(udp)
      ensures tcp.flows == map[]
    {
      var a := new BufferAccountant(limit);
      account := a;
      tcp := new TcpEngine.Engine(a, maxTcpFlows);
      udp := new Udp.Engine(a, maxRxQueue, maxUdpFlows, idleTimeout, lag);
      new;
      assert TcpEngine.HeldBy(map[]) == map[];
      assert Udp.Sizes(map[]) == map[];
    }

    /** Every byte of the budget is held by a TCP flow or queued in a UDP session. */
    ghost predicate Conserved()
      reads account, tcp, tcp.flows.Values, udp
    {
      account.used == Sum(TcpEngine.HeldBy(tcp.flows)) + Udp.RxTotal(udp.sessions)
    }

    ghost predicate Valid()
      reads account, tcp, tcp.flows.Values, udp
    {
      tcp.account == account == udp.account && tcp.Valid() && udp.Valid() && Conserved()
    }

    /** Anything that happens to the UDP engine. */
    method UdpEvent(e: UdpRun.Event)
      requires Valid()
      modifies udp, account
      ensures Valid() && UdpRun.Leaves(old(udp.sessions), udp.sessions, e) && UdpRun.Grows(old(udp.sessions), udp.sessions)
      ensures UdpRun.Happened(udp, e)
    {
      hide Udp.RxTotal, Udp.Engine.Store, Udp.Engine.Timers, TcpEngine.HeldBy, TcpEngine.Rows, TcpEngine.Queues;
      hide TcpEngine.CountedBy, UdpRun.Leaves, UdpRun.Grows;
      UdpRun.Step(udp, e);
    }

    /** Anything that happens to one flow. */
    method TcpEvent(k: int, stream: seq<byte>, peer: map<int, byte>, e: TcpRun.Event) returns (peer': map<int, byte>)
      requires Valid() && k in tcp.flows && (tcp.flows[k] in tcp.handed || TcpRun.FromNetwork(e))
      requires tcp.flows[k].PeerSound(stream, peer) && TcpSend.Kept(tcp.flows[k].writes, peer)
      modifies tcp, tcp.flows[k], account
      ensures Valid() && old(tcp.flows[k]).PeerSound(stream, peer') && TcpSend.Kept(old(tcp.flows[k]).writes, peer')
      ensures tcp.flows == old(tcp.flows) || tcp.flows == old(tcp.flows) - {k}
      ensures old(tcp.flows[k]).Local() && TcpRun.Settled(old(tcp.flows[k]), e)
    {
      hide TcpRun.Settled;
      hide Udp.RxTotal, Udp.Engine.Store, Udp.Engine.Timers, TcpEngine.Engine.Valid, TcpEngine.HeldBy, TcpFlow.Flow.Valid;
      hide TcpFlow.Flow.PeerSound, TcpFlow.Flow.Local, TcpSend.Kept;
      Budget();
      peer' := tcp.OnEvent(k, stream, peer, e);
      Budget();
    }

    /** A SYN that opens a flow, in the place of one in TIME_WAIT if there is one. */
    method TcpSyn(key: int, cfg: RecvFacts.Config, iss: SeqNum.u32, irs: SeqNum.u32, opts: seq<byte>, wnd: nat,
                  data: seq<byte>, ghost finAt: int)
      requires Valid() && (key in tcp.flows ==> tcp.flows[key].state == RecvFacts.TimeWait)
      requires cfg.mss > 0 && wnd <= 65535 && irs + 1 + |data| <= finAt
      modifies tcp, account, if key in tcp.flows then {tcp.flows[key]} else {}
      ensures Valid()
      ensures (tcp.flows == old(tcp.flows) && key !in tcp.flows) || tcp.flows == old(tcp.flows) - {key}
           || (key in tcp.flows && tcp.flows == old(tcp.flows)[key := tcp.flows[key]]
               && TcpEngine.NewFlow(tcp.flows[key], irs, opts, data, finAt) && fresh(tcp.flows[key]))
      ensures key in old(tcp.flows) ==> Ended(old(tcp.flows[key]), old(tcp.flows[key].accepted), old(tcp.flows[key].writes))
    {
      hide Udp.RxTotal, Udp.Engine.Store, Udp.Engine.Timers, TcpEngine.Engine.Valid, TcpEngine.HeldBy, TcpFlow.Flow.Valid, TcpFlow.Flow.Local;
      Budget();
      if key in tcp.flows {
        tcp.Reopen(key, cfg, iss, irs, opts, wnd, data, finAt);
      } else {
        tcp.OnSyn(key, cfg, iss, irs, opts, wnd, data, finAt);
      }
      Budget();
    }
    /** A flow is given up, by the sweep or otherwise. */
    method TcpGiveUp(k: int, sweep: bool)
      requires Valid() && k in tcp.flows
      modifies tcp, tcp.flows[k], account
      ensures Valid() && tcp.flows == old(tcp.flows) - {k}
      ensures Ended(old(tcp.flows[k]), old(tcp.flows[k].accepted), old(tcp.flows[k].writes))
    {
      hide Udp.RxTotal, Udp.Engine.Store, Udp.Engine.Timers, TcpEngine.Engine.Valid, TcpEngine.HeldBy, TcpFlow.Flow.Valid, TcpFlow.Flow.Local;
      Budget();
      tcp.Evict(k, sweep);
      Budget();
    }

    method TcpAccept() returns (r: Option<TcpFlow.Flow>)
      requires Valid()
      modifies tcp
      ensures Valid() && tcp.flows == old(tcp.flows)
      ensures if old(tcp.pending) == [] then r == None && tcp.acceptors == old(tcp.acceptors) + 1
              else r == Some(old(tcp.pending)[0]) && tcp.pending == old(tcp.pending)[1..] && r.value in tcp.handed
    {
      hide Udp.RxTotal, Udp.Engine.Store, Udp.Engine.Timers, TcpEngine.Engine.Valid, TcpEngine.HeldBy, TcpFlow.Flow.Valid;
      r := tcp.AsyncAccept();
    }

    /** Everything is closed, and the budget is whole again. */
    method CloseAll()
      requires Valid()
      modifies tcp, tcp.flows.Values, udp, account
      ensures Valid() && account.used == 0
    {
      hide TcpEngine.Rows, TcpEngine.Queues, TcpEngine.CountedBy, Udp.RxTotal;
      tcp.CloseAll();
      assert TcpEngine.HeldBy(map[]) == map[];
      hide TcpEngine.HeldBy;
      udp.CloseAll();
      Udp.NoBytes();
    }

    lemma Budget()
      requires tcp.Valid() || udp.Valid()
      ensures tcp.Valid() ==> tcp.account.Valid() && Sum(TcpEngine.HeldBy(tcp.flows)) <= tcp.account.used
      ensures udp.Valid() ==> udp.account.Valid() && Udp.RxTotal(udp.sessions) <= udp.account.used
    {
    }
  }

  /** A flow that was closed with these bytes accepted and these writes completed. */
  ghost predicate Ended(f: TcpFlow.Flow, accepted: seq<byte>, writes: seq<TcpSend.Written>)
    reads f
  {
    f.Local() && f.state == RecvFacts.Closed && f.accepted == accepted && f.writes == writes
  }
}
