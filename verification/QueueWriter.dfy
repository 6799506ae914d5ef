/** The device writer: one chain of writes per device queue, chosen by the packet's flow. */
module QueueWriter {
  import opened Bytes
  import PacketCodec

  const MAX_ENTRIES: nat := 16384
  const RETRY_LIMIT: nat := 4096

  // ---- which queue ----

  /** 64-bit FNV-1a. */
  function Fnv(key: seq<byte>): bv64 {
    if key == [] then 1469598103934665603
    else (Fnv(key[..|key| - 1]) ^ (key[|key| - 1] as bv64)) * 1099511628211
  }

  /** The bytes that decide about the queue: addresses, protocol, and the ports of a whole TCP or UDP packet. */
  function FlowKey(p: seq<byte>): Option<seq<byte>> {
    if |p| < 20 then None
    else if p[0] / 16 == 4 then
      var ihl: nat := (p[0] % 16) * 4;
      var total := Be16(p, 2);
      var key := p[12..16] + p[16..20] + [p[9]];
      Some(if ihl >= 20 && total >= ihl && |p| >= total && p[9] in {6, 17} && total - ihl >= 4
           then key + p[ihl..ihl + 4] else key)
    else if p[0] / 16 == 6 && |p| >= 40 then
      var total := 40 + Be16(p, 4);
      var key := p[8..24] + p[24..40] + [p[6]];
      Some(if |p| >= total && p[6] in {6, 17} && total - 40 >= 4 then key + p[40..44] else key)
    else None
  }

  function PickQueue(p: seq<byte>, count: nat): (q: nat)
    ensures q < if count == 0 then 1 else count
  {
    if count <= 1 then 0 else
      match FlowKey(p)
      case None => 0
      case Some(key) => (Fnv(key) as int) % count
  }

  /** A packet with an IPv4 header and ports behind it, by its length fields and whatever its fragment field says. */
  predicate Plain4(p: seq<byte>) {
    && |p| >= 20 && p[0] / 16 == 4 && (p[0] % 16) * 4 >= 20 && p[9] in {6, 17}
    && (p[0] % 16) * 4 + 4 <= Be16(p, 2) <= |p|
  }

  /** The same for IPv6. */
  predicate Plain6(p: seq<byte>) {
    |p| >= 40 && p[0] / 16 == 6 && p[6] in {6, 17} && 44 <= 40 + Be16(p, 4) <= |p|
  }

  /** Two whole packets with the same addresses, protocol and ports. */
  predicate SameTuple(p: seq<byte>, r: seq<byte>) {
    || (&& Plain4(p) && Plain4(r) && p[9] == r[9] && p[12..20] == r[12..20]
        && p[(p[0] % 16) * 4..(p[0] % 16) * 4 + 4] == r[(r[0] % 16) * 4..(r[0] % 16) * 4 + 4])
    || (Plain6(p) && Plain6(r) && p[6] == r[6] && p[8..40] == r[8..40] && p[40..44] == r[40..44])
  }

  /** Packets of one five-tuple go to one queue, whatever their header lengths and payloads. */
  lemma SameFlowSameQueue(p: seq<byte>, r: seq<byte>, count: nat)
    requires SameTuple(p, r)
    ensures PickQueue(p, count) == PickQueue(r, count) && FlowKey(p) == FlowKey(r)
  {
    if Plain4(p) && Plain4(r) {
      assert p[12..16] == p[12..20][..4] && p[16..20] == p[12..20][4..];
      assert r[12..16] == r[12..20][..4] && r[16..20] == r[12..20][4..];
    } else {
      assert p[8..24] == p[8..40][..16] && p[24..40] == p[8..40][16..];
      assert r[8..24] == r[8..40][..16] && r[24..40] == r[8..40][16..];
    }
    assert FlowKey(p) == FlowKey(r);
  }

  /** And packets of two five-tuples are told apart: their keys differ. */
  lemma KeyIsTuple(p: seq<byte>, r: seq<byte>)
    requires (Plain4(p) || Plain6(p)) && (Plain4(r) || Plain6(r))
    ensures FlowKey(p) == FlowKey(r) <==> SameTuple(p, r)
  {
    if SameTuple(p, r) { SameFlowSameQueue(p, r, 2); }
    KeySize(p);
    KeySize(r);
    if FlowKey(p) == FlowKey(r) {
      var k, l := FlowKey(p).value, FlowKey(r).value;
      if Plain4(p) && Plain4(r) {
        assert k[..8] == p[12..20] && l[..8] == r[12..20] && k[8] == p[9] && l[8] == r[9];
        assert k[9..] == p[(p[0] % 16) * 4..(p[0] % 16) * 4 + 4] && l[9..] == r[(r[0] % 16) * 4..(r[0] % 16) * 4 + 4];
      } else if Plain6(p) && Plain6(r) {
        assert k[..32] == p[8..40] && l[..32] == r[8..40] && k[32] == p[6] && l[32] == r[6];
        assert k[33..] == p[40..44] && l[33..] == r[40..44];
      }
    }
  }

  /** Whatever parses as TCP or UDP has such a five-tuple, and its addresses, protocol and ports make up the key. */
  lemma TypedIsPlain(p: seq<byte>)
    requires var t := PacketCodec.Parse(p).transport; t.Tcp? || t.Udp?
    ensures if PacketCodec.Parse(p).version == 4 then Plain4(p) else Plain6(p)
    ensures var v := PacketCodec.Parse(p);
            var ports := p[v.total - |v.payload|..v.total - |v.payload| + 4];
            && FlowKey(p) == Some(v.src + v.dst + [v.protocol] + ports)
            && Be16(ports, 0) == v.transport.sport && Be16(ports, 2) == v.transport.dport
  {
    hide *;
    var v := PacketCodec.Parse(p);
    PacketCodec.PayloadInside(p);
    TypedFrom(p);
    TypedSegment(v.protocol, v.payload);
    if v.version == 4 { TypedKey4(p, v); } else { TypedKey6(p, v); }
    var n := v.total - |v.payload|;
    assert v.payload[..4] == p[n..n + 4];
    PortsOf(v.payload, p[n..n + 4]);
  }

  lemma PortsOf(seg: seq<byte>, ports: seq<byte>)
    requires |seg| >= 4 && ports == seg[..4]
    ensures Be16(ports, 0) == Be16(seg, 0) && Be16(ports, 2) == Be16(seg, 2)
  {
  }

  lemma TypedFrom(p: seq<byte>)
    requires !PacketCodec.Parse(p).transport.Raw?
    ensures var v := PacketCodec.Parse(p); v.version in {4, 6} && v.transport == PacketCodec.ParseTransport(v.protocol, v.payload).1
  {
    hide PacketCodec.ParseTransport;
  }

  lemma TypedKey4(p: seq<byte>, v: PacketCodec.View)
    requires v == PacketCodec.Parse(p) && v.version == 4 && v.protocol in {6, 17} && |v.payload| >= 8
    ensures Plain4(p) && FlowKey(p) == Some(v.src + v.dst + [v.protocol] + p[v.total - |v.payload|..v.total - |v.payload| + 4])
  {
    hide PacketCodec.ParseTransport;
  }

  lemma TypedKey6(p: seq<byte>, v: PacketCodec.View)
    requires v == PacketCodec.Parse(p) && v.version == 6 && v.protocol in {6, 17} && |v.payload| >= 8
    ensures Plain6(p) && FlowKey(p) == Some(v.src + v.dst + [v.protocol] + p[v.total - |v.payload|..v.total - |v.payload| + 4])
  {
    hide PacketCodec.ParseTransport;
  }

  lemma TypedSegment(protocol: byte, seg: seq<byte>)
    ensures var t := PacketCodec.ParseTransport(protocol, seg).1;
            && (t.Tcp? || t.Udp? ==> protocol in {6, 17} && |seg| >= 8 && t.sport == Be16(seg, 0) && t.dport == Be16(seg, 2))
            && (t.Tcp? ==> protocol == 6) && (t.Icmp? ==> protocol in {1, 58})
  {
  }

  lemma KeySize(p: seq<byte>)
    requires Plain4(p) || Plain6(p)
    ensures FlowKey(p).Some? && |FlowKey(p).value| == if Plain4(p) then 13 else 37
  {
  }

  // ---- one chain ----

  datatype Entry = Entry(id: nat, packet: seq<byte>, handler: bool, retries: nat)

  /** `queue` waits behind `current`; `accepted` and `written` record what came in and what the device is done with. */
  datatype Chain = Chain(queue: seq<Entry>, current: Option<Entry>, accepted: seq<nat>, written: seq<nat>)
  {
    function Ids(): multiset<nat> {
      multiset(IdsOf(queue)) + if current.Some? then multiset{current.value.id} else multiset{}
    }

    function Push(e: Entry): Chain {
      this.(queue := queue + [e], accepted := accepted + [e.id])
    }

    function Pump(): Chain
      requires queue != []
    {
      this.(current := Some(queue[0]), queue := queue[1..])
    }

    function Finish(): Chain
      requires current.Some?
    {
      this.(current := None, written := written + [current.value.id])
    }

    /** The next write is started if the device is free. */
    function Drive(): Chain {
      if current.Some? || queue == [] then this else Pump()
    }

    /** What the device has got so far. */
    function AtDevice(): seq<nat> {
      written + if current.Some? then [current.value.id] else []
    }

    /** The device gets the packets of a chain in the order in which they were submitted. */
    predicate InOrder(cancelled: bool) {
      if cancelled then queue == [] && AtDevice() <= accepted
      else AtDevice() + IdsOf(queue) == accepted
    }

    /** No packet waits while the device is free. */
    predicate Driven(cancelled: bool) {
      queue != [] ==> current.Some? && !cancelled
    }
  }

  function IdsOf(q: seq<Entry>): seq<nat> {
    seq(|q|, i requires 0 <= i < |q| => q[i].id)
  }

  lemma PushIds(c: Chain, e: Entry)
    ensures c.Push(e).Ids() == c.Ids() + multiset{e.id}
    ensures c.InOrder(false) ==> c.Push(e).InOrder(false)
  {
    assert IdsOf(c.queue + [e]) == IdsOf(c.queue) + [e.id];
  }

  lemma PumpIds(c: Chain)
    requires c.queue != [] && c.current.None?
    ensures c.Pump().Ids() == c.Ids() && (c.InOrder(false) ==> c.Pump().InOrder(false))
  {
    assert IdsOf(c.queue) == [c.queue[0].id] + IdsOf(c.queue[1..]);
  }

  lemma FinishIds(c: Chain, cancelled: bool)
    requires c.current.Some?
    ensures c.Finish().Ids() + multiset{c.current.value.id} == c.Ids()
    ensures c.InOrder(cancelled) ==> c.Finish().InOrder(cancelled)
  {
    assert c.written + [c.current.value.id] + [] == c.Finish().written;
  }

  // ---- all chains ----

  ghost function Load(cs: seq<Chain>): multiset<nat> {
    if cs == [] then multiset{} else Load(cs[..|cs| - 1]) + cs[|cs| - 1].Ids()
  }

  function Queued(cs: seq<Chain>): nat {
    if cs == [] then 0 else Queued(cs[..|cs| - 1]) + |cs[|cs| - 1].queue|
  }

  lemma {:induction false} UpdateLoad(cs: seq<Chain>, q: nat, c: Chain)
    requires q < |cs|
    ensures Load(cs[q := c]) + cs[q].Ids() == Load(cs) + c.Ids()
    ensures Queued(cs[q := c]) + |cs[q].queue| == Queued(cs) + |c.queue|
    decreases |cs|
  {
    hide Chain.Ids;
    var n := |cs| - 1;
    var ds := cs[q := c];
    assert Load(ds) == Load(ds[..n]) + ds[n].Ids() && Load(cs) == Load(cs[..n]) + cs[n].Ids();
    if q < n {
      UpdateLoad(cs[..n], q, c);
      assert ds[..n] == cs[..n][q := c] && ds[n] == cs[n] && cs[..n][q] == cs[q];
      Exchange(Load(ds[..n]), cs[q].Ids(), Load(cs[..n]), c.Ids(), cs[n].Ids());
    } else {
      assert ds[..n] == cs[..n];
      Swap(Load(cs[..n]), cs[q].Ids(), c.Ids());
    }
  }

  lemma Exchange(a: multiset<nat>, x: multiset<nat>, b: multiset<nat>, y: multiset<nat>, z: multiset<nat>)
    requires a + x == b + y
    ensures (a + z) + x == (b + z) + y
  {
    assert (a + z) + x == (a + x) + z;
    assert (b + z) + y == (b + y) + z;
  }

  lemma Swap(a: multiset<nat>, x: multiset<nat>, y: multiset<nat>)
    ensures (a + y) + x == (a + x) + y
  {
  }

  /** The numbers below `n`, each once. */
  ghost function Upto(n: nat): multiset<nat> {
    if n == 0 then multiset{} else Upto(n - 1) + multiset{n - 1}
  }

  lemma {:induction false} UptoSize(n: nat)
    ensures |Upto(n)| == n && forall i: nat :: Upto(n)[i] == if i < n then 1 else 0
  {
    if n > 0 { UptoSize(n - 1); }
  }

  datatype Outcome = Written | Failed | Aborted | NoSpace

  /** A write that the device was given. */
  datatype Start = Start(queue: nat, id: nat, packet: seq<byte>)

  class Writer {
    const queues: nat
    var chains: seq<Chain>
    var queuedTotal: nat
    var cancelled: bool
    var txPackets: nat
    var txDropped: nat
    // recorded by the model: what was submitted, what was completed with which outcome, and writes started at the device
    var submitted: nat
    var packets: seq<seq<byte>>
    var done: seq<nat>
    var outcomes: seq<Outcome>
    var starts: seq<Start>

    constructor (queues: nat)
      ensures Valid() && submitted == 0 && this.queues == queues && !cancelled
    {
      hide *;
      this.queues := queues;
      chains := Idle(if queues == 0 then 1 else queues);
      queuedTotal, cancelled, txPackets, txDropped, submitted, done, outcomes, starts := 0, false, 0, 0, 0, [], [], [];
      packets := [];
      new;
      FreshChains(if queues == 0 then 1 else queues, queues);
      FreshValid();
    }

    lemma FreshValid()
      requires |chains| == (if queues == 0 then 1 else queues) && queuedTotal == txPackets == txDropped == submitted == 0
      requires done == [] && outcomes == [] && packets == [] && starts == []
      requires Books(chains, [], 0) && Queued(chains) == 0 && Orderly(chains, cancelled, -1) && Routed(chains, [], queues)
      ensures Valid()
    {
      hide Books, Queued, Orderly, Routed;
    }

    /** Every submission is completed, waiting or in flight, exactly once; the counters count them. */
    ghost predicate Conserved()
      reads this
    {
      && Books(chains, done, submitted)
      && |done| == |outcomes| == txPackets + txDropped
      && queuedTotal == Queued(chains) <= MAX_ENTRIES
    }

    ghost predicate Valid()
      reads this
    {
      && |chains| == (if queues == 0 then 1 else queues) && Conserved() && Orderly(chains, cancelled, -1)
      && |packets| == submitted && Routed(chains, packets, queues) && Handed(starts, packets, queues)
    }

    /** Whatever the device was given is a packet that was submitted, unchanged, and at the queue of its flow. */
    lemma GivenAsSubmitted(i: nat)
      requires Valid() && i < |starts|
      ensures starts[i].id < submitted && starts[i].packet == packets[starts[i].id]
      ensures starts[i].queue == PickQueue(packets[starts[i].id], queues)
    {
      hide Books, Orderly, Queued, Routed, PickQueue;
    }

    /** When the device got a packet, it had got all accepted earlier packets of its flow before it. */
    lemma FlowOrder(q: nat, b: nat, r: nat, a: nat)
      requires Valid() && q < |chains| && r < |chains| && b < |chains[q].AtDevice()| && a < |chains[r].accepted|
      requires chains[r].accepted[a] < chains[q].AtDevice()[b] < |packets|
      requires SameTuple(packets[chains[r].accepted[a]], packets[chains[q].AtDevice()[b]])
      ensures r == q && a < b && chains[q].AtDevice()[a] == chains[q].accepted[a]
    {
      hide PickQueue, SameTuple, Books, Queued;
      var d := chains[q].AtDevice();
      assert chains[q].InOrder(cancelled);
      assert d <= chains[q].accepted && d[b] == chains[q].accepted[b];
      SameFlowSameQueue(packets[chains[r].accepted[a]], packets[d[b]], queues);
      assert InLine(chains[q], q, packets, queues) && InLine(chains[r], r, packets, queues);
    }

    /** In numbers, and packet by packet. */
    lemma Counts()
      requires Valid()
      ensures submitted == txPackets + txDropped + queuedTotal + Busy(chains)
      ensures forall id: nat :: id < submitted ==> multiset(done)[id] + Load(chains)[id] == 1
    {
      hide Orderly, Queued, Load, Upto, Busy;
      UptoSize(submitted);
      LoadSize(chains);
      assert |multiset(done)| == |done|;
      forall id: nat | id < submitted ensures multiset(done)[id] + Load(chains)[id] == 1 {
        assert (multiset(done) + Load(chains))[id] == Upto(submitted)[id];
      }
    }

    /** A packet is submitted: dropped at once when the writer is cancelled or full, else queued behind its flow. */
    method Submit(packet: seq<byte>, handler: bool)
      requires Valid()
      modifies this
      ensures Valid() && cancelled == old(cancelled) && txPackets == old(txPackets)
      ensures submitted == old(submitted) + 1 && packets == old(packets) + [packet]
      ensures if old(cancelled) || old(queuedTotal) >= MAX_ENTRIES then
                && done == old(done) + [old(submitted)] && chains == old(chains) && txDropped == old(txDropped) + 1
                && outcomes == old(outcomes) + [if cancelled then Aborted else NoSpace] && starts == old(starts)
              else
                && done == old(done) && outcomes == old(outcomes) && txDropped == old(txDropped) && |chains| == |old(chains)|
                && var q, e := PickQueue(packet, queues), Entry(old(submitted), packet, handler, RETRY_LIMIT);
                && var c := old(chains)[q];
                && chains == old(chains)[q := if c.current.Some? then c.(queue := c.queue + [e], accepted := c.accepted + [e.id])
                                              else c.(current := Some(e), accepted := c.accepted + [e.id])]
                && starts == old(starts) + if old(chains)[q].current.Some? then [] else [Start(q, old(submitted), packet)]
    {
      hide Books, Orderly, Queued, PickQueue, Routed, Handed, Genuine, Chain.Drive;
      var id := submitted;
      if cancelled || queuedTotal >= MAX_ENTRIES {
        Refused(chains, done, submitted);
        RoutedMore(chains, packets, packet, queues);
        HandedMore(starts, packets, packet, queues);
        submitted, txDropped, packets := submitted + 1, txDropped + 1, packets + [packet];
        done, outcomes := done + [id], outcomes + [if cancelled then Aborted else NoSpace];
        return;
      }
      var q := PickQueue(packet, queues);
      var e := Entry(id, packet, handler, RETRY_LIMIT);
      Pushed(chains, done, submitted, q, e);
      RoutedPush(chains, packets, packet, queues, e);
      HandedMore(starts, packets, packet, queues);
      OnlyBehind(chains, q, e);
      submitted, queuedTotal, packets := submitted + 1, queuedTotal + 1, packets + [packet];
      chains := chains[q := chains[q].Push(e)];
      PumpQueue(q);
    }

    /** Start the next write of a free queue. */
    method PumpQueue(q: nat)
      requires q < |chains| == (if queues == 0 then 1 else queues) && Conserved() && Orderly(chains, cancelled, q)
      requires |packets| == submitted && Routed(chains, packets, queues) && Handed(starts, packets, queues)
      modifies `chains, `queuedTotal, `starts
      ensures Valid()
      ensures chains == if cancelled then old(chains) else old(chains)[q := old(chains)[q].Drive()]
      ensures var c := old(chains)[q];
              if cancelled || c.current.Some? || c.queue == [] then starts == old(starts) && chains == old(chains)
              else
                && starts == old(starts) + [Start(q, c.queue[0].id, c.queue[0].packet)]
                && chains == old(chains)[q := c.(current := Some(c.queue[0]), queue := c.queue[1..])]
    {
      hide Books, Orderly, Queued, InLine, Genuine, Right, Handed, Routed, PickQueue;
      var c := chains[q];
      if cancelled || c.current.Some? || c.queue == [] {
        Settled(chains, cancelled, q);
        return;
      }
      Pumped(chains, done, submitted, q);
      Entries(chains, packets, queues, q);
      HandedNext(starts, packets, queues, q, c.queue[0]);
      RoutedSame(chains, packets, queues, q, c.Pump());
      chains := chains[q := c.Pump()];
      queuedTotal, starts := queuedTotal - 1, starts + [Start(q, c.queue[0].id, c.queue[0].packet)];
    }

    /** The device reports a write: a transient failure is tried again, anything else completes the packet. */
    method OnWriteDone(q: nat, failed: bool, transient: bool)
      requires Valid() && q < |chains| && chains[q].current.Some? && (transient ==> failed)
      modifies this
      ensures Valid() && cancelled == old(cancelled) && submitted == old(submitted) && packets == old(packets)
      ensures var c := old(chains)[q]; var e := c.current.value;
              if !cancelled && transient && e.retries > 0 then
                && done == old(done) && outcomes == old(outcomes) && starts == old(starts) + [Start(q, e.id, e.packet)]
                && chains == old(chains)[q := c.(current := Some(e.(retries := e.retries - 1)))]
                && txPackets == old(txPackets) && txDropped == old(txDropped)
              else
                && done == old(done) + [e.id]
                && outcomes == old(outcomes) + [if cancelled then Aborted else if failed then Failed else Written]
                && txPackets == old(txPackets) + (if failed then 0 else 1)
                && txDropped == old(txDropped) + (if failed then 1 else 0)
                && var next := c.(current := None, written := c.written + [e.id]);
                   if cancelled || c.queue == [] then chains == old(chains)[q := next] && starts == old(starts)
                   else
                     && chains == old(chains)[q := next.(current := Some(c.queue[0]), queue := c.queue[1..])]
                     && starts == old(starts) + [Start(q, c.queue[0].id, c.queue[0].packet)]
    {
      hide Books, Orderly, Queued, InLine, Genuine, Right, Handed, Routed, PickQueue;
      var c := chains[q];
      var e := c.current.value;
      if !cancelled && transient && e.retries > 0 {
        Retried(chains, done, submitted, cancelled, q);
        Entries(chains, packets, queues, q);
        HandedNext(starts, packets, queues, q, e);
        RoutedSame(chains, packets, queues, q, Retry(c));
        chains := chains[q := Retry(c)];
        starts := starts + [Start(q, e.id, e.packet)];
        return;
      }
      Finished(chains, done, submitted, cancelled, q);
      Entries(chains, packets, queues, q);
      RoutedSame(chains, packets, queues, q, c.Finish());
      if failed {
        txDropped := txDropped + 1;
      } else {
        txPackets := txPackets + 1;
      }
      done, outcomes := done + [e.id], outcomes + [if cancelled then Aborted else if failed then Failed else Written];
      chains := chains[q := c.Finish()];
      PumpQueue(q);
    }

    /** Everything that waits is aborted; what is in flight ends by itself, and nothing is started any more. */
    method CancelAll()
      requires Valid()
      modifies this
      ensures Valid() && cancelled && queuedTotal == 0 && starts == old(starts) && submitted == old(submitted)
      ensures txPackets == old(txPackets) && txDropped == old(txDropped) + old(queuedTotal)
      ensures |outcomes| == |old(outcomes)| + old(queuedTotal) && old(outcomes) <= outcomes && old(done) <= done
      ensures forall i :: |old(outcomes)| <= i < |outcomes| ==> outcomes[i] == Aborted
      ensures |chains| == |old(chains)| && forall r :: 0 <= r < |chains| ==> chains[r] == old(chains)[r].(queue := [])
    {
      hide Books, Orderly, Queued, Clearing, Routed;
      ClearStart(chains, cancelled);
      cancelled := true;
      for i := 0 to |chains|
        invariant |chains| == |old(chains)| && Conserved() && Clearing(chains, i) && Routed(chains, packets, queues)
        invariant cancelled && starts == old(starts) && submitted == old(submitted) && packets == old(packets)
        invariant txPackets == old(txPackets) && txDropped + queuedTotal == old(txDropped + queuedTotal)
        invariant old(outcomes) <= outcomes && old(done) <= done
        invariant forall j :: |old(outcomes)| <= j < |outcomes| ==> outcomes[j] == Aborted
        invariant forall r :: 0 <= r < |chains| ==> chains[r] == old(chains)[r].(queue := chains[r].queue)
      {
        ClearQueue(i);
        ClearNext(chains, i);
      }
      ClearEmpty(chains);
      ClearEnd(chains);
    }

    /** Everything that waits in queue `q` is aborted, first come first. */
    method ClearQueue(q: nat)
      requires q < |chains| && Conserved() && Clearing(chains, q) && Routed(chains, packets, queues)
      modifies `chains, `queuedTotal, `txDropped, `done, `outcomes
      ensures Conserved() && Clearing(chains, q) && Routed(chains, packets, queues)
      ensures chains == old(chains)[q := old(chains)[q].(queue := [])]
      ensures txDropped + queuedTotal == old(txDropped + queuedTotal)
      ensures done == old(done) + IdsOf(old(chains)[q].queue) && old(outcomes) <= outcomes
      ensures forall j :: |old(outcomes)| <= j < |outcomes| ==> outcomes[j] == Aborted
    {
      hide Books, Orderly, Queued, Clearing, Routed, IdsOf;
      IdsNext(chains[q].queue);
      while chains[q].queue != []
        invariant q < |chains| && chains == old(chains)[q := old(chains)[q].(queue := chains[q].queue)]
        invariant Conserved() && Clearing(chains, q) && Routed(chains, packets, queues)
        invariant txDropped + queuedTotal == old(txDropped + queuedTotal)
        invariant done + IdsOf(chains[q].queue) == old(done) + IdsOf(old(chains)[q].queue) && old(outcomes) <= outcomes
        invariant forall j :: |old(outcomes)| <= j < |outcomes| ==> outcomes[j] == Aborted
        decreases |chains[q].queue|
      {
        var e := chains[q].queue[0];
        Dropped(chains, done, submitted, q);
        Entries(chains, packets, queues, q);
        RoutedSame(chains, packets, queues, q, chains[q].(queue := chains[q].queue[1..]));
        IdsNext(chains[q].queue);
        ghost var rest := IdsOf(chains[q].queue[1..]);
        assert done + ([e.id] + rest) == (done + [e.id]) + rest;
        chains := chains[q := chains[q].(queue := chains[q].queue[1..])];
        queuedTotal, txDropped := queuedTotal - 1, txDropped + 1;
        done, outcomes := done + [e.id], outcomes + [Aborted];
      }
      IdsNext([]);
    }
  }

  lemma IdsNext(q: seq<Entry>)
    ensures IdsOf(q) == if q == [] then [] else [q[0].id] + IdsOf(q[1..])
  {
  }

  /** What was accepted by queue `r` came in this order and belongs there. */
  ghost predicate InLine(c: Chain, r: int, packets: seq<seq<byte>>, queues: nat) {
    && (forall i :: 0 <= i < |c.accepted| ==> c.accepted[i] < |packets| && PickQueue(packets[c.accepted[i]], queues) == r)
    && (forall i, j :: 0 <= i < j < |c.accepted| ==> c.accepted[i] < c.accepted[j])
    && Genuine(c, r, packets, queues)
  }

  /** The entry holds the packet that was submitted under its number, at the queue of its flow. */
  predicate Right(e: Entry, r: int, packets: seq<seq<byte>>, queues: nat) {
    e.id < |packets| && e.packet == packets[e.id] && PickQueue(e.packet, queues) == r && e.retries <= RETRY_LIMIT
  }

  /** So do all entries of a chain. */
  ghost predicate Genuine(c: Chain, r: int, packets: seq<seq<byte>>, queues: nat) {
    && (forall i :: 0 <= i < |c.queue| ==> Right(c.queue[i], r, packets, queues))
    && (c.current.Some? ==> Right(c.current.value, r, packets, queues))
  }

  lemma Entries(cs: seq<Chain>, packets: seq<seq<byte>>, queues: nat, q: nat)
    requires Routed(cs, packets, queues) && q < |cs|
    ensures Genuine(cs[q], q, packets, queues)
    ensures cs[q].queue != [] ==> Right(cs[q].queue[0], q, packets, queues) && Genuine(cs[q].Pump(), q, packets, queues)
    ensures cs[q].queue != [] ==> Genuine(cs[q].(queue := cs[q].queue[1..]), q, packets, queues)
    ensures cs[q].current.Some? ==> Right(cs[q].current.value, q, packets, queues) && Genuine(cs[q].Finish(), q, packets, queues)
    ensures cs[q].current.Some? && cs[q].current.value.retries > 0 ==> Genuine(Retry(cs[q]), q, packets, queues)
  {
    hide PickQueue;
    assert InLine(cs[q], q, packets, queues);
  }

  lemma HandedNext(starts: seq<Start>, packets: seq<seq<byte>>, queues: nat, q: nat, e: Entry)
    requires Handed(starts, packets, queues) && Right(e, q, packets, queues)
    ensures Handed(starts + [Start(q, e.id, e.packet)], packets, queues)
  {
    hide PickQueue;
  }

  ghost predicate Handed(starts: seq<Start>, packets: seq<seq<byte>>, queues: nat) {
    forall i :: 0 <= i < |starts| ==>
      starts[i].id < |packets| && starts[i].packet == packets[starts[i].id] && starts[i].queue == PickQueue(starts[i].packet, queues)
  }

  lemma HandedMore(starts: seq<Start>, packets: seq<seq<byte>>, packet: seq<byte>, queues: nat)
    requires Handed(starts, packets, queues)
    ensures Handed(starts, packets + [packet], queues)
  {
    hide PickQueue;
  }

  /** Behind a free device nothing waits: a new packet is started at once. */
  lemma OnlyBehind(cs: seq<Chain>, q: nat, e: Entry)
    requires Orderly(cs, false, -1) && q < |cs|
    ensures cs[q].current.None? ==> cs[q].queue == []
    ensures cs[q].Push(e).Drive()
            == if cs[q].current.Some? then cs[q].(queue := cs[q].queue + [e], accepted := cs[q].accepted + [e.id])
               else cs[q].(current := Some(e), accepted := cs[q].accepted + [e.id])
  {
    if cs[q].current.None? { assert cs[q].queue + [e] == [e] && [e][1..] == cs[q].queue; }
  }

  ghost predicate Routed(cs: seq<Chain>, packets: seq<seq<byte>>, queues: nat) {
    forall r :: 0 <= r < |cs| ==> InLine(cs[r], r, packets, queues)
  }

  lemma InLineMore(c: Chain, r: int, packets: seq<seq<byte>>, packet: seq<byte>, queues: nat)
    requires InLine(c, r, packets, queues)
    ensures InLine(c, r, packets + [packet], queues)
  {
    hide PickQueue;
  }

  lemma RoutedMore(cs: seq<Chain>, packets: seq<seq<byte>>, packet: seq<byte>, queues: nat)
    requires Routed(cs, packets, queues)
    ensures Routed(cs, packets + [packet], queues)
  {
    hide InLine;
    forall r | 0 <= r < |cs| ensures InLine(cs[r], r, packets + [packet], queues) {
      InLineMore(cs[r], r, packets, packet, queues);
    }
  }

  lemma RoutedPush(cs: seq<Chain>, packets: seq<seq<byte>>, packet: seq<byte>, queues: nat, e: Entry)
    requires Routed(cs, packets, queues) && PickQueue(packet, queues) < |cs|
    requires e.id == |packets| && e.packet == packet && e.retries <= RETRY_LIMIT
    ensures var q := PickQueue(packet, queues); Routed(cs[q := cs[q].Push(e)], packets + [packet], queues)
  {
    hide PickQueue;
    var q := PickQueue(packet, queues);
    RoutedMore(cs, packets, packet, queues);
    assert InLine(cs[q], q, packets, queues);
    assert InLine(cs[q].Push(e), q, packets + [packet], queues);
    hide InLine;
  }

  /** A chain whose accepted packets stay the same. */
  lemma RoutedSame(cs: seq<Chain>, packets: seq<seq<byte>>, queues: nat, q: nat, c: Chain)
    requires Routed(cs, packets, queues) && q < |cs| && c.accepted == cs[q].accepted && Genuine(c, q, packets, queues)
    ensures Routed(cs[q := c], packets, queues)
  {
    hide PickQueue;
    assert InLine(cs[q], q, packets, queues) && InLine(c, q, packets, queues);
    hide InLine;
  }

  lemma ClearEmpty(cs: seq<Chain>)
    requires Clearing(cs, |cs|)
    ensures forall r :: 0 <= r < |cs| ==> cs[r].queue == []
  {
  }

  /** How many writes are in flight. */
  function Busy(cs: seq<Chain>): nat {
    if cs == [] then 0 else Busy(cs[..|cs| - 1]) + if cs[|cs| - 1].current.Some? then 1 else 0
  }

  lemma {:induction false} LoadSize(cs: seq<Chain>)
    ensures |Load(cs)| == Queued(cs) + Busy(cs)
    decreases |cs|
  {
    if cs != [] {
      LoadSize(cs[..|cs| - 1]);
      assert |multiset(IdsOf(cs[|cs| - 1].queue))| == |cs[|cs| - 1].queue|;
    }
  }

  ghost predicate Books(cs: seq<Chain>, done: seq<nat>, n: nat) {
    multiset(done) + Load(cs) == Upto(n)
  }

  /** All chains are in order, and all but `q` are driven. */
  ghost predicate Orderly(cs: seq<Chain>, cancelled: bool, q: int) {
    forall r :: 0 <= r < |cs| ==> cs[r].InOrder(cancelled) && (r != q ==> cs[r].Driven(cancelled))
  }

  /** The chain of queue `q` becomes `c`, which holds the same submissions and `more`. */
  lemma ChainStep(cs: seq<Chain>, q: nat, c: Chain, more: multiset<nat>)
    requires q < |cs| && c.Ids() == cs[q].Ids() + more
    ensures Load(cs[q := c]) == Load(cs) + more
    ensures Queued(cs[q := c]) == Queued(cs) - |cs[q].queue| + |c.queue|
  {
    hide Chain.Ids;
    UpdateLoad(cs, q, c);
    Cancel(Load(cs[q := c]), cs[q].Ids(), Load(cs), more);
  }

  lemma Refused(cs: seq<Chain>, done: seq<nat>, n: nat)
    requires Books(cs, done, n)
    ensures Books(cs, done + [n], n + 1)
  {
    hide Load;
  }

  lemma ChainSame(cs: seq<Chain>, q: nat, c: Chain)
    requires q < |cs| && c.Ids() == cs[q].Ids()
    ensures Load(cs[q := c]) == Load(cs)
    ensures Queued(cs[q := c]) == Queued(cs) - |cs[q].queue| + |c.queue|
  {
    hide Chain.Ids, Load, Queued;
    assert cs[q].Ids() + multiset{} == cs[q].Ids() && Load(cs) + multiset{} == Load(cs);
    ChainStep(cs, q, c, multiset{});
  }

  lemma OrderlySet(cs: seq<Chain>, cancelled: bool, q: nat, c: Chain)
    requires q < |cs| && c.InOrder(cancelled) && (Orderly(cs, cancelled, q) || Orderly(cs, cancelled, -1))
    ensures Orderly(cs[q := c], cancelled, q) && (c.Driven(cancelled) ==> Orderly(cs[q := c], cancelled, -1))
  {
    hide Chain.InOrder, Chain.Driven;
  }

  lemma OrderlyAt(cs: seq<Chain>, cancelled: bool, q: nat, r: int)
    requires q < |cs| && Orderly(cs, cancelled, r)
    ensures cs[q].InOrder(cancelled) && (q != r ==> cs[q].Driven(cancelled))
  {
  }

  lemma Pushed(cs: seq<Chain>, done: seq<nat>, n: nat, q: nat, e: Entry)
    requires Books(cs, done, n) && q < |cs| && e.id == n && Orderly(cs, false, -1)
    ensures Books(cs[q := cs[q].Push(e)], done, n + 1) && Orderly(cs[q := cs[q].Push(e)], false, q)
    ensures Queued(cs[q := cs[q].Push(e)]) == Queued(cs) + 1
  {
    hide Load, Queued, Chain.InOrder, Chain.Ids, Orderly;
    var c := cs[q].Push(e);
    PushIds(cs[q], e);
    OrderlyAt(cs, false, q, -1);
    OrderlySet(cs, false, q, c);
    ChainStep(cs, q, c, multiset{n});
    Later(multiset(done), Load(cs), n);
  }

  lemma Settled(cs: seq<Chain>, cancelled: bool, q: nat)
    requires Orderly(cs, cancelled, q) && q < |cs| && (cancelled || cs[q].current.Some? || cs[q].queue == [])
    ensures Orderly(cs, cancelled, -1)
  {
  }

  lemma Pumped(cs: seq<Chain>, done: seq<nat>, n: nat, q: nat)
    requires Books(cs, done, n) && q < |cs| && Orderly(cs, false, q) && cs[q].queue != [] && cs[q].current.None?
    ensures Books(cs[q := cs[q].Pump()], done, n) && Orderly(cs[q := cs[q].Pump()], false, -1)
    ensures Queued(cs[q := cs[q].Pump()]) == Queued(cs) - 1
  {
    hide Load, Queued, Chain.InOrder, Chain.Ids, Orderly;
    PumpIds(cs[q]);
    OrderlyAt(cs, false, q, q);
    OrderlySet(cs, false, q, cs[q].Pump());
    ChainSame(cs, q, cs[q].Pump());
  }

  function Retry(c: Chain): Chain
    requires c.current.Some? && c.current.value.retries > 0
  {
    c.(current := Some(c.current.value.(retries := c.current.value.retries - 1)))
  }

  lemma Retried(cs: seq<Chain>, done: seq<nat>, n: nat, cancelled: bool, q: nat)
    requires Books(cs, done, n) && q < |cs| && Orderly(cs, cancelled, -1) && cs[q].current.Some? && cs[q].current.value.retries > 0
    ensures Books(cs[q := Retry(cs[q])], done, n) && Orderly(cs[q := Retry(cs[q])], cancelled, -1)
    ensures Queued(cs[q := Retry(cs[q])]) == Queued(cs)
  {
    OrderlyAt(cs, cancelled, q, -1);
    assert Retry(cs[q]).Ids() == cs[q].Ids() && Retry(cs[q]).InOrder(cancelled);
    hide Load, Queued, Chain.InOrder, Chain.Ids, Orderly;
    OrderlySet(cs, cancelled, q, Retry(cs[q]));
    ChainSame(cs, q, Retry(cs[q]));
  }

  lemma Finished(cs: seq<Chain>, done: seq<nat>, n: nat, cancelled: bool, q: nat)
    requires Books(cs, done, n) && q < |cs| && Orderly(cs, cancelled, -1) && cs[q].current.Some?
    ensures Books(cs[q := cs[q].Finish()], done + [cs[q].current.value.id], n)
    ensures Orderly(cs[q := cs[q].Finish()], cancelled, q) && Queued(cs[q := cs[q].Finish()]) == Queued(cs)
  {
    hide Load, Queued, Chain.InOrder, Chain.Ids, Orderly;
    var id, c := cs[q].current.value.id, cs[q].Finish();
    FinishIds(cs[q], cancelled);
    OrderlyAt(cs, cancelled, q, -1);
    OrderlySet(cs, cancelled, q, c);
    UpdateLoad(cs, q, c);
    Less(Load(cs[q := c]), cs[q].Ids(), Load(cs), c.Ids(), id);
    Later(multiset(done), Load(cs[q := c]), id);
    Earlier(done, id, Load(cs[q := c]));
  }

  ghost predicate Ahead(c: Chain) {
    c.AtDevice() <= c.accepted
  }

  /** While the queues are cleared, those before `i` are empty. */
  ghost predicate Clearing(cs: seq<Chain>, i: nat) {
    forall r :: 0 <= r < |cs| ==> Ahead(cs[r]) && (r < i ==> cs[r].queue == [])
  }

  lemma ClearStart(cs: seq<Chain>, cancelled: bool)
    requires Orderly(cs, cancelled, -1)
    ensures Clearing(cs, 0)
  {
  }

  lemma ClearNext(cs: seq<Chain>, i: nat)
    requires Clearing(cs, i) && i < |cs| && cs[i].queue == []
    ensures Clearing(cs, i + 1)
  {
    hide Ahead;
  }

  lemma ClearEnd(cs: seq<Chain>)
    requires Clearing(cs, |cs|)
    ensures Orderly(cs, true, -1) && Queued(cs) == 0
  {
    NoQueued(cs);
  }

  lemma {:induction false} NoQueued(cs: seq<Chain>)
    requires forall r :: 0 <= r < |cs| ==> cs[r].queue == []
    ensures Queued(cs) == 0
    decreases |cs|
  {
    if cs != [] { NoQueued(cs[..|cs| - 1]); }
  }

  /** The first waiting packet of queue `q` is aborted. */
  lemma Dropped(cs: seq<Chain>, done: seq<nat>, n: nat, q: nat)
    requires Books(cs, done, n) && q < |cs| && cs[q].queue != [] && Clearing(cs, q)
    ensures var ds := cs[q := cs[q].(queue := cs[q].queue[1..])];
            && Books(ds, done + [cs[q].queue[0].id], n) && Clearing(ds, q) && Queued(ds) == Queued(cs) - 1
    ensures Queued(cs) > 0
  {
    assert Ahead(cs[q]) && Ahead(cs[q].(queue := cs[q].queue[1..]));
    hide Load, Queued, Chain.Ids, Ahead;
    var id, c := cs[q].queue[0].id, cs[q].(queue := cs[q].queue[1..]);
    FirstIds(cs[q]);
    UpdateLoad(cs, q, c);
    Less(Load(cs[q := c]), cs[q].Ids(), Load(cs), c.Ids(), id);
    Later(multiset(done), Load(cs[q := c]), id);
    Earlier(done, id, Load(cs[q := c]));
  }

  lemma FirstIds(c: Chain)
    requires c.queue != []
    ensures c.(queue := c.queue[1..]).Ids() + multiset{c.queue[0].id} == c.Ids()
  {
    assert IdsOf(c.queue) == [c.queue[0].id] + IdsOf(c.queue[1..]);
  }

  lemma Cancel(a: multiset<nat>, x: multiset<nat>, b: multiset<nat>, more: multiset<nat>)
    requires a + x == b + (x + more)
    ensures a == b + more
  {
    forall i: nat ensures a[i] == (b + more)[i] { assert (a + x)[i] == (b + (x + more))[i]; }
  }

  lemma Less(a: multiset<nat>, x: multiset<nat>, b: multiset<nat>, y: multiset<nat>, id: nat)
    requires a + x == b + y && y + multiset{id} == x
    ensures b == a + multiset{id}
  {
    forall i: nat ensures b[i] == (a + multiset{id})[i] { assert (a + x)[i] == (b + y)[i] && (y + multiset{id})[i] == x[i]; }
  }

  lemma Earlier(done: seq<nat>, id: nat, load: multiset<nat>)
    ensures multiset(done + [id]) + load == multiset(done) + (load + multiset{id})
  {
  }

  lemma Later(done: multiset<nat>, load: multiset<nat>, id: nat)
    ensures done + (load + multiset{id}) == (done + load) + multiset{id}
  {
  }

  /** `n` queues with nothing to do. */
  function Idle(n: nat): (cs: seq<Chain>)
    ensures |cs| == n && forall q :: 0 <= q < n ==> cs[q] == Chain([], None, [], [])
  {
    seq(n, _ => Chain([], None, [], []))
  }

  lemma FreshChains(n: nat, queues: nat)
    ensures var cs := Idle(n); Books(cs, [], 0) && Queued(cs) == 0 && Orderly(cs, false, -1) && Routed(cs, [], queues)
  {
    var cs := Idle(n);
    NoLoad(cs);
    hide Load, Queued, PickQueue;
    assert IdsOf([]) == [];
  }

  lemma {:induction false} NoLoad(cs: seq<Chain>)
    requires forall q :: 0 <= q < |cs| ==> cs[q] == Chain([], None, [], [])
    ensures Load(cs) == multiset{} && Queued(cs) == 0
    decreases |cs|
  {
    if cs != [] {
      NoLoad(cs[..|cs| - 1]);
      assert IdsOf([]) == [];
    }
  }
}
