/** Building an IP packet step by step, and parsing one. */
module PacketCodec {
  import opened Bytes
  import opened SeqNum
  import opened Checksum
  import Fragments

  const TCP: byte := 6
  const UDP: byte := 17
  const ICMP: byte := 1
  const ICMPV6: byte := 58

  // ---- numbers in network order ----

  function Be32(d: seq<byte>, i: nat): u32
    requires i + 3 < |d|
  {
    0x1_0000 * Be16(d, i) + Be16(d, i + 2)
  }

  function Hi(x: u16): byte { x / 256 }
  function Lo(x: u16): byte { x % 256 }

  function Upper(x: u32): u16 { x / 0x1_0000 }
  function Lower(x: u32): u16 { x % 0x1_0000 }

  // ---- transport headers ----

  /** What a packet says above IP.  `Raw` has no header that is understood. */
  datatype Transport =
    | Raw
    | Tcp(sport: u16, dport: u16, sq: u32, ack: u32, flags: byte, window: u16, options: seq<byte>)
    | Udp(sport: u16, dport: u16)
    | Icmp(kind: byte, code: byte, echo: Option<(u16, u16)>)

  function Zeros(n: nat): seq<byte> {
    seq(n, _ => 0)
  }

  function HeaderLen(t: Transport): nat {
    match t
    case Raw => 0
    case Tcp(_, _, _, _, _, _, options) => 20 + |options|
    case Udp(_, _) => 8
    case Icmp(_, _, _) => 8
  }

  function Protocol(t: Transport, version: nat): byte {
    match t
    case Raw => 0
    case Tcp(_, _, _, _, _, _, _) => TCP
    case Udp(_, _) => UDP
    case Icmp(_, _, _) => if version == 4 then ICMP else ICMPV6
  }

  predicate Legal(t: Transport) {
    t.Tcp? ==> |t.options| % 4 == 0 && |t.options| <= 40
  }

  /** The header with its checksum field still zero; `len` is the length of header and payload. */
  function Header(t: Transport, len: nat): seq<byte>
    requires len <= 0xffff && Legal(t)
    ensures |Header(t, len)| == HeaderLen(t)
  {
    match t
    case Raw => []
    case Tcp(sport, dport, sq, ack, flags, window, options) =>
      [Hi(sport), Lo(sport), Hi(dport), Lo(dport), Hi(Upper(sq)), Lo(Upper(sq)), Hi(Lower(sq)), Lo(Lower(sq)),
       Hi(Upper(ack)), Lo(Upper(ack)), Hi(Lower(ack)), Lo(Lower(ack)), (20 + |options|) / 4 * 16, flags,
       Hi(window), Lo(window), 0, 0, 0, 0] + options
    case Udp(sport, dport) => [Hi(sport), Lo(sport), Hi(dport), Lo(dport), Hi(len), Lo(len), 0, 0]
    case Icmp(kind, code, echo) =>
      var (id, sq) := if echo.Some? then echo.value else (0, 0);
      [kind, code, 0, 0, Hi(id), Lo(id), Hi(sq), Lo(sq)]
  }

  /** Where the checksum field is, in words. */
  function FieldAt(t: Transport): nat {
    match t
    case Raw => 0
    case Tcp(_, _, _, _, _, _, _) => 8
    case Udp(_, _) => 3
    case Icmp(_, _, _) => 1
  }

  // ---- parsing ----

  datatype ParseError = NoError | PacketTooShort | InvalidVersion | InvalidHeaderLength | InvalidTotalLength | InvalidTransport

  /** What the accessors return: `payload` is behind the IP header, `data` behind the transport header. */
  datatype View = View(error: ParseError, version: nat, protocol: byte, src: seq<byte>, dst: seq<byte>, total: nat,
                       fragmented: bool, fragOffset: nat, payload: seq<byte>, transport: Transport, data: seq<byte>)

  const Nothing: View := View(NoError, 0, 0, [], [], 0, false, 0, [], Raw, [])

  predicate IsEcho(protocol: byte, kind: byte) {
    (protocol == ICMP && kind in {0, 8}) || (protocol == ICMPV6 && kind in {128, 129})
  }

  /** The transport header of a segment: none if it is not understood, an error if it is broken. */
  function ParseTransport(protocol: byte, seg: seq<byte>): (ParseError, Transport, seq<byte>) {
    if protocol == TCP then
      if |seg| < 20 then (InvalidTransport, Raw, seg) else
        var hlen: nat := (seg[12] / 16) * 4;
        if hlen < 20 || hlen > |seg| then (InvalidTransport, Raw, seg) else
          (NoError, Tcp(Be16(seg, 0), Be16(seg, 2), Be32(seg, 4), Be32(seg, 8), seg[13], Be16(seg, 14), seg[20..hlen]), seg[hlen..])
    else if protocol == UDP then
      if |seg| < 8 then (InvalidTransport, Raw, seg) else
        var ulen := Be16(seg, 4);
        if ulen < 8 || ulen > |seg| then (InvalidTransport, Raw, seg) else
          (NoError, Udp(Be16(seg, 0), Be16(seg, 2)), seg[8..ulen])
    else if protocol == ICMP || protocol == ICMPV6 then
      if |seg| < 8 then (InvalidTransport, Raw, seg) else
        (NoError, Icmp(seg[0], seg[1], if IsEcho(protocol, seg[0]) then Some((Be16(seg, 4), Be16(seg, 6))) else None), seg[8..])
    else (NoError, Raw, seg)
  }

  function Parse(p: seq<byte>): View {
    if |p| < 20 then Nothing.(error := PacketTooShort)
    else if p[0] / 16 == 4 then
      var ihl: nat := (p[0] % 16) * 4;
      if ihl < 20 || ihl > |p| then Nothing.(error := InvalidHeaderLength) else
        var total := Be16(p, 2);
        if total < ihl || total > |p| then Nothing.(error := InvalidTotalLength) else
          var frag := Be16(p, 6);
          var v := Nothing.(version := 4, protocol := p[9], src := p[12..16], dst := p[16..20], total := total,
                            fragmented := frag % 0x4000 != 0, fragOffset := frag % 0x2000 * 8, payload := p[ihl..total]);
          if v.fragOffset != 0 then v.(data := v.payload) else
            var (error, t, data) := ParseTransport(v.protocol, v.payload);
            v.(error := error, transport := t, data := data)
    else if p[0] / 16 == 6 then
      if |p| < 40 then Nothing.(error := PacketTooShort) else
        var plen := Be16(p, 4);
        if 40 + plen > |p| then Nothing.(error := InvalidTotalLength) else
          var (error, t, data) := ParseTransport(p[6], p[40..40 + plen]);
          Nothing.(error := error, version := 6, protocol := p[6], src := p[8..24], dst := p[24..40], total := 40 + plen,
                   payload := p[40..40 + plen], transport := t, data := data)
    else Nothing.(error := InvalidVersion)
  }

  /** `part` is a stretch of `whole`. */
  ghost predicate Inside(part: seq<byte>, whole: seq<byte>) {
    exists i, j :: 0 <= i <= j <= |whole| && part == whole[i..j]
  }

  lemma DataInside(protocol: byte, seg: seq<byte>)
    ensures Inside(ParseTransport(protocol, seg).2, seg)
  {
    var data := ParseTransport(protocol, seg).2;
    assert seg == seg[0..|seg|];
    if protocol == TCP && |seg| >= 20 {
      var hlen: nat := (seg[12] / 16) * 4;
      if 20 <= hlen <= |seg| { assert data == seg[hlen..|seg|]; }
    } else if protocol == UDP && |seg| >= 8 {
      if 8 <= Be16(seg, 4) <= |seg| { assert data == seg[8..Be16(seg, 4)]; }
    } else if (protocol == ICMP || protocol == ICMPV6) && |seg| >= 8 {
      assert data == seg[8..|seg|];
    }
  }

  /** Whatever the input, the views lie inside it, one inside the other. */
  lemma ViewsInside(p: seq<byte>)
    ensures var v := Parse(p);
            && v.total <= |p| && |v.payload| <= v.total && v.payload == p[v.total - |v.payload|..v.total]
            && Inside(v.data, v.payload)
  {
    PayloadInside(p);
    hide ParseTransport, Inside, Be16;
    var v := Parse(p);
    assert v.data == [] || v.data == v.payload || v.data == ParseTransport(v.protocol, v.payload).2;
    hide Parse;
    Whole(v.payload);
    DataInside(v.protocol, v.payload);
  }

  lemma PayloadInside(p: seq<byte>)
    ensures var v := Parse(p);
            v.total <= |p| && |v.payload| <= v.total && v.payload == p[v.total - |v.payload|..v.total]
  {
    hide ParseTransport;
  }

  lemma Whole(seg: seq<byte>)
    ensures Inside(seg, seg) && Inside([], seg)
  {
    assert seg == seg[0..|seg|] && seg[0..0] == [];
  }

  /** Which inputs are refused as IP packets, and why; what is not refused may still have a broken transport header. */
  lemma Refused(p: seq<byte>)
    ensures var v := Parse(p); var error := v.error;
            && (v.version == 0 <==> error in {PacketTooShort, InvalidVersion, InvalidHeaderLength, InvalidTotalLength})
            && (error == PacketTooShort <==> |p| < 20 || (p[0] / 16 == 6 && |p| < 40))
            && (error == InvalidVersion <==> |p| >= 20 && p[0] / 16 !in {4, 6})
            && (error == InvalidHeaderLength <==>
                  |p| >= 20 && p[0] / 16 == 4 && (p[0] % 16 < 5 || 4 * (p[0] % 16) > |p|))
            && (error == InvalidTotalLength <==>
                  || (|p| >= 20 && p[0] / 16 == 4 && 5 <= p[0] % 16 && 4 * (p[0] % 16) <= |p|
                      && !(4 * (p[0] % 16) <= 256 * p[2] as int + p[3] <= |p|))
                  || (|p| >= 40 && p[0] / 16 == 6 && 40 + 256 * p[4] as int + p[5] > |p|))
  {
    var ihl: nat := if |p| >= 20 then p[0] % 16 * 4 else 0;
    TransportError(if |p| >= 20 then p[9] else 0,
                   if |p| >= 20 && 20 <= ihl <= |p| && ihl <= Be16(p, 2) <= |p| then p[ihl..Be16(p, 2)] else []);
    TransportError(if |p| >= 40 then p[6] else 0, if |p| >= 40 && 40 + Be16(p, 4) <= |p| then p[40..40 + Be16(p, 4)] else []);
    hide ParseTransport;
  }

  lemma TransportError(protocol: byte, seg: seq<byte>)
    ensures ParseTransport(protocol, seg).0 in {NoError, InvalidTransport}
  {
  }

  /** Every other packet: the addresses, the length, the fragment fields, and the payload up to that length. */
  lemma Fields4(p: seq<byte>)
    requires Parse(p).version == 4
    ensures var v, ihl := Parse(p), 4 * (p[0] % 16);
            && v.src == p[12..16] && v.dst == p[16..20] && v.protocol == p[9]
            && v.total == 256 * p[2] as int + p[3] && v.payload == p[ihl..v.total]
            && v.fragOffset == 8 * (256 * (p[6] % 32) as int + p[7]) && (v.fragmented <==> p[6] / 32 % 2 == 1 || v.fragOffset != 0)
            && (v.error, v.transport, v.data) ==
               if v.fragOffset == 0 then ParseTransport(v.protocol, v.payload) else (NoError, Raw, v.payload)
  {
    FlagBits(p[6], p[7]);
    hide ParseTransport;
  }

  lemma FlagBits(hi: byte, lo: byte)
    ensures var w := 256 * hi as int + lo;
            w % 0x2000 == 256 * (hi % 32) as int + lo && (w % 0x4000 != 0 <==> hi / 32 % 2 == 1 || w % 0x2000 != 0)
  {
    assert hi == hi / 32 * 32 + hi % 32 && hi / 32 == hi / 64 * 2 + hi / 32 % 2;
  }

  lemma Fields6(p: seq<byte>)
    requires Parse(p).version != 4 && Parse(p).version != 0
    ensures var v := Parse(p);
            && v.version == 6 && v.src == p[8..24] && v.dst == p[24..40] && v.protocol == p[6]
            && v.total == 40 + 256 * p[4] as int + p[5] && v.payload == p[40..v.total]
            && !v.fragmented && v.fragOffset == 0 && (v.error, v.transport, v.data) == ParseTransport(v.protocol, v.payload)
  {
    hide ParseTransport;
  }

  // ---- what was built is what is parsed ----

  /** The transport as a reader sees it: echo numbers only in echo messages. */
  function Seen(t: Transport, protocol: byte): Transport {
    match t
    case Icmp(kind, code, echo) =>
      Icmp(kind, code, if IsEcho(protocol, kind) then Some(if echo.Some? then echo.value else (0, 0)) else None)
    case _ => t
  }

  /** An echo message that was built is read as one: types 8 and 0 in IPv4, 128 and 129 in IPv6, and no other. */
  lemma EchoSeen(kind: byte, code: byte, id: u16, sq: u16, version: nat)
    ensures var t := Icmp(kind, code, Some((id, sq)));
            Seen(t, Protocol(t, version)) == if kind in (if version == 4 then {0, 8} else {128, 129}) then t else t.(echo := None)
  {
  }

  lemma Digits(x: u16, y: u32)
    ensures 256 * (Hi(x) as int) + Lo(x) == x
    ensures 0x1_0000 * (Upper(y) as int) + Lower(y) == y
  {
  }

  /** A segment: the header, stamped with some checksum, and the data. */
  function Segment(t: Transport, data: seq<byte>, c: u16): seq<byte>
    requires HeaderLen(t) + |data| <= 0xffff && Legal(t)
  {
    var seg := Header(t, HeaderLen(t) + |data|) + data;
    if t.Raw? then seg else Stamped(seg, 2 * FieldAt(t), c)
  }

  lemma TcpParses(t: Transport, data: seq<byte>, c: u16)
    requires t.Tcp? && HeaderLen(t) + |data| <= 0xffff && Legal(t)
    ensures ParseTransport(TCP, Segment(t, data, c)) == (NoError, t, data)
  {
    var seg := Segment(t, data, c);
    var n := HeaderLen(t);
    Digits(t.sport, t.sq);
    Digits(t.dport, t.ack);
    Digits(t.window, 0);
    Digits(Upper(t.sq), 0);
    Digits(Lower(t.sq), 0);
    Digits(Upper(t.ack), 0);
    Digits(Lower(t.ack), 0);
    hide Hi, Lo, Upper, Lower;
    assert seg[12] / 16 * 4 == n;
    assert seg[20..n] == t.options;
    assert seg[n..] == data;
  }

  lemma UdpParses(t: Transport, data: seq<byte>, c: u16)
    requires t.Udp? && HeaderLen(t) + |data| <= 0xffff
    ensures ParseTransport(UDP, Segment(t, data, c)) == (NoError, t, data)
  {
    var seg := Segment(t, data, c);
    Digits(t.sport, 0);
    Digits(t.dport, 0);
    Digits(8 + |data|, 0);
    hide Hi, Lo;
    assert seg[8..8 + |data|] == data;
  }

  lemma IcmpParses(t: Transport, data: seq<byte>, c: u16, protocol: byte)
    requires t.Icmp? && HeaderLen(t) + |data| <= 0xffff && protocol in {ICMP, ICMPV6}
    ensures ParseTransport(protocol, Segment(t, data, c)) == (NoError, Seen(t, protocol), data)
  {
    var seg := Segment(t, data, c);
    var (id, sq) := if t.echo.Some? then t.echo.value else (0, 0);
    Digits(id, 0);
    Digits(sq, 0);
    hide Hi, Lo;
    assert seg[8..] == data;
  }

  lemma TransportParses(t: Transport, data: seq<byte>, c: u16, version: nat)
    requires HeaderLen(t) + |data| <= 0xffff && Legal(t)
    ensures var protocol := Protocol(t, version);
            ParseTransport(protocol, Segment(t, data, c)) == (NoError, Seen(t, protocol), data)
  {
    match t
    case Raw => assert [] + data == data;
    case Tcp(_, _, _, _, _, _, _) => TcpParses(t, data, c);
    case Udp(_, _) => UdpParses(t, data, c);
    case Icmp(_, _, _) => IcmpParses(t, data, c, Protocol(t, version));
  }

  /** The IPv4 header without its checksum: no options, and the DF bit set. */
  function Header4(src: seq<byte>, dst: seq<byte>, protocol: byte, total: u16, id: u16, ttl: byte): seq<byte> {
    [0x45, 0, Hi(total), Lo(total), Hi(id), Lo(id), 0x40, 0, ttl, protocol, 0, 0] + src + dst
  }

  function Header6(src: seq<byte>, dst: seq<byte>, protocol: byte, len: u16, hop: byte): seq<byte> {
    [0x60, 0, 0, 0, Hi(len), Lo(len), protocol, hop] + src + dst
  }

  lemma Parses4(h: seq<byte>, src: seq<byte>, dst: seq<byte>, protocol: byte, total: u16, id: u16, ttl: byte, seg: seq<byte>)
    requires |src| == |dst| == 4 && total == 20 + |seg| && |h| == 20
    requires forall i :: 0 <= i < 20 && i != 10 && i != 11 ==> h[i] == Header4(src, dst, protocol, total, id, ttl)[i]
    ensures var (error, t, data) := ParseTransport(protocol, seg);
            Parse(h + seg) == View(error, 4, protocol, src, dst, total, false, 0, seg, t, data)
  {
    hide ParseTransport;
    var e, p := Header4(src, dst, protocol, total, id, ttl), h + seg;
    Digits(total, 0);
    hide Hi, Lo;
    assert forall i :: 0 <= i < 20 && i != 10 && i != 11 ==> p[i] == e[i];
    assert p[12..16] == src && p[16..20] == dst && p[20..total] == seg;
  }

  lemma Parses6(src: seq<byte>, dst: seq<byte>, protocol: byte, hop: byte, seg: seq<byte>)
    requires |src| == |dst| == 16 && |seg| <= 0xffff
    ensures var (error, t, data) := ParseTransport(protocol, seg);
            Parse(Header6(src, dst, protocol, |seg|, hop) + seg)
            == View(error, 6, protocol, src, dst, 40 + |seg|, false, 0, seg, t, data)
  {
    hide ParseTransport;
    var p := Header6(src, dst, protocol, |seg|, hop) + seg;
    Digits(|seg|, 0);
    hide Hi, Lo;
    assert p[8..24] == src && p[24..40] == dst && p[40..40 + |seg|] == seg;
  }

  /** An IPv4 header with any field values and options; the reserved bit, DF, MF and the offset are in `field`. */
  function AnyHeader4(tos: byte, total: u16, id: u16, field: u16, ttl: byte, protocol: byte, c: u16,
                      src: seq<byte>, dst: seq<byte>, options: seq<byte>): seq<byte>
    requires |options| % 4 == 0 && |options| <= 40
  {
    [0x45 + |options| / 4, tos, Hi(total), Lo(total), Hi(id), Lo(id), Hi(field), Lo(field), ttl, protocol, Hi(c), Lo(c)]
    + src + dst + options
  }

  /** The fragment field, with the reserved bit and DF set or not. */
  function FlagField(reserved: bool, df: bool, last: bool, off: nat): u16
    requires off % 8 == 0 && off / 8 < 0x2000
  {
    (if reserved then 0x8000 else 0) + (if df then 0x4000 else 0) + Fragments.Field(last, off)
  }

  /** Whatever the other fields, the options and what follows the packet: flags, offset and payload come back. */
  lemma FragmentParses(tos: byte, id: u16, reserved: bool, df: bool, last: bool, off: nat, ttl: byte, protocol: byte, c: u16,
                       src: seq<byte>, dst: seq<byte>, options: seq<byte>, seg: seq<byte>, tail: seq<byte>)
    requires |src| == |dst| == 4 && |options| % 4 == 0 && |options| <= 40 && 20 + |options| + |seg| <= 0xffff
    requires off % 8 == 0 && off / 8 < 0x2000
    ensures var total := 20 + |options| + |seg|;
            var field := FlagField(reserved, df, last, off);
            var v := Parse(AnyHeader4(tos, total, id, field, ttl, protocol, c, src, dst, options) + seg + tail);
            var (error, t, data) := ParseTransport(protocol, seg);
            v == if off == 0 then View(error, 4, protocol, src, dst, total, !last, 0, seg, t, data)
                 else View(NoError, 4, protocol, src, dst, total, true, off, seg, Raw, seg)
  {
    FieldBits(reserved, df, last, off);
    hide *;
    AnyParses4(tos, id, FlagField(reserved, df, last, off), ttl, protocol, c, src, dst, options, seg, tail);
  }

  lemma AnyParses4(tos: byte, id: u16, field: u16, ttl: byte, protocol: byte, c: u16,
                   src: seq<byte>, dst: seq<byte>, options: seq<byte>, seg: seq<byte>, tail: seq<byte>)
    requires |src| == |dst| == 4 && |options| % 4 == 0 && |options| <= 40 && 20 + |options| + |seg| <= 0xffff
    ensures var total := 20 + |options| + |seg|;
            var v := Parse(AnyHeader4(tos, total, id, field, ttl, protocol, c, src, dst, options) + seg + tail);
            var (error, t, data) := ParseTransport(protocol, seg);
            var off := field % 0x2000 * 8;
            v == if off == 0 then View(error, 4, protocol, src, dst, total, field % 0x4000 != 0, 0, seg, t, data)
                 else View(NoError, 4, protocol, src, dst, total, field % 0x4000 != 0, off, seg, Raw, seg)
  {
    hide ParseTransport, AnyHeader4, Be16;
    var total := 20 + |options| + |seg|;
    HeaderBytes(tos, total, id, field, ttl, protocol, c, src, dst, options, seg + tail);
    var h := AnyHeader4(tos, total, id, field, ttl, protocol, c, src, dst, options);
    assert h + seg + tail == h + (seg + tail);
    assert (h + seg + tail)[20 + |options|..total] == seg;
  }

  lemma FieldBits(reserved: bool, df: bool, last: bool, off: nat)
    requires off % 8 == 0 && off / 8 < 0x2000
    ensures var field := FlagField(reserved, df, last, off);
            field % 0x2000 * 8 == off && (field % 0x4000 != 0 <==> !last || off != 0)
  {
    assert off == off / 8 * 8;
  }

  lemma HeaderBytes(tos: byte, total: u16, id: u16, field: u16, ttl: byte, protocol: byte, c: u16,
                    src: seq<byte>, dst: seq<byte>, options: seq<byte>, rest: seq<byte>)
    requires |src| == |dst| == 4 && |options| % 4 == 0 && |options| <= 40
    ensures var h := AnyHeader4(tos, total, id, field, ttl, protocol, c, src, dst, options);
            var p := h + rest;
            && |h| == 20 + |options| && p[0] / 16 == 4 && p[0] % 16 * 4 == 20 + |options|
            && Be16(p, 2) == total && Be16(p, 4) == id && Be16(p, 6) == field && p[8] == ttl && p[9] == protocol
            && p[12..16] == src && p[16..20] == dst
  {
    Digits(total, 0);
    Digits(id, 0);
    Digits(field, 0);
    hide Hi, Lo;
  }

  // ---- fragments as packets ----

  /** The packet is the fragment: its header verifies, and a reader finds addresses, offset, flag and payload. */
  ghost predicate Carries(p: seq<byte>, f: Fragments.Fragment, src: seq<byte>, dst: seq<byte>, id: u16) {
    && |p| >= 20 && Be16(p, 4) == id && p[8] == 64 && CheckOf(Total(p[..20])) == 0
    && var v := Parse(p);
       && v.version == 4 && v.src == src && v.dst == dst && v.protocol == UDP && v.total == |p|
       && v.payload == f.payload && v.fragOffset == f.Offset() && (v.fragmented <==> f.More() || f.Offset() != 0)
  }

  /**
   The fragments of a datagram as IPv4 packets, each with its own header, in order.  A packet longer than 65535 bytes,
   which takes an MTU beyond that, does not fit the length field.
   */
  method FragmentPackets(mtu: nat, src: seq<byte>, dst: seq<byte>, id: u16, d: seq<byte>)
    returns (r: Option<seq<seq<byte>>>, ghost fs: seq<Fragments.Fragment>)
    requires |src| == |dst| == 4 && |d| <= 0xffff
    ensures r.None? <==> mtu < 28
    ensures r.Some? ==> Fragments.Cut(fs, d, Fragments.MaxPayload(mtu), |d|) && |r.value| == |fs|
    ensures r.Some? ==> forall i :: 0 <= i < |fs| ==> |r.value[i]| <= mtu && (Carries(r.value[i], fs[i], src, dst, id) <==> |r.value[i]| <= 0xffff)
  {
    hide Fragments.Cut, Fragments.MaxPayload, Carries;
    var cut := Fragments.Split(mtu, d);
    if cut.None? {
      return None, [];
    }
    fs := cut.value;
    var ps: seq<seq<byte>> := [];
    for i := 0 to |cut.value|
      invariant |ps| == i
      invariant forall j :: 0 <= j < i ==> |ps[j]| <= mtu && (Carries(ps[j], fs[j], src, dst, id) <==> |ps[j]| <= 0xffff)
    {
      CutFields(fs, d, mtu, i);
      var p := FragmentPacket(cut.value[i], src, dst, id);
      ps := ps + [p];
    }
    r := Some(ps);
  }

  lemma CutFields(fs: seq<Fragments.Fragment>, d: seq<byte>, mtu: nat, i: nat)
    requires Fragments.Cut(fs, d, Fragments.MaxPayload(mtu), |d|) && i < |fs| && |d| <= 0xffff
    ensures fs[i].field < 0x4000
  {
    assert Fragments.Piece(fs[i], d, Fragments.MaxPayload(mtu), i);
  }

  method FragmentPacket(f: Fragments.Fragment, src: seq<byte>, dst: seq<byte>, id: u16) returns (p: seq<byte>)
    requires |src| == |dst| == 4 && f.field < 0x4000
    ensures |p| == 20 + |f.payload| && (Carries(p, f, src, dst, id) <==> |p| <= 0xffff)
  {
    hide Parse, CheckOf, Total, AnyHeader4;
    var total := (20 + |f.payload|) % 0x1_0000;
    HeaderBytes(0, total, id, f.field, 64, UDP, 0, src, dst, [], []);
    var h := AnyHeader4(0, total, id, f.field, 64, UDP, 0, src, dst, []);
    var ip := StampIpv4(h);
    p := ip + f.payload;
    assert p[..20] == ip;
    assert ip[4] == (h + [])[4] && ip[5] == (h + [])[5] && ip[8] == (h + [])[8];
    StampedHeader(0, total, id, f.field, 64, UDP, src, dst, [], ip);
    if |p| <= 0xffff {
      AnyParses4(0, id, f.field, 64, UDP, Word(ip, 10), src, dst, [], f.payload, []);
      assert p + [] == p;
    } else {
      ShortTotal(p);
    }
  }

  lemma ShortTotal(p: seq<byte>)
    ensures Parse(p).total <= 0x1_0027 && (Parse(p).version == 4 ==> Parse(p).total <= 0xffff)
  {
    hide ParseTransport;
  }

  /** A header that was stamped is the header with that checksum. */
  lemma StampedHeader(tos: byte, total: u16, id: u16, field: u16, ttl: byte, protocol: byte, src: seq<byte>, dst: seq<byte>,
                      options: seq<byte>, ip: seq<byte>)
    requires |src| == |dst| == 4 && |options| % 4 == 0 && |options| <= 40
    requires var h := AnyHeader4(tos, total, id, field, ttl, protocol, 0, src, dst, options);
             |ip| == |h| && forall i :: 0 <= i < |h| && i != 10 && i != 11 ==> ip[i] == h[i]
    ensures ip == AnyHeader4(tos, total, id, field, ttl, protocol, Word(ip, 10), src, dst, options)
  {
    var c := Word(ip, 10);
    assert Hi(c) == ip[10] && Lo(c) == ip[11];
    hide Hi, Lo;
  }

  // ---- the builder ----

  datatype Fault = NoFault | LogicError | LengthError | InvalidArgument | Overrun

  predicate AllZero(d: seq<byte>) {
    forall i :: 0 <= i < |d| ==> d[i] == 0
  }

  /** What is left of the payload when a header of `h` bytes is written over its beginning. */
  function Body(early: seq<byte>, h: nat, late: seq<byte>): seq<byte> {
    (early + Zeros(h) + late)[h..]
  }

  lemma {:induction false} ZeroFrom(e: seq<byte>, h: nat, i: nat)
    requires h > 0 && i < |e| && (e + Zeros(h))[h..] == e
    ensures e[i] == 0
    decreases |e| - i
  {
    assert (e + Zeros(h))[h..][i] == (e + Zeros(h))[h + i];
    if i + h < |e| { ZeroFrom(e, h, i + h); }
  }

  /** Bytes appended before the transport header survive exactly if they are all zero. */
  lemma EarlyBytesLost(early: seq<byte>, h: nat, late: seq<byte>)
    ensures Body(early, h, late) == early + late <==> h == 0 || AllZero(early)
  {
    var s := (early + Zeros(h))[h..];
    assert Body(early, h, late) == s + late && |s| == |early|;
    if Body(early, h, late) == early + late {
      assert s == (s + late)[..|early|] && early == (early + late)[..|early|];
      if h > 0 {
        forall i | 0 <= i < |early| ensures early[i] == 0 { ZeroFrom(early, h, i); }
      }
    }
    if h == 0 || AllZero(early) { assert s == early; }
  }

  /** An ICMP header without echo numbers leaves the four bytes behind the checksum as they lie in the buffer. */
  function Written(t: Transport, laid: seq<byte>): Transport {
    if t.Icmp? && t.echo.None? && |laid| >= 8 then t.(echo := Some((Be16(laid, 4), Be16(laid, 6)))) else t
  }

  /** They are zero exactly if the payload appended before the header, as far as it reaches there, is zero. */
  lemma EchoLeft(kind: byte, code: byte, early: seq<byte>, late: seq<byte>)
    ensures Written(Icmp(kind, code, None), early + Zeros(8) + late).echo == Some((0, 0)) <==>
              forall i :: 4 <= i < 8 && i < |early| ==> early[i] == 0
  {
    var laid := early + Zeros(8) + late;
    assert forall i :: 0 <= i < 8 ==> laid[i] == if i < |early| then early[i] else 0;
    assert laid[4] == 0 <==> 4 < |early| ==> early[4] == 0;
    assert laid[5] == 0 <==> 5 < |early| ==> early[5] == 0;
    assert laid[6] == 0 <==> 6 < |early| ==> early[6] == 0;
    assert laid[7] == 0 <==> 7 < |early| ==> early[7] == 0;
  }

  class Builder {
    const capacity: nat
    var version: nat
    var src: seq<byte>
    var dst: seq<byte>
    var ttl: byte
    var ipId: u16
    var transport: Transport
    var buf: seq<byte>
    // recorded by the model: the payload appended before and behind the transport header, and whether the header was
    // reserved or there was no room for it
    var early: seq<byte>
    var late: seq<byte>
    var reserved: bool

    constructor (capacity: nat)
      ensures Valid() && this.capacity == capacity && version == 0
    {
      this.capacity := capacity;
      version, src, dst, ttl, ipId, transport, buf, early, late, reserved := 0, [], [], 64, 0, Raw, [], [], [], true;
    }

    function IpLen(): nat
      reads `version
    {
      if version == 4 then 20 else 40
    }

    /** What lies behind the IP header. */
    function Laid(): seq<byte>
      reads `early, `late, `transport, `reserved
    {
      early + Zeros(if reserved then HeaderLen(transport) else 0) + late
    }

    ghost predicate Valid()
      reads this
    {
      && version in {0, 4, 6} && |buf| <= capacity && Legal(transport)
      && (version != 0 ==>
            && |src| == |dst| == (if version == 4 then 4 else 16)
            && buf == Zeros(IpLen()) + Laid())
      && (transport.Raw? ==> late == [] && reserved)
    }

    /** Start a packet; whatever was built before is dropped. */
    method BeginIp(v: nat, s: seq<byte>, d: seq<byte>, hops: byte) returns (fault: Fault)
      requires v in {4, 6} && |s| == |d| == if v == 4 then 4 else 16
      modifies this
      ensures fault == if capacity < (if v == 4 then 20 else 40) then LengthError else NoFault
      ensures fault == NoFault ==> Valid() && version == v && src == s && dst == d && ttl == hops
      ensures fault == NoFault ==> transport == Raw && early == [] && late == [] && ipId == 0
      ensures fault == LengthError ==> version == v && buf == []
    {
      version, src, dst, ttl, ipId, transport, early, late, reserved := v, s, d, hops, 0, Raw, [], [], true;
      buf := [];
      if capacity < IpLen() {
        return LengthError;
      }
      buf := Zeros(IpLen());
      assert Laid() == [] && buf == Zeros(IpLen()) + [];
      return NoFault;
    }

    method SetIpId(id: u16)
      requires Valid()
      modifies `ipId
      ensures Valid() && ipId == id
    {
      ipId := id;
    }

    /** Begin the transport header: once, and with options that fit. */
    method BeginTransport(t: Transport) returns (fault: Fault)
      requires Valid() && !t.Raw? && (t.Icmp? ==> t.echo.None?)
      modifies `transport, `buf, `late, `reserved
      ensures fault == if version == 0 || !old(transport).Raw? then LogicError else if !Legal(t) then InvalidArgument
                       else if |old(buf)| + HeaderLen(t) > capacity then LengthError else NoFault
      ensures Valid() && (fault in {LogicError, InvalidArgument} ==> transport == old(transport) && buf == old(buf))
      ensures fault in {LogicError, InvalidArgument} ==> reserved == old(reserved) && late == old(late)
      ensures fault == NoFault ==> transport == t && late == [] && reserved
      ensures fault == LengthError ==> transport == t && late == [] && !reserved && buf == old(buf)
    {
      if version == 0 || !transport.Raw? {
        return LogicError;
      }
      if !Legal(t) {
        return InvalidArgument;
      }
      assert Laid() == early by { assert Zeros(0) == []; }
      transport := t;
      if |buf| + HeaderLen(t) > capacity {
        reserved := false;
        assert Laid() == early by { assert Zeros(0) == []; }
        return LengthError;
      }
      buf := buf + Zeros(HeaderLen(t));
      assert Laid() == early + Zeros(HeaderLen(t));
      return NoFault;
    }

    method SetIcmpEcho(id: u16, sq: u16)
      requires Valid()
      modifies `transport
      ensures Valid() && transport == if old(transport).Icmp? then old(transport).(echo := Some((id, sq))) else old(transport)
    {
      if transport.Icmp? {
        transport := transport.(echo := Some((id, sq)));
      }
    }

    /** Append payload; possible before the transport header too. */
    method Append(data: seq<byte>) returns (fault: Fault)
      requires Valid()
      modifies `buf, `early, `late
      ensures Valid()
      ensures fault == if version == 0 then LogicError else if |old(buf)| + |data| > capacity then LengthError else NoFault
      ensures fault != NoFault ==> early == old(early) && late == old(late)
      ensures fault == NoFault && transport.Raw? ==> early == old(early) + data && late == old(late)
      ensures fault == NoFault && !transport.Raw? ==> early == old(early) && late == old(late) + data
    {
      if version == 0 {
        return LogicError;
      }
      if |buf| + |data| > capacity {
        return LengthError;
      }
      buf := buf + data;
      ghost var laid := Laid();
      if transport.Raw? {
        early := early + data;
        assert Laid() == laid + data by { assert Zeros(0) == []; }
      } else {
        late := late + data;
        assert Laid() == laid + data;
      }
      return NoFault;
    }

    /** The segment, with its checksum. */
    method FinishSegment(t: Transport, body: seq<byte>) returns (seg: seq<byte>, ghost c: u16)
      requires Valid() && version != 0 && Legal(t) && HeaderLen(t) + |body| <= 0xffff
      ensures seg == Segment(t, body, c)
      ensures Verifies(t, version, src, dst, seg)
    {
      hide CheckOf, PseudoHeader, Total;
      var plain := Header(t, HeaderLen(t) + |body|) + body;
      c := 0;
      if t.Raw? {
        return plain, c;
      }
      var k := FieldAt(t);
      assert 2 * k + 1 < HeaderLen(t) && plain[2 * k] == 0 && plain[2 * k + 1] == 0;
      if t.Icmp? && version == 4 {
        seg := StampIcmp(plain);
      } else {
        seg := StampSegment(src, dst, Protocol(t, version), plain, k, t.Udp?);
      }
      c := Word(seg, 2 * k);
      assert seg == Stamped(plain, 2 * k, c);
    }

    /**
     Finish the packet: parsing it gives back what was put in, and its checksums verify.  A header for which there was no
     room and which the payload does not make room for is written past the end of the packet, and past the end of the
     buffer if it does not fit the capacity.
     */
    method Finalize() returns (fault: Fault, out: seq<byte>)
      requires Valid() && version != 0
      ensures fault == if |buf| - (if version == 4 then 0 else 40) > 0xffff then LengthError
                       else if |Laid()| < HeaderLen(transport) then Overrun else NoFault
      ensures fault == Overrun ==> !reserved && |buf| < IpLen() + HeaderLen(transport)
      ensures fault == NoFault ==>
                var protocol, t := Protocol(transport, version), Written(transport, Laid());
                && |out| == |buf| && HeaderLen(transport) <= |Laid()|
                && Parse(out) == View(NoError, version, protocol, src, dst, |buf|, false, 0, out[IpLen()..],
                                      Seen(t, protocol), Laid()[HeaderLen(transport)..])
                && (version == 4 ==> CheckOf(Total(out[..20])) == 0)
                && Verifies(t, version, src, dst, out[IpLen()..])
      ensures fault == NoFault ==> |out| >= 20 && (if version == 4 then out[8] == ttl && Be16(out, 4) == ipId else out[7] == ttl)
      ensures fault == NoFault && reserved ==> Parse(out).data == Body(early, HeaderLen(transport), late)
      ensures fault == NoFault && early == [] && reserved ==>
                Parse(out).data == late && Parse(out).transport == Seen(transport, Protocol(transport, version))
    {
      hide CheckOf, Total, ParseTransport, Parse, Segment, Verifies;
      out := [];
      var total := |buf|;
      if version == 4 && total > 0xffff {
        return LengthError, out;
      }
      if version == 6 && total - 40 > 0xffff {
        return LengthError, out;
      }
      var h := HeaderLen(transport);
      assert buf[IpLen()..] == Laid();
      if total < IpLen() + h {
        return Overrun, out;
      }
      var t := Written(transport, buf[IpLen()..]);
      var body := buf[IpLen() + h..];
      assert body == Laid()[h..];
      var protocol := Protocol(transport, version);
      var seg, c := FinishSegment(t, body);
      SegmentLen(t, body, c);
      TransportParses(t, body, c, version);
      if version == 4 {
        var ip := StampIpv4(Header4(src, dst, protocol, total, ipId, ttl));
        Parses4(ip, src, dst, protocol, total, ipId, ttl, seg);
        out := ip + seg;
        Digits(ipId, 0);
        assert out[..20] == ip && out[20..] == seg;
      } else {
        var ip := Header6(src, dst, protocol, |seg|, ttl);
        Parses6(src, dst, protocol, ttl, seg);
        out := ip + seg;
        assert out[40..] == seg;
      }
      if early == [] && reserved { PlainWritten(transport, late, version); }
      return NoFault, out;
    }
  }

  /** With nothing appended before the header it is written as given, and the payload follows it. */
  lemma PlainWritten(t: Transport, late: seq<byte>, version: nat)
    ensures var laid := [] + Zeros(HeaderLen(t)) + late;
            && laid[HeaderLen(t)..] == late && HeaderLen(Written(t, laid)) == HeaderLen(t)
            && Seen(Written(t, laid), Protocol(t, version)) == Seen(t, Protocol(t, version))
  {
    if t.Icmp? && t.echo.None? { EchoLeft(t.kind, t.code, [], late); }
  }

  /** The checksum of a segment verifies as its receiver checks it; in UDP it is never zero, which would mean none. */
  ghost predicate Verifies(t: Transport, version: nat, src: seq<byte>, dst: seq<byte>, seg: seq<byte>) {
    && (t.Tcp? || t.Udp? || (t.Icmp? && version == 6) ==>
          |seg| <= 0xffff && CheckOf(Total(PseudoHeader(src, dst, Protocol(t, version), |seg|) + seg)) == 0)
    && (t.Icmp? && version == 4 ==> CheckOf(Total(seg)) == 0)
    && (t.Udp? ==> |seg| >= 8 && Word(seg, 6) != 0)
  }

  lemma SegmentLen(t: Transport, data: seq<byte>, c: u16)
    requires HeaderLen(t) + |data| <= 0xffff && Legal(t)
    ensures |Segment(t, data, c)| == HeaderLen(t) + |data|
  {
  }
}
