/** The Internet checksum of RFC 1071: the scalar loop, the vector loop, the folding, and stamping a checksum field. */
module Checksum {
  import opened Bytes
  import opened SeqNum

  type u16 = x: int | 0 <= x < 0x1_0000

  /** The big-endian word at `i`; a last single byte is padded with zero. */
  function Word(d: seq<byte>, i: nat): u16
    requires i < |d|
  {
    if i + 1 < |d| then Be16(d, i) else 256 * (d[i] as int)
  }

  /** The sum of the first `n` words. */
  function Words(d: seq<byte>, n: nat): nat
    requires 2 * n <= |d| + 1
  {
    if n == 0 then 0 else Words(d, n - 1) + Word(d, 2 * n - 2)
  }

  /** The sum of all words. */
  function Total(d: seq<byte>): nat {
    Words(d, (|d| + 1) / 2)
  }

  lemma {:induction false} WordsBound(d: seq<byte>, n: nat)
    requires 2 * n <= |d| + 1
    ensures Words(d, n) <= n * 0xffff
  {
    if n > 0 { WordsBound(d, n - 1); }
  }

  lemma TotalBound(d: seq<byte>)
    requires |d| <= 0x1_0000
    ensures Total(d) <= 0x8000 * 0xffff
  {
    WordsBound(d, (|d| + 1) / 2);
  }

  /** The data read as one big-endian number. */
  function Value(d: seq<byte>): nat {
    if d == [] then 0 else 256 * Value(d[..|d| - 1]) + d[|d| - 1]
  }

  lemma {:induction false} WordsIsValue(d: seq<byte>, n: nat)
    requires 2 * n <= |d|
    ensures Value(d[..2 * n]) >= Words(d, n) && (Value(d[..2 * n]) - Words(d, n)) % 0xffff == 0
  {
    if n > 0 {
      WordsIsValue(d, n - 1);
      var e := d[..2 * n];
      assert e[..2 * n - 1][..2 * n - 2] == d[..2 * n - 2] && e[..2 * n - 1][2 * n - 2] == d[2 * n - 2];
      var v := Value(d[..2 * n - 2]);
      assert Value(e) == 0x1_0000 * v + Word(d, 2 * n - 2);
      assert Value(e) - Words(d, n) == (v - Words(d, n - 1)) + v * 0xffff;
      ModShift(v - Words(d, n - 1), v);
    }
  }

  /** Modulo 65535 the sum of the words is the number that the data is; an odd last byte counts as if a zero followed. */
  lemma TotalIsValue(d: seq<byte>)
    ensures |d| % 2 == 0 ==> Total(d) % 0xffff == Value(d) % 0xffff
    ensures |d| % 2 == 1 ==> Total(d) == Total(d + [0]) && Total(d) % 0xffff == Value(d + [0]) % 0xffff
  {
    hide *;
    PaddedTotal(d);
    EvenIsValue(if |d| % 2 == 0 then d else d + [0]);
  }

  lemma EvenIsValue(d: seq<byte>)
    requires |d| % 2 == 0
    ensures Total(d) % 0xffff == Value(d) % 0xffff
  {
    var n := |d| / 2;
    assert Total(d) == Words(d, n) && 2 * n == |d|;
    hide *;
    WordsIsValue(d, n);
    assert d[..|d|] == d;
    SameRest(Value(d), Total(d));
  }

  lemma SameRest(a: nat, b: nat)
    requires a >= b && (a - b) % 0xffff == 0
    ensures a % 0xffff == b % 0xffff
  {
    var k := (a - b) / 0xffff;
    assert a == b + k * 0xffff;
    ModShift(b, k);
  }

  lemma PaddedTotal(d: seq<byte>)
    ensures |d| % 2 == 1 ==> Total(d) == Total(d + [0])
  {
    if |d| % 2 == 1 {
      WordsPrefix(d, [0], |d| / 2);
      assert Word(d + [0], |d| - 1) == Word(d, |d| - 1);
    }
  }

  lemma {:induction false} WordsPrefix(a: seq<byte>, b: seq<byte>, n: nat)
    requires 2 * n <= |a|
    ensures Words(a + b, n) == Words(a, n)
  {
    if n > 0 { WordsPrefix(a, b, n - 1); }
  }

  lemma {:induction false} WordsSuffix(a: seq<byte>, b: seq<byte>, n: nat)
    requires |a| % 2 == 0 && 2 * n <= |b| + 1
    ensures Words(a + b, |a| / 2 + n) == Words(a, |a| / 2) + Words(b, n)
  {
    if n == 0 {
      WordsPrefix(a, b, |a| / 2);
    } else {
      WordsSuffix(a, b, n - 1);
      assert Word(a + b, |a| + (2 * n - 2)) == Word(b, 2 * n - 2);
    }
  }

  /** Sums of parts add up, if all parts but the last one have an even number of bytes. */
  lemma TotalConcat(a: seq<byte>, b: seq<byte>)
    requires |a| % 2 == 0
    ensures Total(a + b) == Total(a) + Total(b)
  {
    WordsSuffix(a, b, (|b| + 1) / 2);
  }

  /** One word after the other, in 32 bits. */
  method SumScalar(d: seq<byte>, start: u32) returns (sum: u32)
    ensures sum == Wrap(start + Total(d))
  {
    sum := SumRest(d, 0, start, start, 0);
  }

  /** The scalar loop from index `i0` on. */
  method SumRest(d: seq<byte>, i0: nat, sum0: u32, ghost start: u32, ghost n0: nat) returns (sum: u32)
    requires i0 <= |d| && i0 == 2 * n0 && sum0 == Wrap(start + Words(d, n0))
    ensures sum == Wrap(start + Total(d))
  {
    hide Wrap, Add32;
    var i := i0;
    ghost var n := n0;
    sum := sum0;
    while i + 1 < |d|
      invariant i <= |d| && i == 2 * n && sum == Wrap(start + Words(d, n))
    {
      WrapAdd(start + Words(d, n), Word(d, i));
      sum := Add32(sum, Be16(d, i));
      i, n := i + 2, n + 1;
    }
    if i < |d| {
      WrapAdd(start + Words(d, n), Word(d, i));
      sum := Add32(sum, 256 * (d[i] as int));
    }
  }

  // ---- the vector form ----

  /** A 16-bit lane as loaded on a little-endian machine. */
  function Loaded(d: seq<byte>, i: nat): u16
    requires i + 1 < |d|
  {
    (d[i] as int) + 256 * (d[i + 1] as int)
  }

  /** ((v & 0x00ff) << 8) | (v >> 8) in 16 bits. */
  function Swapped(v: u16): u16 {
    v % 256 * 256 + v / 256
  }

  lemma SwappedIsWord(d: seq<byte>, i: nat)
    requires i + 1 < |d|
    ensures Swapped(Loaded(d, i)) == Word(d, i)
  {
  }

  /** Four 32-bit lanes. */
  datatype Lanes = Lanes(a: u32, b: u32, c: u32, d: u32)
  {
    function Add(x: u16, y: u16, z: u16, w: u16): Lanes {
      Lanes(Add32(a, x), Add32(b, y), Add32(c, z), Add32(d, w))
    }

    function Sum(): nat {
      (a as int) + b + c + d
    }

    lemma AddSum(x: u16, y: u16, z: u16, w: u16, rest: nat)
      ensures Wrap(Add(x, y, z, w).Sum() + rest) == Wrap(Sum() + x + y + z + w + rest)
    {
      hide Wrap, Add32;
      var t := Add(x, y, z, w);
      Unwrapped(a, x, t.b + t.c + t.d + rest);
      Unwrapped(b, y, a + x + t.c + t.d + rest);
      Unwrapped(c, z, a + x + b + y + t.d + rest);
      Unwrapped(d, w, a + x + b + y + c + z + rest);
    }
  }

  lemma Unwrapped(a: u32, x: int, rest: int)
    ensures Wrap(Add32(a, x) + rest) == Wrap((a as int) + x + rest)
  {
  }

  /** The eight words of the 16 bytes at `i`. */
  function Block(d: seq<byte>, i: nat): nat
    requires i + 16 <= |d|
  {
    (Word(d, i) as int) + Word(d, i + 2) + Word(d, i + 4) + Word(d, i + 6)
    + Word(d, i + 8) + Word(d, i + 10) + Word(d, i + 12) + Word(d, i + 14)
  }

  lemma BlockIsWords(d: seq<byte>, n: nat)
    requires 2 * n + 16 <= |d|
    ensures Words(d, n + 8) == Words(d, n) + Block(d, 2 * n)
  {
    hide Word;
    assert Words(d, n + 2) == Words(d, n) + Word(d, 2 * n) + Word(d, 2 * n + 2);
    assert Words(d, n + 4) == Words(d, n + 2) + Word(d, 2 * n + 4) + Word(d, 2 * n + 6);
    assert Words(d, n + 6) == Words(d, n + 4) + Word(d, 2 * n + 8) + Word(d, 2 * n + 10);
  }

  /** Add the 16 bytes at `i`, swapped, to two vectors of four lanes. */
  method AddVector(d: seq<byte>, i: nat, lo0: Lanes, hi0: Lanes) returns (lo: Lanes, hi: Lanes)
    requires i + 16 <= |d|
    ensures Wrap(lo.Sum() + hi.Sum()) == Wrap(lo0.Sum() + hi0.Sum() + Block(d, i))
  {
    hide Wrap, Add32, Swapped, Loaded, Word;
    var w := seq(8, k requires 0 <= k < 8 => Swapped(Loaded(d, i + 2 * k)));
    forall k | 0 <= k < 8 ensures w[k] == Word(d, i + 2 * k) { SwappedIsWord(d, i + 2 * k); }
    lo := lo0.Add(w[0], w[1], w[2], w[3]);
    hi := hi0.Add(w[4], w[5], w[6], w[7]);
    lo0.AddSum(w[0], w[1], w[2], w[3], hi.Sum());
    hi0.AddSum(w[4], w[5], w[6], w[7], lo0.Sum() + w[0] + w[1] + w[2] + w[3]);
  }

  /** The vector loop gives the same sum as the scalar one, for every length. */
  method SumVector(d: seq<byte>, start: u32) returns (sum: u32)
    ensures sum == Wrap(start + Total(d))
  {
    hide Wrap, Add32, Block, Word, Lanes.Sum;
    var lo, hi := Lanes(0, 0, 0, 0), Lanes(0, 0, 0, 0);
    var i: nat := 0;
    ghost var n: nat := 0;
    NoLanes();
    while i + 32 <= |d|
      invariant i <= |d| && i == 2 * n && Wrap(lo.Sum() + hi.Sum()) == Wrap(Words(d, n))
    {
      var lo1, hi1 := AddVector(d, i, lo, hi);
      var lo2, hi2 := AddVector(d, i + 16, lo1, hi1);
      BlockIsWords(d, n);
      BlockIsWords(d, n + 8);
      Congruent(lo.Sum() + hi.Sum(), Words(d, n), Block(d, i));
      Congruent(lo1.Sum() + hi1.Sum(), Words(d, n + 8), Block(d, i + 16));
      lo, hi := lo2, hi2;
      i, n := i + 32, n + 16;
    }
    Congruent(lo.Sum() + hi.Sum(), Words(d, n), start);
    sum := Add32(start, lo.Sum() + hi.Sum());
    Added(start, lo.Sum() + hi.Sum());
    sum := SumRest(d, i, sum, start, n);
  }

  lemma Congruent(a: int, b: int, c: int)
    ensures Wrap(a) == Wrap(b) ==> Wrap(a + c) == Wrap(b + c)
  {
    WrapAdd(a, c);
    WrapAdd(b, c);
  }

  lemma Added(a: u32, n: int)
    ensures Add32(a, n) == Wrap(a + n)
  {
  }

  lemma NoLanes()
    ensures Lanes(0, 0, 0, 0).Sum() == 0
  {
  }

  // ---- folding ----

  /** The one's-complement value of a sum: congruent modulo 65535, and zero only for zero. */
  function Folded(sum: nat): u16 {
    if sum == 0 then 0 else (sum - 1) % 0xffff + 1
  }

  method Fold(sum0: u32) returns (r: u16)
    ensures r == 0xffff - Folded(sum0)
  {
    hide Folded;
    var sum: nat := sum0;
    while sum / 0x1_0000 > 0
      invariant Folded(sum) == Folded(sum0)
      decreases sum
    {
      FoldStep(sum);
      sum := sum % 0x1_0000 + sum / 0x1_0000;
    }
    FoldEnd(sum);
    r := 0xffff - sum;
  }

  lemma FoldStep(sum: nat)
    requires sum >= 0x1_0000
    ensures Folded(sum % 0x1_0000 + sum / 0x1_0000) == Folded(sum)
    ensures 0 < sum % 0x1_0000 + sum / 0x1_0000 < sum
  {
    var lo, hi := sum % 0x1_0000, sum / 0x1_0000;
    assert sum - 1 == lo + hi - 1 + hi * 0xffff;
    ModShift(lo + hi - 1, hi);
  }

  lemma {:induction false} ModShift(a: nat, k: nat)
    ensures (a + k * 0xffff) % 0xffff == a % 0xffff
  {
    if k > 0 {
      ModShift(a, k - 1);
      assert a + k * 0xffff == (a + (k - 1) * 0xffff) + 0xffff;
    }
  }

  lemma FoldEnd(sum: nat)
    requires sum < 0x1_0000
    ensures Folded(sum) == sum
  {
  }

  /** A sum completed by its own checksum folds to all ones: such data verifies to zero. */
  lemma Completed(sum: nat)
    ensures Folded(sum + (0xffff - Folded(sum))) == 0xffff
    ensures Folded(sum) == 0xffff ==> Folded(sum + 0xffff) == 0xffff
  {
    if sum > 0 {
      var q := (sum - 1) / 0xffff;
      var r := (sum - 1) % 0xffff;
      assert sum - 1 == q * 0xffff + r;
      ModShift(0xfffe, q);
      if Folded(sum) == 0xffff { ModShift(0xfffe, q + 1); }
    }
  }

  // ---- stamping ----

  /** The checksum of a sum; zero means that the data verifies. */
  function CheckOf(sum: nat): u16 {
    0xffff - Folded(sum)
  }

  /** The checksum negates the data modulo 65535, and is all ones only for zero. */
  lemma CheckNegates(d: seq<byte>)
    requires |d| % 2 == 0
    ensures (CheckOf(Total(d)) + Value(d)) % 0xffff == 0 && (CheckOf(Total(d)) == 0xffff <==> Total(d) == 0)
  {
    TotalIsValue(d);
    hide Total, Value;
    var t, v := Total(d), Value(d);
    FoldedIs(t);
    assert v == v % 0xffff + v / 0xffff * 0xffff;
    ModShift(CheckOf(t) + v % 0xffff, v / 0xffff);
  }

  lemma FoldedIs(sum: nat)
    ensures Folded(sum) % 0xffff == sum % 0xffff && (Folded(sum) == 0 <==> sum == 0)
  {
    if sum > 0 {
      var q := (sum - 1) / 0xffff;
      ModShift(Folded(sum), q);
      assert sum == Folded(sum) + q * 0xffff;
    }
  }

  /** The pseudo header of RFC 793 and RFC 768 for IPv4, and of section 8.1 of RFC 8200 for IPv6. */
  function PseudoHeader(src: seq<byte>, dst: seq<byte>, protocol: byte, len: nat): seq<byte>
    requires len <= 0xffff
  {
    if |src| == 4 then src + dst + [0, protocol, len / 256, len % 256]
    else src + dst + [0, 0, len / 256, len % 256, 0, 0, 0, protocol]
  }

  lemma LastFields(protocol: byte, len: nat)
    requires len <= 0xffff
    ensures Total([0, protocol, len / 256, len % 256]) == protocol + len
    ensures Total([0, 0, len / 256, len % 256, 0, 0, 0, protocol]) == protocol + len
  {
    var four, six := [0, protocol, len / 256, len % 256], [0, 0, len / 256, len % 256, 0, 0, 0, protocol];
    assert Words(four, 1) == protocol;
    assert Words(six, 1) == 0;
    assert Words(six, 2) == len;
    assert Words(six, 3) == len;
  }

  /** The sum as the code forms it: both addresses, the protocol and the length. */
  lemma PseudoTotal(src: seq<byte>, dst: seq<byte>, protocol: byte, len: nat, segment: seq<byte>)
    requires len <= 0xffff && |src| % 2 == 0 && |dst| % 2 == 0
    ensures Total(PseudoHeader(src, dst, protocol, len) + segment) == Total(src) + Total(dst) + protocol + len + Total(segment)
  {
    hide Total;
    LastFields(protocol, len);
    TotalConcat(src, dst);
    TotalConcat(src + dst, [0, protocol, len / 256, len % 256]);
    TotalConcat(src + dst, [0, 0, len / 256, len % 256, 0, 0, 0, protocol]);
    TotalConcat(PseudoHeader(src, dst, protocol, len), segment);
  }

  /** `d` with the big-endian word `c` at `k`. */
  function Stamped(d: seq<byte>, k: nat, c: u16): seq<byte>
    requires k + 1 < |d|
  {
    d[k := c / 256][k + 1 := c % 256]
  }

  lemma {:induction false} WordsStamped(d: seq<byte>, k: nat, c: u16, n: nat)
    requires 2 * k + 1 < |d| && 2 * n <= |d| + 1
    ensures Words(Stamped(d, 2 * k, c), n) == Words(d, n) + if k < n then c - Word(d, 2 * k) else 0
  {
    if n > 0 {
      WordsStamped(d, k, c, n - 1);
      var e := Stamped(d, 2 * k, c);
      assert Word(e, 2 * n - 2) == if n - 1 == k then c else Word(d, 2 * n - 2);
    }
  }

  lemma StampTotal(d: seq<byte>, k: nat, c: u16)
    requires 2 * k + 1 < |d|
    ensures Total(Stamped(d, 2 * k, c)) == Total(d) + c - Word(d, 2 * k)
  {
    WordsStamped(d, k, c, (|d| + 1) / 2);
  }

  method IpChecksum(d: seq<byte>) returns (r: u16)
    requires |d| <= 0xffff
    ensures r == CheckOf(Total(d))
  {
    TotalBound(d);
    var sum := SumVector(d, 0);
    r := Fold(sum);
  }

  /** The address loop: an even number of bytes. */
  method AddAddress(a: seq<byte>, sum0: u32) returns (sum: u32)
    requires |a| in {4, 16} && sum0 <= 0x10_0000
    ensures sum == sum0 + Total(a) && Total(a) <= 8 * 0xffff
  {
    WordsBound(a, (|a| + 1) / 2);
    sum := SumRest(a, 0, sum0, sum0, 0);
  }

  method TcpUdpChecksum(src: seq<byte>, dst: seq<byte>, protocol: byte, segment: seq<byte>) returns (r: u16)
    requires |src| == |dst| && |src| in {4, 16} && |segment| <= 0xffff
    ensures r == CheckOf(Total(PseudoHeader(src, dst, protocol, |segment|) + segment))
  {
    hide Folded, Total, PseudoHeader;
    PseudoTotal(src, dst, protocol, |segment|, segment);
    var sum := AddAddress(src, 0);
    sum := AddAddress(dst, sum);
    sum := sum + protocol + |segment|;
    TotalBound(segment);
    var body := SumVector(segment, 0);
    r := Fold(sum + body);
  }

  /** The header checksum leaves its own field out. */
  method Ipv4Checksum(h: seq<byte>) returns (r: u16)
    requires 12 <= |h| <= 60 && |h| % 2 == 0
    ensures r == CheckOf(Total(Stamped(h, 10, 0)))
  {
    hide Folded, Word;
    var e := Stamped(h, 10, 0);
    var sum, i := 0, 0;
    ghost var n: nat := 0;
    while i + 1 < |h|
      invariant i == 2 * n <= |h| && sum == Words(e, n) <= 30 * 0xffff
    {
      SkipsField(h, n);
      WordsBound(e, n + 1);
      sum := sum + if i == 10 then 0 else Word(h, i);
      i, n := i + 2, n + 1;
    }
    r := Fold(sum);
  }

  lemma SkipsField(h: seq<byte>, n: nat)
    requires 12 <= |h| && 2 * n + 1 < |h|
    ensures Word(Stamped(h, 10, 0), 2 * n) == if n == 5 then 0 else Word(h, 2 * n)
  {
  }

  /** A header stamped with its checksum verifies to zero, whatever the field held before. */
  method StampIpv4(h: seq<byte>) returns (out: seq<byte>)
    requires 12 <= |h| <= 60 && |h| % 2 == 0
    ensures |out| == |h| && CheckOf(Total(out)) == 0
    ensures forall i :: 0 <= i < |h| && i != 10 && i != 11 ==> out[i] == h[i]
  {
    hide Folded, Total;
    var c := Ipv4Checksum(h);
    out := Stamped(h, 10, c);
    var e := Stamped(h, 10, 0);
    assert Stamped(e, 10, c) == out;
    StampTotal(e, 5, c);
    Completed(Total(e));
  }

  /**
   A segment whose checksum field at `k` is zero, stamped over the pseudo header, verifies to zero.  In UDP a checksum
   of zero is sent as 0xffff (RFC 768), so the field is never zero.
   */
  method StampSegment(src: seq<byte>, dst: seq<byte>, protocol: byte, segment: seq<byte>, k: nat, udp: bool)
    returns (out: seq<byte>)
    requires |src| == |dst| && |src| in {4, 16} && 2 * k + 1 < |segment| <= 0xffff
    requires segment[2 * k] == 0 && segment[2 * k + 1] == 0
    ensures |out| == |segment| && CheckOf(Total(PseudoHeader(src, dst, protocol, |out|) + out)) == 0
    ensures udp ==> Word(out, 2 * k) != 0
    ensures forall i :: 0 <= i < |out| && i != 2 * k && i != 2 * k + 1 ==> out[i] == segment[i]
  {
    hide Folded, Total, PseudoHeader;
    var c := TcpUdpChecksum(src, dst, protocol, segment);
    if udp && c == 0 {
      c := 0xffff;
    }
    out := Stamped(segment, 2 * k, c);
    StampTotal(segment, k, c);
    PseudoTotal(src, dst, protocol, |segment|, segment);
    PseudoTotal(src, dst, protocol, |segment|, out);
    Completed(Total(PseudoHeader(src, dst, protocol, |segment|) + segment));
  }

  /** The same for an ICMP message, which has no pseudo header. */
  method StampIcmp(message: seq<byte>) returns (out: seq<byte>)
    requires 4 <= |message| <= 0xffff && message[2] == 0 && message[3] == 0
    ensures |out| == |message| && CheckOf(Total(out)) == 0
    ensures forall i :: 0 <= i < |out| && i != 2 && i != 3 ==> out[i] == message[i]
  {
    hide Folded, Total;
    var c := IpChecksum(message);
    out := Stamped(message, 2, c);
    StampTotal(message, 1, c);
    Completed(Total(message));
  }
}
