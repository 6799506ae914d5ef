/** IPv4 fragmentation of a UDP datagram, and the reassembly of section 3.2 of RFC 791 as its partner. */
module Fragments {
  import opened Bytes
  import opened OooCache

  const IPV4_HEADER: nat := 20
  const UDP_HEADER: nat := 8
  const MORE: nat := 0x2000

  /** A fragment: the 16-bit flags and offset field, and the payload behind the IPv4 header. */
  datatype Fragment = Fragment(field: nat, payload: seq<byte>)
  {
    predicate More() {
      field / MORE % 2 == 1
    }

    /** The byte offset of the payload in the datagram. */
    function Offset(): nat {
      field % MORE * 8
    }
  }

  /** (last ? 0 : 0x2000) | off / 8. */
  function Field(last: bool, off: nat): nat {
    (if last then 0 else MORE) + off / 8
  }

  lemma FieldDecodes(last: bool, off: nat, payload: seq<byte>)
    requires off % 8 == 0 && off / 8 < MORE
    ensures var f := Fragment(Field(last, off), payload);
            f.Offset() == off && (f.More() <==> !last) && f.field < 0x4000
  {
  }

  /** The payload of a full fragment: a multiple of eight that fits the MTU. */
  function MaxPayload(mtu: nat): nat {
    (if mtu > IPV4_HEADER then mtu - IPV4_HEADER else 0) / 8 * 8
  }

  /** Room for data in the first fragment, behind the UDP header. */
  function FirstData(mtu: nat): nat {
    if MaxPayload(mtu) > UDP_HEADER then (MaxPayload(mtu) - UDP_HEADER) / 8 * 8 else 0
  }

  lemma FirstIsFull(mtu: nat)
    requires MaxPayload(mtu) >= UDP_HEADER
    ensures UDP_HEADER + FirstData(mtu) == MaxPayload(mtu)
    ensures MaxPayload(mtu) % 8 == 0 && IPV4_HEADER + MaxPayload(mtu) <= mtu < IPV4_HEADER + MaxPayload(mtu) + 8
  {
  }

  /** Where fragment `i` starts when every fragment before it is full. */
  function StartOf(i: nat, n: nat): nat {
    if i == 0 then 0 else StartOf(i - 1, n) + n
  }

  /** The fragments cover `d` up to `off`; each but the last one holds `n` bytes. */
  ghost predicate Cut(fs: seq<Fragment>, d: seq<byte>, n: nat, off: nat) {
    && (forall i :: 0 <= i < |fs| ==> Piece(fs[i], d, n, i))
    && off == Min(StartOf(|fs|, n), |d|)
  }

  ghost predicate Piece(f: Fragment, d: seq<byte>, n: nat, i: nat) {
    var s := StartOf(i, n);
    && s < |d| && f.Offset() == s && f.field < 0x4000
    && f.payload == d[s..Min(s + n, |d|)]
    && (f.More() <==> s + n < |d|)
  }

  /** Cut a datagram; an MTU without room for a UDP header is refused. */
  method Split(mtu: nat, d: seq<byte>) returns (r: Option<seq<Fragment>>)
    requires |d| <= 0xffff
    ensures r.None? <==> mtu < IPV4_HEADER + UDP_HEADER
    ensures r.Some? ==> Cut(r.value, d, MaxPayload(mtu), |d|)
    ensures r.Some? ==> forall i :: 0 <= i < |r.value| ==> IPV4_HEADER + |r.value[i].payload| <= mtu
    ensures r.Some? ==> forall i :: 0 <= i < |r.value| && r.value[i].More() ==> mtu < IPV4_HEADER + |r.value[i].payload| + 8
  {
    var max := MaxPayload(mtu);
    var first := FirstData(mtu);
    if max < UDP_HEADER {
      return None;
    }
    FirstIsFull(mtu);
    var fs: seq<Fragment> := [];
    var off := 0;
    while off < |d|
      invariant off <= |d| && Cut(fs, d, max, off)
      invariant forall i :: 0 <= i < |fs| ==> IPV4_HEADER + |fs[i].payload| <= mtu
      invariant forall i :: 0 <= i < |fs| && fs[i].More() ==> mtu < IPV4_HEADER + |fs[i].payload| + 8
    {
      var remain := |d| - off;
      var n := if off == 0 then Min(UDP_HEADER + first, remain) else Min(max, remain);
      var last := off + n >= |d|;
      var f := Fragment(Field(last, off), d[off..off + n]);
      CutMore(fs, d, max, off, f);
      fs := fs + [f];
      off := off + n;
    }
    return Some(fs);
  }

  lemma CutMore(fs: seq<Fragment>, d: seq<byte>, n: nat, off: nat, f: Fragment)
    requires Cut(fs, d, n, off) && off < |d| <= 0xffff && n % 8 == 0 && n > 0
    requires f == Fragment(Field(off + Min(n, |d| - off) >= |d|, off), d[off..off + Min(n, |d| - off)])
    ensures Cut(fs + [f], d, n, off + Min(n, |d| - off))
  {
    var i := |fs|;
    Multiple(i, n);
    FieldDecodes(off + Min(n, |d| - off) >= |d|, off, f.payload);
    hide Fragment.Offset, Fragment.More, Field;
    assert StartOf(i + 1, n) == StartOf(i, n) + n;
    assert Piece(f, d, n, i);
  }

  lemma {:induction false} Multiple(i: nat, n: nat)
    requires n % 8 == 0
    ensures StartOf(i, n) % 8 == 0
  {
    if i > 0 { Multiple(i - 1, n); }
  }

  // ---- reassembly ----

  /** What a receiver has of a datagram: bytes by offset, and the length once a fragment without MF has come. */
  datatype Assembly = Assembly(bytes: map<int, byte>, end: Option<nat>)
  {
    function Take(f: Fragment): Assembly {
      Assembly(Placed(f.Offset(), f.payload) + bytes, if f.More() then end else Some(f.Offset() + |f.payload|))
    }

    predicate Complete() {
      end.Some? && forall q :: 0 <= q < end.value ==> q in bytes
    }

    /** The datagram, when all of it is there. */
    function Datagram(): seq<byte>
      requires Complete()
    {
      seq(end.value, q requires 0 <= q < end.value => bytes[q])
    }

    ghost predicate Of(d: seq<byte>) {
      && (forall q :: q in bytes ==> 0 <= q < |d| && bytes[q] == d[q])
      && (end.Some? ==> end.value == |d|)
    }
  }

  function Assembled(arrivals: seq<Fragment>): Assembly {
    if arrivals == [] then Assembly(map[], None)
    else Assembled(arrivals[..|arrivals| - 1]).Take(arrivals[|arrivals| - 1])
  }

  lemma TakeOf(a: Assembly, f: Fragment, d: seq<byte>, n: nat, i: nat)
    requires a.Of(d) && Piece(f, d, n, i)
    ensures a.Take(f).Of(d)
    ensures forall q :: StartOf(i, n) <= q < Min(StartOf(i, n) + n, |d|) ==> q in a.Take(f).bytes
    ensures !f.More() ==> a.Take(f).end.Some?
  {
    hide Fragment.Offset, Fragment.More;
    var b := a.Take(f);
    forall q | StartOf(i, n) <= q < Min(StartOf(i, n) + n, |d|) ensures q in b.bytes {
      assert Within(f.Offset(), f.payload, q);
    }
  }

  /** Nothing that a receiver has collected is wrong, in whatever order and how often the fragments came. */
  lemma {:induction false} AssembledOf(fs: seq<Fragment>, d: seq<byte>, n: nat, arrivals: seq<Fragment>)
    requires Cut(fs, d, n, |d|) && forall j :: 0 <= j < |arrivals| ==> arrivals[j] in fs
    ensures Assembled(arrivals).Of(d)
    decreases |arrivals|
  {
    if arrivals != [] {
      var k := |arrivals| - 1;
      AssembledOf(fs, d, n, arrivals[..k]);
      var i :| 0 <= i < |fs| && fs[i] == arrivals[k];
      TakeOf(Assembled(arrivals[..k]), fs[i], d, n, i);
    }
  }

  /** A fragment that has come stays collected. */
  lemma {:induction false} Collected(fs: seq<Fragment>, d: seq<byte>, n: nat, arrivals: seq<Fragment>, i: nat)
    requires Cut(fs, d, n, |d|) && i < |fs| && fs[i] in arrivals
    requires forall j :: 0 <= j < |arrivals| ==> arrivals[j] in fs
    ensures forall q :: StartOf(i, n) <= q < Min(StartOf(i, n) + n, |d|) ==> q in Assembled(arrivals).bytes
    ensures !fs[i].More() ==> Assembled(arrivals).end.Some?
    decreases |arrivals|
  {
    var k := |arrivals| - 1;
    AssembledOf(fs, d, n, arrivals[..k]);
    var a := Assembled(arrivals[..k]);
    if arrivals[k] == fs[i] {
      TakeOf(a, fs[i], d, n, i);
    } else {
      assert fs[i] in arrivals[..k];
      Collected(fs, d, n, arrivals[..k], i);
    }
  }

  ghost predicate AllCame(fs: seq<Fragment>, arrivals: seq<Fragment>) {
    forall i :: 0 <= i < |fs| ==> fs[i] in arrivals
  }

  lemma ByteThere(fs: seq<Fragment>, d: seq<byte>, n: nat, arrivals: seq<Fragment>, q: nat)
    requires Cut(fs, d, n, |d|) && n > 0 && q < |d| && AllCame(fs, arrivals)
    requires forall j :: 0 <= j < |arrivals| ==> arrivals[j] in fs
    ensures q in Assembled(arrivals).bytes
    ensures q == |d| - 1 ==> Assembled(arrivals).end.Some?
  {
    var i := Slot(q, n, |fs|);
    Collected(fs, d, n, arrivals, i);
    assert Piece(fs[i], d, n, i);
  }

  /** Once every fragment has come, in any order, the datagram is back; and what is complete is the datagram. */
  lemma RoundTrip(fs: seq<Fragment>, d: seq<byte>, n: nat, arrivals: seq<Fragment>)
    requires Cut(fs, d, n, |d|) && n > 0 && d != []
    requires forall j :: 0 <= j < |arrivals| ==> arrivals[j] in fs
    ensures AllCame(fs, arrivals) ==> Assembled(arrivals).Complete()
    ensures Assembled(arrivals).Complete() ==> Assembled(arrivals).Datagram() == d
  {
    hide Cut, AllCame, Assembled;
    AssembledOf(fs, d, n, arrivals);
    if AllCame(fs, arrivals) {
      ByteThere(fs, d, n, arrivals, |d| - 1);
      forall q | 0 <= q < |d| ensures q in Assembled(arrivals).bytes { ByteThere(fs, d, n, arrivals, q); }
    }
  }

  /** Every byte lies in one of the fragments. */
  lemma {:induction false} Slot(q: nat, n: nat, count: nat) returns (i: nat)
    requires q < StartOf(count, n)
    ensures i < count && StartOf(i, n) <= q < StartOf(i, n) + n
  {
    if StartOf(count - 1, n) <= q {
      i := count - 1;
    } else {
      i := Slot(q, n, count - 1);
    }
  }

  // ---- completion ----

  /** The shared state of a datagram's fragments: how many are out, the first error, and the calls of the handler. */
  datatype Pending = Pending(count: nat, first: Option<int>, calls: seq<Option<int>>)
  {
    function Done(error: Option<int>): Pending
      requires count > 0
    {
      var e := if error.Some? && first.None? then error else first;
      Pending(count - 1, e, if count == 1 then calls + [e] else calls)
    }
  }

  function FirstError(results: seq<Option<int>>): Option<int> {
    if results == [] then None
    else if FirstError(results[..|results| - 1]).Some? then FirstError(results[..|results| - 1])
    else results[|results| - 1]
  }

  function After(n: nat, results: seq<Option<int>>): Pending
    requires |results| <= n
    ensures After(n, results).count == n - |results|
  {
    if results == [] then Pending(n, None, [])
    else After(n, results[..|results| - 1]).Done(results[|results| - 1])
  }

  /** The handler runs once, when the last fragment is written, with the first error that occurred. */
  lemma {:induction false} CompletesOnce(n: nat, results: seq<Option<int>>)
    requires 0 < n && |results| <= n
    ensures After(n, results).calls == if |results| == n then [FirstError(results)] else []
    ensures After(n, results).first == FirstError(results)
    decreases |results|
  {
    if results != [] {
      CompletesOnce(n, results[..|results| - 1]);
    }
  }
}
