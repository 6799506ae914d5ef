/** The options of a SYN: whether the peer asks for window scaling, and by how much. */
module SynOptions {
  import opened Bytes
  import DelayedAck

  // no shift larger than this is taken
  const MAX_SCALE: nat := 14

  /** One option; a NOP is a single byte, any other carries its length. */
  datatype Item = Nop | Tlv(kind: byte, body: seq<byte>)
  {
    predicate Legal() {
      Tlv? ==> kind > 1 && |body| <= 253
    }

    function Bytes(): seq<byte>
      requires Legal()
    {
      if Nop? then [1] else [kind, 2 + |body|] + body
    }

    /** The shift after this option, if it was `best` before. */
    function Scale(best: Option<nat>): Option<nat> {
      if Tlv? && kind == 3 && |body| == 1 && body[0] <= MAX_SCALE then Some(body[0]) else best
    }
  }

  /** What the rest `opts` of the options makes of the shift `best`. */
  function Scan(opts: seq<byte>, best: Option<nat>): (r: Option<nat>)
    requires best.Some? ==> best.value <= MAX_SCALE
    ensures r.Some? ==> r.value <= MAX_SCALE
    decreases |opts|
  {
    if |opts| < 2 || opts[0] == 0 then best
    else if opts[0] == 1 then Scan(opts[1..], best)
    else if opts[1] < 2 || opts[1] > |opts| then best
    else Scan(opts[opts[1]..], if opts[0] == 3 && opts[1] == 3 && opts[2] <= MAX_SCALE then Some(opts[2]) else best)
  }

  /** The shift that the peer announced; every byte string is an option field of some SYN. */
  method WindowScale(opts: seq<byte>) returns (r: Option<nat>)
    ensures r == Scan(opts, None) && (r.Some? ==> r.value <= MAX_SCALE)
  {
    r := None;
    var o := 0;
    while o + 2 <= |opts| && opts[o] != 0
      invariant 0 <= o <= |opts| && (r.Some? ==> r.value <= MAX_SCALE)
      invariant Scan(opts[o..], r) == Scan(opts, None)
      decreases |opts| - o
    {
      var kind := opts[o];
      if kind == 1 {
        assert opts[o..][1..] == opts[o + 1..];
        o := o + 1;
        continue;
      }
      var len := opts[o + 1];
      if len < 2 || o + len > |opts| {
        break;
      }
      assert opts[o..][len..] == opts[o + len..];
      if kind == 3 && len == 3 && opts[o + 2] <= MAX_SCALE {
        r := Some(opts[o + 2]);
      }
      o := o + len;
    }
  }

  // ---- well-formed option lists ----

  function Encoded(items: seq<Item>): seq<byte>
    requires forall i :: 0 <= i < |items| ==> items[i].Legal()
  {
    if items == [] then [] else items[0].Bytes() + Encoded(items[1..])
  }

  /** The shift of the last window scale option that is legal and not too large. */
  function LastScale(items: seq<Item>, best: Option<nat>): Option<nat> {
    if items == [] then best else LastScale(items[1..], items[0].Scale(best))
  }

  /** What may follow the options: nothing, or an end mark and anything. */
  predicate Padding(pad: seq<byte>) {
    pad == [] || pad[0] == 0
  }

  lemma ScanItem(it: Item, rest: seq<byte>, best: Option<nat>)
    requires it.Legal() && (best.Some? ==> best.value <= MAX_SCALE)
    ensures Scan(it.Bytes() + rest, best) == Scan(rest, it.Scale(best))
  {
    var head := it.Bytes();
    var all := head + rest;
    assert all[|head|..] == rest;
    if it.Tlv? {
      assert all[0] == it.kind && all[1] == |head| == 2 + |it.body|;
      assert |it.body| == 1 ==> all[2] == it.body[0];
    }
  }

  /** In a list of options the last acceptable window scale counts, wherever it stands and whatever surrounds it. */
  lemma {:induction false} ScanEncoded(items: seq<Item>, pad: seq<byte>, best: Option<nat>)
    requires (forall i :: 0 <= i < |items| ==> items[i].Legal()) && Padding(pad) && (best.Some? ==> best.value <= MAX_SCALE)
    ensures Scan(Encoded(items) + pad, best) == LastScale(items, best)
    decreases |items|
  {
    if items == [] {
      assert Encoded(items) + pad == pad;
    } else {
      var rest := Encoded(items[1..]) + pad;
      assert Encoded(items) + pad == items[0].Bytes() + rest;
      ScanItem(items[0], rest, best);
      hide Scan;
      ScanEncoded(items[1..], pad, items[0].Scale(best));
    }
  }

  // ---- the answer ----

  /** The options of the SYN-ACK: the MSS, and a window scale if the SYN brought one that was taken. */
  function Answer(mss: nat, asked: bool): seq<byte>
    requires mss <= 0xffff
  {
    [2, 4, mss / 256, mss % 256] + if asked then [3, 3, DelayedAck.RCV_WND_SCALE, 1] else [1, 1, 1, 1]
  }

  /** A peer that reads the answer by the same rules shifts exactly if it asked for it, and by what the flow will shift. */
  lemma AnswerScans(opts: seq<byte>, mss: nat)
    requires mss <= 0xffff
    ensures Scan(Answer(mss, Scan(opts, None).Some?), None)
            == if Scan(opts, None).Some? then Some(DelayedAck.RCV_WND_SCALE) else None
  {
    AnswerIs(mss, Scan(opts, None).Some?);
  }

  lemma AnswerIs(mss: nat, asked: bool)
    requires mss <= 0xffff
    ensures Scan(Answer(mss, asked), None) == if asked then Some(DelayedAck.RCV_WND_SCALE) else None
  {
    var size, scale := Tlv(2, [mss / 256, mss % 256]), Tlv(3, [DelayedAck.RCV_WND_SCALE]);
    if asked {
      assert Answer(mss, true) == size.Bytes() + (scale.Bytes() + [1]);
      ScanItem(size, scale.Bytes() + [1], None);
      ScanItem(scale, [1], None);
    } else {
      assert Answer(mss, false) == size.Bytes() + (Nop.Bytes() + (Nop.Bytes() + (Nop.Bytes() + [1])));
      ScanItem(size, Nop.Bytes() + (Nop.Bytes() + (Nop.Bytes() + [1])), None);
      ScanItem(Nop, Nop.Bytes() + (Nop.Bytes() + [1]), None);
      ScanItem(Nop, Nop.Bytes() + [1], None);
      ScanItem(Nop, [1], None);
    }
  }
}
