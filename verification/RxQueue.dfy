/** The in-order receive queue of a flow and the read that may be waiting on it. */
module RxQueue {
  import opened Bytes

  /**
   `data[head..]` is not consumed yet and `bytes` counts it.  `read` is the capacity of the pending read.  `delivered`
   records the bytes of all completed reads and `eof` that a read was completed with end-of-file.
   */
  datatype Queue = Queue(data: seq<byte>, head: nat, bytes: nat, read: Option<nat>, delivered: seq<byte>, eof: bool)
  {
    predicate Sound() {
      && head + bytes == |data|
      && (bytes == 0 ==> data == [])
      && (read.Some? ==> read.value > 0 && bytes == 0)
    }

    function Rest(): seq<byte>
      requires head <= |data|
    {
      data[head..]
    }

    /** All bytes that ever went into the queue. */
    function History(): seq<byte>
      requires head <= |data|
    {
      delivered + Rest()
    }

    function Enqueue(x: seq<byte>): Queue {
      this.(data := data + x, bytes := bytes + |x|)
    }

    /** Complete the pending read with the first bytes of the queue. */
    function Complete(): Queue
      requires head + bytes == |data| && read.Some?
    {
      var n := Min(read.value, bytes);
      this.(read := None, head := head + n, bytes := bytes - n, delivered := delivered + data[head..head + n])
    }

    /** Drop the consumed prefix once it is half of the buffer. */
    function Compact(): (q: Queue)
      requires head <= |data|
      ensures q.read == read && q.bytes == bytes && q.delivered == delivered && q.eof == eof
    {
      if head > 0 && head * 2 >= |data| then this.(data := data[head..], head := 0) else this
    }

    /** Hand `x` straight to the pending read and keep the rest. */
    function Direct(x: seq<byte>): Queue
      requires read.Some?
    {
      var n := Min(read.value, |x|);
      this.(read := None, delivered := delivered + x[..n], data := data + x[n..], bytes := bytes + |x| - n)
    }

    /** The peer's FIN was received: a read on an empty queue ends in end-of-file. */
    function AtFin(): Queue {
      if bytes == 0 && read.Some? then this.(read := None, eof := true) else this
    }

    /** Everything not delivered is thrown away, and the pending read with it. */
    function Clear(): Queue {
      this.(data := [], head := 0, bytes := 0, read := None)
    }

    lemma EnqueueSound(x: seq<byte>)
      requires Sound() && read.None? && x != []
      ensures Enqueue(x).Sound() && Enqueue(x).History() == History() + x
    {
      assert (data + x)[head..] == data[head..] + x;
    }

    lemma DirectSound(x: seq<byte>)
      requires Sound() && read.Some? && x != []
      ensures Direct(x).Sound() && Direct(x).History() == History() + x
    {
      var n := Min(read.value, |x|);
      assert data == [] && head == 0;
      assert data + x[n..] == x[n..];
      JoinSplit(delivered, x, n);
    }

    static lemma JoinSplit(d: seq<byte>, x: seq<byte>, n: nat)
      requires n <= |x|
      ensures d + x[..n] + x[n..] == d + x
    {
    }

    lemma AtFinKeeps()
      requires head <= |data|
      ensures AtFin().head == head && AtFin().data == data && AtFin().History() == History()
    {
    }

    lemma CompactKeeps()
      requires head + bytes == |data|
      ensures Compact().head + bytes == |Compact().data| && Compact().Rest() == Rest()
      ensures bytes == 0 ==> Compact().data == []
      ensures Compact().head == 0 || Compact().head * 2 < |Compact().data|
    {
    }

    lemma TakeKeeps(n: nat)
      requires head + n <= |data|
      ensures data[head..head + n] == Rest()[..n]
      ensures delivered + data[head..head + n] + data[head + n..] == History()
    {
    }

    /** A read on a queue with data takes its first bytes, in order, and loses nothing. */
    lemma CompleteKeeps()
      requires head + bytes == |data| && bytes > 0 && read.Some?
      ensures Complete().head + Complete().bytes == |Complete().data|
      ensures Complete().History() == History()
      ensures Complete().delivered == delivered + Rest()[..Min(read.value, bytes)]
    {
      hide Rest, History;
      TakeKeeps(Min(read.value, bytes));
      Complete().TakeKeeps(0);
    }
  }

  const Empty: Queue := Queue([], 0, 0, None, [], false)
}
