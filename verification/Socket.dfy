/** A connected TCP socket, as the code sees it: how many bytes each call moves is up
    to the network. */
module Socket {
  import opened Bytes

  /** The conversion of a size to int: the low 32 bits, as a signed number. */
  function ToInt(n: int): (r: int)
    ensures -0x8000_0000 <= r < 0x8000_0000
    ensures -0x8000_0000 <= n < 0x8000_0000 ==> r == n
  {
    var low := n % 0x1_0000_0000;
    if low < 0x8000_0000 then low else low - 0x1_0000_0000
  }

  /** A call that was asked for `want` bytes moved n of them, or failed with -1.  The
      code compares the two as int, which recognises every short or failed call exactly
      if fewer than 2^32 - 1 bytes were asked for. */
  lemma CastCheckExactly(want: nat)
    ensures (forall n: int | -1 <= n <= want && ToInt(n) == ToInt(want) :: n == want) <==> want < 0xFFFF_FFFF
  {
    if want < 0xFFFF_FFFF {
      forall n: int | -1 <= n <= want && ToInt(n) == ToInt(want) ensures n == want {
        CastCheck(want, n);
      }
    } else {
      var n := want - 0x1_0000_0000;
      assert n % 0x1_0000_0000 == want % 0x1_0000_0000;
      assert -1 <= n <= want && ToInt(n) == ToInt(want);
    }
  }

  lemma CastCheck(want: nat, n: int)
    requires -1 <= n <= want < 0xFFFF_FFFF
    ensures ToInt(n) == ToInt(want) <==> n == want
  {
  }

  class Connection {
    /** All bytes accepted for sending so far. */
    var sent: seq<Byte>
    /** The bytes still to be read before the end of the stream. */
    var incoming: seq<Byte>
    /** How many bytes the code has asked for so far. */
    ghost var asked: nat
    /** No call fails; only the end of the stream stops a reader. */
    const reliable: bool

    constructor (incoming: seq<Byte>, reliable: bool)
      ensures sent == [] && this.incoming == incoming && this.reliable == reliable && asked == 0
    {
      sent, this.incoming, this.reliable, asked := [], incoming, reliable, 0;
    }

    /** send: takes any non-empty part of the buffer, or fails. */
    method Send(buf: seq<Byte>) returns (n: int)
      requires buf != []
      modifies this`sent
      ensures -1 <= n <= |buf| && (reliable ==> n > 0)
      ensures sent == old(sent) + (if n > 0 then buf[..n] else [])
    {
      n := 1;
      n :| -1 <= n <= |buf| && (reliable ==> n > 0);
      if n > 0 { sent := sent + buf[..n]; }
    }

    /** recv: yields any non-empty part of what comes next, 0 at the end, or fails. */
    method Recv(space: nat) returns (n: int, data: seq<Byte>)
      requires space > 0
      modifies this`incoming, this`asked
      ensures -1 <= n <= space && n <= |old(incoming)| && (reliable ==> (n <= 0 <==> old(incoming) == []))
      ensures data == (if n > 0 then old(incoming)[..n] else [])
      ensures incoming == (if n > 0 then old(incoming)[n..] else old(incoming)) && asked == old(asked) + space
    {
      n := if incoming == [] then 0 else 1;
      n :| -1 <= n <= space && n <= |incoming| && (reliable ==> (n <= 0 <==> incoming == []));
      data := [];
      if n > 0 { data, incoming := incoming[..n], incoming[n..]; }
      asked := asked + space;
    }

    /** A blocking send of a whole buffer: all of it, unless the connection fails. */
    method SendWhole(buf: seq<Byte>) returns (n: int)
      modifies this`sent
      ensures -1 <= n <= |buf| && (reliable ==> n == |buf|)
      ensures sent == old(sent) + (if n > 0 then buf[..n] else [])
    {
      n := |buf|;
      n :| -1 <= n <= |buf| && (reliable ==> n == |buf|);
      if n > 0 { sent := sent + buf[..n]; }
    }

    /** recv with MSG_WAITALL: all that is asked for, less only at the end of the
        stream or on a failure. */
    method RecvWaitAll(space: nat) returns (n: int, data: seq<Byte>)
      modifies this`incoming, this`asked
      ensures -1 <= n <= space && n <= |old(incoming)|
      ensures reliable ==> n == if space <= |old(incoming)| then space else |old(incoming)|
      ensures data == (if n > 0 then old(incoming)[..n] else [])
      ensures incoming == (if n > 0 then old(incoming)[n..] else old(incoming)) && asked == old(asked) + space
    {
      n := if space <= |incoming| then space else |incoming|;
      n :| -1 <= n <= space && n <= |incoming|
        && (reliable ==> n == if space <= |incoming| then space else |incoming|);
      data := [];
      if n > 0 { data, incoming := incoming[..n], incoming[n..]; }
      asked := asked + space;
    }
  }
}
