/** sendrecv and barrier of 01_uct_am_hello_world as one peer runs them, and the whole
    list of rounds over one connection. */
module OutOfBand {
  import opened Bytes
  import opened Socket
  import opened Exchange

  /** The stream begins with a complete length-prefixed buffer of acceptable length. */
  predicate Complete(b: seq<Byte>) {
    |b| >= 8 && FromLE(b[..8]) <= SIZE_MAX / 2 && |b| >= 8 + FromLE(b[..8])
  }

  /** Such a stream is the frame of that buffer and what follows it. */
  lemma CompleteIsFrame(b: seq<Byte>)
    requires Complete(b)
    ensures
      var n := FromLE(b[..8]);
      b == Frame(Swap, b[8..8 + n]) + b[8 + n..]
  {
    LEofFromLE(b[..8]);
    var n := FromLE(b[..8]);
    assert b == b[..8] + b[8..8 + n] + b[8 + n..];
  }

  /** A frame of a buffer that fits into an int is complete, and is read as that buffer. */
  lemma FrameIsComplete(buf: seq<Byte>, rest: seq<Byte>)
    requires |buf| < 0x8000_0000
    ensures
      var b := Frame(Swap, buf) + rest;
      Complete(b) && FromLE(b[..8]) == |buf| && b[8..8 + |buf|] == buf && b[8 + |buf|..] == rest
  {
    FieldRanges();
    FromLEofLE(|buf|, 8);
    assert (Frame(Swap, buf) + rest)[..8] == LE(|buf|, 8);
  }

  /** The first half of sendrecv: length and buffer, each in one send that must be complete
      as far as the comparison as int can tell. */
  method SendBuffer(sock: Connection, sbuf: seq<Byte>) returns (ok: bool)
    modifies sock`sent
    ensures ok && |sbuf| < 0xFFFF_FFFF ==> sock.sent == old(sock.sent) + Frame(Swap, sbuf)
    ensures sock.reliable ==> ok && sock.sent == old(sock.sent) + Frame(Swap, sbuf)
  {
    var n := sock.SendWhole(LE(|sbuf|, 8));
    if n < 0 || n != 8 { return false; }
    assert LE(|sbuf|, 8)[..8] == LE(|sbuf|, 8);
    ghost var before := sock.sent;
    n := sock.SendWhole(sbuf);
    if |sbuf| < 0xFFFF_FFFF { CastCheck(|sbuf|, n); }
    ok := ToInt(n) == ToInt(|sbuf|);
    if n == |sbuf| {
      assert sbuf[..|sbuf|] == sbuf;
      assert n <= 0 ==> sbuf == [] && before + sbuf == before;
      MoveFirst(before + sbuf, old(sock.sent), LE(|sbuf|, 8), sbuf);
    }
  }

  /** The second half: length and buffer of the peer. */
  method ReceiveBuffer(sock: Connection, memory: bool) returns (rbuf: Option<seq<Byte>>)
    modifies sock`incoming, sock`asked
    ensures rbuf.Some? ==>
              memory && |old(sock.incoming)| >= 8 && |rbuf.value| == FromLE(old(sock.incoming)[..8]) <= SIZE_MAX / 2
    ensures rbuf.Some? && |rbuf.value| < 0xFFFF_FFFF ==> old(sock.incoming) == Frame(Swap, rbuf.value) + sock.incoming
    ensures sock.reliable && memory && Complete(old(sock.incoming)) ==> rbuf.Some?
  {
    ghost var b := sock.incoming;
    var n, data := sock.RecvWaitAll(8);
    if n != 8 || FromLE(data) > SIZE_MAX / 2 { return None; }
    var rlen := FromLE(data);
    if !memory { return None; }
    n, data := sock.RecvWaitAll(rlen);
    if ToInt(n) != ToInt(rlen) { return None; }
    // the rest of the buffer is as calloc left it
    rbuf := Some(data + seq(rlen - |data|, _ => 0));
    if rlen < 0xFFFF_FFFF {
      CastCheck(rlen, n);
      assert data == b[8..][..rlen] && sock.incoming == b[8..][rlen..];
      FrameInFront(b, rlen);
      assert rbuf.value == data;
    }
  }

  lemma FrameInFront(b: seq<Byte>, n: nat)
    requires |b| >= 8 && n == FromLE(b[..8]) <= SIZE_MAX / 2 && |b| >= 8 + n
    ensures b == Frame(Swap, b[8..][..n]) + b[8..][n..]
  {
    CompleteIsFrame(b);
    assert b[8..][..n] == b[8..8 + n] && b[8..][n..] == b[8 + n..];
  }

  /** sendrecv.  `memory` says whether calloc succeeds.  On success the buffer went out as
      one frame and exactly one frame was read, as far as the comparisons as int can tell
      (Socket.CastCheckExactly); on a good connection it fails only for want of memory or
      of a complete frame. */
  method SendRecv(sock: Connection, sbuf: seq<Byte>, memory: bool) returns (ret: int, rbuf: seq<Byte>)
    modifies sock
    ensures ret == 0 || ret == -1
    ensures ret == 0 && |sbuf| < 0xFFFF_FFFF ==> sock.sent == old(sock.sent) + Frame(Swap, sbuf)
    ensures ret == 0 ==> memory && |old(sock.incoming)| >= 8 && |rbuf| == FromLE(old(sock.incoming)[..8]) <= SIZE_MAX / 2
    ensures ret == 0 && |rbuf| < 0xFFFF_FFFF ==> old(sock.incoming) == Frame(Swap, rbuf) + sock.incoming
    ensures sock.reliable && memory && Complete(old(sock.incoming)) ==> ret == 0
    ensures sock.reliable ==> sock.sent == old(sock.sent) + Frame(Swap, sbuf)
  {
    hide Frame;
    var ok := SendBuffer(sock, sbuf);
    if !ok { return -1, []; }
    var got := ReceiveBuffer(sock, memory);
    if got.None? { return -1, []; }
    ret, rbuf := 0, got.value;
  }

  /** barrier: 0 exactly when four bytes of the peer were read.  Of its own word it may
      have sent less than the whole: only a negative result of send is noticed, and after any
      other the peer's word is asked for. */
  method BarrierCall(sock: Connection) returns (ret: int)
    modifies sock
    ensures ret == 0 ==> |old(sock.incoming)| >= 4 && sock.incoming == old(sock.incoming)[4..]
    ensures ret != 0 ==> exists k :: 0 <= k < 4 && k <= |old(sock.incoming)| && sock.incoming == old(sock.incoming)[k..]
    ensures exists k :: 0 <= k <= 4 && sock.sent == old(sock.sent) + Frame(Barrier, [])[..k]
    ensures ret == 0 <==> |old(sock.incoming)| - |sock.incoming| == 4
    ensures |sock.sent| > |old(sock.sent)| ==> sock.asked == old(sock.asked) + 4 && (ret == 0 || ret == 1)
    ensures sock.reliable ==> sock.sent == old(sock.sent) + Frame(Barrier, [])
    ensures sock.reliable ==> (ret == 0 <==> |old(sock.incoming)| >= 4)
  {
    ghost var b := sock.incoming;
    assert b[0..] == b;
    var n := sock.SendWhole([0, 0, 0, 0]);
    if n <= 0 { assert old(sock.sent) + Frame(Barrier, [])[..0] == old(sock.sent); }
    if n < 0 { return n; }
    assert sock.sent == old(sock.sent) + Frame(Barrier, [])[..n];
    var dummy;
    n, dummy := sock.RecvWaitAll(4);
    ret := if n == 4 then 0 else 1;
  }

  /** One round against a peer that sends its frame of the same round. */
  method OneRound(sock: Connection, memory: bool, kind: Kind, mine: seq<Byte>, ghost theirs: seq<Byte>, ghost later: seq<Byte>)
    returns (ok: bool, rbuf: seq<Byte>)
    requires |mine| < 0x8000_0000 && |theirs| < 0x8000_0000 && (kind.Barrier? ==> mine == theirs == [])
    requires sock.incoming == Frame(kind, theirs) + later
    modifies sock
    ensures ok ==> rbuf == theirs && sock.incoming == later
    ensures sock.reliable && memory ==> ok
    ensures sock.reliable ==> sock.sent == old(sock.sent) + Frame(kind, mine)
  {
    if kind.Swap? {
      FrameIsComplete(theirs, later);
      var ret;
      ret, rbuf := SendRecv(sock, mine, memory);
      ok := ret == 0;
      if ok { SameFrame(rbuf, sock.incoming, theirs, later); }
    } else {
      var ret := BarrierCall(sock);
      assert (Frame(Barrier, theirs) + later)[4..] == later;
      ok, rbuf := ret == 0, [];
    }
  }

  /** All rounds of one peer, up to the first that fails: against a peer that sends the
      frames of the same rounds, every finished round got exactly the other's buffer.  On
      a good connection all rounds finish, exactly the own frames were sent, and what
      follows on the stream is untouched. */
  method AllRounds(sock: Connection, memory: bool, kinds: seq<Kind>, mine: seq<seq<Byte>>,
                   ghost theirs: seq<seq<Byte>>, ghost rest: seq<Byte>)
    returns (ok: bool, got: seq<seq<Byte>>)
    requires Payloads(kinds, mine) && Payloads(kinds, theirs)
    requires sock.incoming == Frames(kinds, theirs, 0) + rest
    modifies sock
    ensures got <= theirs
    ensures ok ==> got == theirs && sock.incoming == rest
    ensures sock.reliable && memory ==> ok && sock.sent == old(sock.sent) + Frames(kinds, mine, 0)
  {
    hide Frame, Made;
    got := [];
    var k := 0;
    ghost var all := sock.sent + Frames(kinds, mine, 0);
    assert Made(all, sock.sent, Frames(kinds, mine, 0)) && Made(sock.incoming, Frames(kinds, theirs, 0), rest) by { MadeFrom(); }
    while k < |kinds|
      invariant 0 <= k <= |kinds| && got == theirs[..k]
      invariant Made(sock.incoming, Frames(kinds, theirs, k), rest)
      invariant sock.reliable ==> Made(all, sock.sent, Frames(kinds, mine, k))
    {
      ghost var later := Frames(kinds, theirs, k + 1) + rest;
      MoveFirst(sock.incoming, Frame(kinds[k], theirs[k]), Frames(kinds, theirs, k + 1), rest);
      ghost var before := sock.sent;
      var rbuf;
      ok, rbuf := OneRound(sock, memory, kinds[k], mine[k], theirs[k], later);
      if !ok { return; }
      if sock.reliable { MoveOver(all, before, Frame(kinds[k], mine[k]), Frames(kinds, mine, k + 1)); }
      assert Made(sock.incoming, Frames(kinds, theirs, k + 1), rest) by { MadeFrom(); }
      got := got + [rbuf];
      k := k + 1;
    }
    ok := true;
    MadeOf(all, sock.sent, []);
    MadeOf(sock.incoming, [], rest);
  }

  /** The stream is made of these two parts. */
  predicate Made(all: seq<Byte>, a: seq<Byte>, b: seq<Byte>) { all == a + b }

  lemma MadeFrom()
    ensures forall a: seq<Byte>, b: seq<Byte> :: Made(a + b, a, b)
  {
  }

  lemma MadeOf(all: seq<Byte>, a: seq<Byte>, b: seq<Byte>)
    ensures Made(all, a, b) ==> all == a + b && (b == [] ==> all == a) && (a == [] ==> all == b)
  {
  }

  lemma MoveOver(all: seq<Byte>, a: seq<Byte>, b: seq<Byte>, c: seq<Byte>)
    ensures Made(all, a, b + c) ==> Made(all, a + b, c)
  {
    assert (a + b) + c == a + (b + c);
  }

  lemma MoveFirst(all: seq<Byte>, a: seq<Byte>, b: seq<Byte>, c: seq<Byte>)
    ensures Made(all, a + b, c) ==> all == a + (b + c)
  {
    assert (a + b) + c == a + (b + c);
  }

  /** Two frames that begin the same stream are the same. */
  lemma SameFrame(x: seq<Byte>, r: seq<Byte>, y: seq<Byte>, s: seq<Byte>)
    requires Frame(Swap, x) + r == Frame(Swap, y) + s && |y| < 0x8000_0000
    requires |x| <= SIZE_MAX / 2
    ensures x == y && r == s
  {
    FrameIsComplete(y, s);
    FieldRanges();
    FromLEofLE(|x|, 8);
    var b := Frame(Swap, x) + r;
    assert b[..8] == LE(|x|, 8);
    assert b[8..8 + |x|] == x && b[8 + |x|..] == r;
  }
}
