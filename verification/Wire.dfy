/** The handshake of 04_ucp_rma_client_server: its wire format, and the loops that
    send and receive it over a socket that splits the bytes as it likes. */
module Wire {
  import opened Bytes
  import opened Socket

  datatype Handshake = Handshake(workerAddr: seq<Byte>, rkey: seq<Byte>, remoteAddr: nat, size: nat)

  const U32: nat := 0x1_0000_0000
  const U64: nat := 0x1_0000_0000_0000_0000

  /** The integer fields are 64 bits wide. */
  predicate Fields(h: Handshake) { h.remoteAddr < U64 && h.size < U64 }

  /** Both vectors have lengths that a 32-bit field can hold. */
  predicate LengthsFit(h: Handshake) { |h.workerAddr| < U32 && |h.rkey| < U32 }

  /** [u32 wlen][waddr][u32 rlen][rkey][u64 raddr][u64 size], lengths cut to 32 bits. */
  function Encode(h: Handshake): seq<Byte> {
    LE(|h.workerAddr| % U32, 4) + h.workerAddr + LE(|h.rkey| % U32, 4) + h.rkey
      + LE(h.remoteAddr, 8) + LE(h.size, 8)
  }

  datatype Parsed<+T> = Ok(value: T, rest: seq<Byte>) | Short

  /** The next `n` bytes. */
  function Take(b: seq<Byte>, n: nat): Parsed<seq<Byte>> {
    if |b| < n then Parsed.Short else Ok(b[..n], b[n..])
  }

  /** A vector with its 32-bit length in front. */
  function TakeVector(b: seq<Byte>): Parsed<seq<Byte>> {
    match Take(b, 4)
    case Short => Parsed.Short
    case Ok(len, rest) => Take(rest, FromLE(len))
  }

  /** recv_fd as a function of the stream: the handshake and the unread bytes, or
      Short when the stream ends before it is complete. */
  function Decode(b: seq<Byte>): Parsed<Handshake> {
    match TakeVector(b)
    case Short => Parsed.Short
    case Ok(workerAddr, b1) =>
      match TakeVector(b1)
      case Short => Parsed.Short
      case Ok(rkey, b2) =>
        match Take(b2, 8)
        case Short => Parsed.Short
        case Ok(remoteAddr, b3) =>
          match Take(b3, 8)
          case Short => Parsed.Short
          case Ok(size, b4) => Ok(Handshake(workerAddr, rkey, FromLE(remoteAddr), FromLE(size)), b4)
  }

  // ---------------------------------------------------------- the wire format

  function Vector(v: seq<Byte>): seq<Byte> { LE(|v| % U32, 4) + v }

  lemma TakePrefix(a: seq<Byte>, rest: seq<Byte>)
    ensures Take(a + rest, |a|) == Ok(a, rest)
  {
    assert (a + rest)[..|a|] == a && (a + rest)[|a|..] == rest;
  }

  lemma VectorRoundTrip(v: seq<Byte>, rest: seq<Byte>)
    requires |v| < U32
    ensures TakeVector(Vector(v) + rest) == Ok(v, rest)
  {
    FieldRanges();
    FromLEofLE(|v|, 4);
    assert Vector(v) + rest == LE(|v|, 4) + (v + rest);
    TakePrefix(LE(|v|, 4), v + rest);
    TakePrefix(v, rest);
  }

  lemma EncodeParts(h: Handshake, rest: seq<Byte>)
    ensures Encode(h) + rest
      == Vector(h.workerAddr) + (Vector(h.rkey) + (LE(h.remoteAddr, 8) + (LE(h.size, 8) + rest)))
  {
  }

  /** Where six parts put one after the other stand. */
  lemma SixParts(all: seq<Byte>, a: seq<Byte>, b: seq<Byte>, c: seq<Byte>, d: seq<Byte>, e: seq<Byte>, f: seq<Byte>)
    requires all == a + b + c + d + e + f
    ensures
      var i, j, k, l := |a| + |b|, |a| + |b| + |c|, |a| + |b| + |c| + |d|, |a| + |b| + |c| + |d| + |e|;
      |all| == l + |f| && all[..|a|] == a && all[|a|..i] == b && all[i..j] == c && all[j..k] == d && all[k..l] == e && all[l..] == f
  {
  }


  /** The bytes of an encoding: four of length, the worker address, four of length, the
      remote key, eight of address, eight of size. */
  ghost predicate LaidOut(e: seq<Byte>, h: Handshake) {
    var n, m := |h.workerAddr|, |h.rkey|;
    && |e| == 24 + n + m
    && Spells(e[..4], n) && e[4..4 + n] == h.workerAddr
    && Spells(e[4 + n..8 + n], m) && e[8 + n..8 + n + m] == h.rkey
    && Spells(e[8 + n + m..16 + n + m], h.remoteAddr) && Spells(e[16 + n + m..], h.size)
  }

  lemma LayOut(e: seq<Byte>, h: Handshake, wlen: seq<Byte>, rlen: seq<Byte>, raddr: seq<Byte>, size: seq<Byte>)
    requires e == wlen + h.workerAddr + rlen + h.rkey + raddr + size
    requires |wlen| == 4 && |rlen| == 4 && |raddr| == 8 && |size| == 8
    requires Spells(wlen, |h.workerAddr|) && Spells(rlen, |h.rkey|) && Spells(raddr, h.remoteAddr) && Spells(size, h.size)
    ensures LaidOut(e, h)
  {
    hide Spells;
    SixParts(e, wlen, h.workerAddr, rlen, h.rkey, raddr, size);
  }

  /** An encoding has these bytes. */
  lemma EncodeLayout(h: Handshake)
    requires Fields(h) && LengthsFit(h)
    ensures LaidOut(Encode(h), h)
  {
    hide Spells, LaidOut;
    var n, m := |h.workerAddr|, |h.rkey|;
    FieldSpells(n, 4);
    FieldSpells(m, 4);
    FieldSpells(h.remoteAddr, 8);
    FieldSpells(h.size, 8);
    assert n % U32 == n && m % U32 == m;
    LayOut(Encode(h), h, LE(n, 4), LE(m, 4), LE(h.remoteAddr, 8), LE(h.size, 8));
  }

  /** Receiving what was sent gives it back, and leaves whatever follows unread. */
  lemma RoundTrip(h: Handshake, rest: seq<Byte>)
    requires Fields(h) && LengthsFit(h)
    ensures Decode(Encode(h) + rest) == Ok(h, rest)
  {
    EncodeParts(h, rest);
    var b2 := LE(h.remoteAddr, 8) + (LE(h.size, 8) + rest);
    VectorRoundTrip(h.workerAddr, Vector(h.rkey) + b2);
    VectorRoundTrip(h.rkey, b2);
    TakePrefix(LE(h.remoteAddr, 8), LE(h.size, 8) + rest);
    TakePrefix(LE(h.size, 8), rest);
    FieldRanges();
    FromLEofLE(h.remoteAddr, 8);
    FromLEofLE(h.size, 8);
  }

  lemma VectorSound(b: seq<Byte>)
    requires TakeVector(b).Ok?
    ensures
      var p := TakeVector(b);
      |p.value| < U32 && b == Vector(p.value) + p.rest
  {
    var p, len := TakeVector(b), b[..4];
    FieldRanges();
    LEofFromLE(len);
    hide LE, FromLE;
    assert b[4..] == p.value + p.rest;
    assert b == len + (p.value + p.rest);
  }

  /** The two integers at the end. */
  lemma IntegersSound(b: seq<Byte>)
    requires |b| >= 16
    ensures FromLE(b[..8]) < U64 && FromLE(b[8..][..8]) < U64
    ensures b == LE(FromLE(b[..8]), 8) + (LE(FromLE(b[8..][..8]), 8) + b[8..][8..])
  {
    FieldRanges();
    LEofFromLE(b[..8]);
    LEofFromLE(b[8..][..8]);
    assert b[8..] == b[8..][..8] + b[8..][8..];
  }

  /** Whatever is received was sent as exactly that handshake. */
  lemma DecodeSound(b: seq<Byte>)
    requires Decode(b).Ok?
    ensures
      var p := Decode(b);
      Fields(p.value) && LengthsFit(p.value) && b == Encode(p.value) + p.rest
  {
    var p, v := Decode(b), TakeVector(b);
    VectorSound(b);
    VectorSound(v.rest);
    IntegersSound(TakeVector(v.rest).rest);
    EncodeParts(p.value, p.rest);
    hide Encode, LE, FromLE, Vector;
  }

  /** The round trip needs the lengths to fit, and only that: the 32-bit cast loses a
      longer vector. */
  lemma RoundTripExactly(h: Handshake)
    requires Fields(h)
    ensures (forall rest :: Decode(Encode(h) + rest) == Ok(h, rest)) <==> LengthsFit(h)
  {
    if LengthsFit(h) {
      forall rest ensures Decode(Encode(h) + rest) == Ok(h, rest) { RoundTrip(h, rest); }
    } else {
      if Decode(Encode(h) + []) == Ok(h, []) { DecodeSound(Encode(h) + []); }
    }
  }

  lemma Regroup(e: seq<Byte>, b: seq<Byte>, tail: seq<Byte>, a: seq<Byte>, rest: seq<Byte>)
    requires e == b + tail && b == a + rest
    ensures e + [] == a + (rest + tail)
  {
  }

  /** A stream that ends inside an encoding never yields a handshake. */
  lemma PrefixIncomplete(h: Handshake, k: nat)
    requires Fields(h) && LengthsFit(h) && k < |Encode(h)|
    ensures Decode(Encode(h)[..k]).Short?
  {
    hide Encode, Decode;
    var b := Encode(h)[..k];
    if Decode(b).Ok? {
      var p := Decode(b);
      DecodeSound(b);
      var tail := Encode(h)[k..];
      Regroup(Encode(h), b, tail, Encode(p.value), p.rest);
      RoundTrip(p.value, p.rest + tail);
      RoundTrip(h, []);
    }
  }

  /** No encoding is the beginning of another one. */
  lemma PrefixFree(h: Handshake, g: Handshake)
    requires Fields(h) && LengthsFit(h) && Fields(g) && LengthsFit(g) && Encode(h) <= Encode(g)
    ensures h == g
  {
    var rest := Encode(g)[|Encode(h)|..];
    assert Encode(g) + [] == Encode(h) + rest;
    RoundTrip(h, rest);
    RoundTrip(g, []);
  }

  // ---------------------------------------------------------------- the loops

  /** tcp::send_all; false stands for the exception. */
  method SendAll(fd: Connection, buf: seq<Byte>) returns (ok: bool)
    modifies fd`sent
    ensures ok ==> fd.sent == old(fd.sent) + buf
    ensures !ok ==> exists k :: 0 <= k < |buf| && fd.sent == old(fd.sent) + buf[..k]
    ensures fd.reliable ==> ok
  {
    var off := 0;
    while off < |buf|
      invariant 0 <= off <= |buf| && fd.sent == old(fd.sent) + buf[..off]
      decreases |buf| - off
    {
      var n := fd.Send(buf[off..]);
      if n <= 0 { return false; }
      assert buf[..off] + buf[off..][..n] == buf[..off + n];
      off := off + n;
    }
    assert buf[..off] == buf;
    ok := true;
  }

  /** tcp::recv_all; None stands for the exception. */
  method RecvAll(fd: Connection, len: nat) returns (r: Option<seq<Byte>>)
    modifies fd`incoming, fd`asked
    ensures r.Some? ==> Take(old(fd.incoming), len) == Ok(r.value, fd.incoming)
    ensures r.None? ==> exists k :: 0 <= k < len && k <= |old(fd.incoming)| && fd.incoming == old(fd.incoming)[k..]
    ensures fd.reliable ==> (r.None? <==> Take(old(fd.incoming), len).Short?)
  {
    var got, off := [], 0;
    while off < len
      invariant 0 <= off <= len && off <= |old(fd.incoming)|
      invariant got == old(fd.incoming)[..off] && fd.incoming == old(fd.incoming)[off..]
      decreases len - off
    {
      var n, data := fd.Recv(len - off);
      if n <= 0 { return None; }
      assert old(fd.incoming)[off..][..n] == old(fd.incoming)[off..off + n];
      got, off := got + data, off + n;
    }
    r := Some(got);
  }

  /** One length and one vector, as send_fd sends them: an empty vector needs no call. */
  method SendVector(v: seq<Byte>, fd: Connection) returns (ok: bool)
    modifies fd`sent
    ensures ok ==> fd.sent == old(fd.sent) + Vector(v)
    ensures fd.reliable ==> ok
  {
    var len32 := |v| % U32;
    ok := SendAll(fd, LE(len32, 4));
    if ok && v != [] {
      ok := SendAll(fd, v);
    }
    assert old(fd.sent) + LE(len32, 4) + v == old(fd.sent) + Vector(v);
    assert LE(len32, 4) + [] == LE(len32, 4);
  }

  /** Handshake::send_fd. */
  method SendFd(h: Handshake, fd: Connection) returns (ok: bool)
    modifies fd`sent
    ensures ok ==> fd.sent == old(fd.sent) + Encode(h)
    ensures fd.reliable ==> ok
  {
    ghost var s, v, w, x, y := fd.sent, Vector(h.workerAddr), Vector(h.rkey), LE(h.remoteAddr, 8), LE(h.size, 8);
    ok := SendVector(h.workerAddr, fd);
    if !ok { return; }
    ok := SendVector(h.rkey, fd);
    if !ok { return; }
    ok := SendAll(fd, LE(h.remoteAddr, 8));
    if !ok { return; }
    ok := SendAll(fd, LE(h.size, 8));
    Nested(s, v, w, x, y);
    EncodeParts(h, []);
    assert Encode(h) + [] == Encode(h);
  }

  lemma Nested(s: seq<Byte>, v: seq<Byte>, w: seq<Byte>, x: seq<Byte>, y: seq<Byte>)
    ensures s + v + w + x + y == s + (v + (w + (x + (y + []))))
  {
  }

  /** One length and one vector, as recv_fd reads them. */
  method RecvVector(fd: Connection) returns (r: Option<seq<Byte>>)
    modifies fd`incoming, fd`asked
    ensures r.Some? ==> TakeVector(old(fd.incoming)) == Ok(r.value, fd.incoming)
    ensures fd.reliable ==> (r.None? <==> TakeVector(old(fd.incoming)).Short?)
  {
    var len := RecvAll(fd, 4);
    if len.None? { return None; }
    var length := FromLE(len.value);
    if length == 0 { return Some([]); }
    r := RecvAll(fd, length);
  }

  /** Handshake::recv_fd: exactly Decode of the stream, however the bytes arrive. */
  method RecvFd(fd: Connection) returns (r: Option<Handshake>)
    modifies fd`incoming, fd`asked
    ensures r.Some? ==> Decode(old(fd.incoming)) == Ok(r.value, fd.incoming)
    ensures fd.reliable ==> (r.None? <==> Decode(old(fd.incoming)).Short?)
  {
    var workerAddr := RecvVector(fd);
    if workerAddr.None? { return None; }
    var rkey := RecvVector(fd);
    if rkey.None? { return None; }
    var remoteAddr := RecvAll(fd, 8);
    if remoteAddr.None? { return None; }
    var size := RecvAll(fd, 8);
    if size.None? { return None; }
    r := Some(Handshake(workerAddr.value, rkey.value, FromLE(remoteAddr.value), FromLE(size.value)));
  }
}
