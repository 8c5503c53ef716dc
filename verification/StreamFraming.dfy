/** The stream mode of 03_ucp_am_stream_tag_client_server: messages have no boundaries
    on the wire, and the receiver's WAITALL receives must put them back. */
module StreamFraming {
  import opened Bytes

  /** fill_request_param hands over the single buffer itself, or the list. */
  datatype Operand = Contiguous(buffer: seq<Byte>) | Vector(parts: seq<seq<Byte>>)

  function AsOperand(parts: seq<seq<Byte>>): Operand {
    if |parts| == 1 then Contiguous(parts[0]) else Vector(parts)
  }

  /** The bytes such an operand stands for. */
  function Payload(m: Operand): seq<Byte> {
    match m
    case Contiguous(buffer) => buffer
    case Vector(parts) => Concat(parts)
  }

  /** Both forms denote the same payload. */
  lemma FormsAgree(parts: seq<seq<Byte>>)
    ensures Payload(AsOperand(parts)) == Concat(parts)
  {
    if |parts| == 1 {
      assert parts == [parts[0]];
      ConcatOne(parts[0]);
    }
  }

  /** Everything the sender puts on the stream from message `from` on. */
  function Stream(sends: seq<seq<seq<Byte>>>, from: nat): seq<Byte>
    decreases |sends| - from
  {
    if from >= |sends| then [] else Payload(AsOperand(sends[from])) + Stream(sends, from + 1)
  }

  /** The receiver's buffers hold exactly the message sent. */
  predicate Holds(parts: seq<seq<Byte>>, send: seq<seq<Byte>>, count: nat, length: nat) {
    Shaped(parts, count, length) && Concat(parts) == Payload(AsOperand(send))
  }

  /** What was read and what is to come make up the stream. */
  predicate Follows(all: seq<Byte>, done: seq<Byte>, here: seq<Byte>) { all == done + here }

  lemma ReadOn(all: seq<Byte>, done: seq<Byte>, m: seq<Byte>, rest: seq<Byte>)
    requires Follows(all, done, m + rest)
    ensures Follows(all, done + m, rest)
  {
  }

  /** A part of the first segment is taken off. */
  lemma TakePiece(segments: seq<seq<Byte>>, take: nat)
    requires segments != [] && take <= |segments[0]|
    ensures
      var head, rest := segments[0], segments[1..];
      Concat(segments) == head[..take] + Concat(if take < |head| then [head[take..]] + rest else rest)
  {
    var head, rest := segments[0], segments[1..];
    assert head == head[..take] + head[take..];
    if take < |head| { assert Concat([head[take..]] + rest) == head[take..] + Concat(rest); }
  }

  class Endpoint {
    /** The stream as it arrives, in pieces of any size. */
    var segments: seq<seq<Byte>>

    constructor (segments: seq<seq<Byte>>)
      ensures this.segments == segments
    {
      this.segments := segments;
    }

    /** ucp_stream_recv_nbx with WAITALL: takes pieces until `n` bytes are there; the
        unused part of a piece stays.  Fewer bytes mean that the receive never completes. */
    method RecvWaitAll(n: nat) returns (data: seq<Byte>)
      modifies this
      ensures data + Concat(segments) == old(Concat(segments))
      ensures |data| == if n <= |old(Concat(segments))| then n else |old(Concat(segments))|
    {
      data := [];
      ghost var all := Concat(segments);
      assert Follows(all, data, Concat(segments));
      while |data| < n && segments != []
        invariant |data| <= n && Follows(all, data, Concat(segments))
        decreases |segments|, n - |data|
      {
        var head, rest := segments[0], segments[1..];
        var take := if |head| <= n - |data| then |head| else n - |data|;
        TakePiece(segments, take);
        segments := if take < |head| then [head[take..]] + rest else rest;
        ReadOn(all, data, head[..take], Concat(segments));
        data := data + head[..take];
        if take < |head| { break; }
      }
      assert segments == [] ==> Concat(segments) == [];
    }

    /** send_recv_stream of the server, where the stream goes on with one message and
        `later`, or with a part of that: the receive completes exactly if the message is
        there, and then the buffers hold it. */
    method ReceiveOne(ghost send: seq<seq<Byte>>, ghost later: seq<Byte>, count: nat, length: nat)
      returns (parts: Option<seq<seq<Byte>>>)
      requires |Payload(AsOperand(send))| == count * length
      requires Concat(segments) <= Payload(AsOperand(send)) + later
      modifies this
      ensures parts.Some? <==> |old(Concat(segments))| >= |Payload(AsOperand(send))|
      ensures parts.Some? ==> Holds(parts.value, send, count, length) && Concat(segments) <= later
      ensures parts.Some? ==> old(Concat(segments)) == Payload(AsOperand(send)) + Concat(segments)
    {
      ghost var here, m := Concat(segments), Payload(AsOperand(send));
      var data := RecvWaitAll(count * length);
      if |data| < count * length { return None; }
      assert here == (m + later)[..|here|];
      assert here == m + later[..|here| - |m|];
      Split(data, Concat(segments), m, later[..|here| - |m|]);
      parts := Some(Scatter(data, count, length));
    }

    /** The server's iterations over a stream of which some part arrives, in any
        segmentation: each receive that completes has exactly the message of its
        iteration, also when both sides cut the same size into different buffers, and as
        many complete as messages arrived whole. */
    method ReceiveAll(ghost sends: seq<seq<seq<Byte>>>, ghost sendCount: nat, ghost sendLength: nat,
                      iterations: nat, count: nat, length: nat)
      returns (got: seq<seq<Byte>>)
      requires |sends| == iterations && sendCount * sendLength == count * length
      requires forall k | 0 <= k < |sends| :: Shaped(sends[k], sendCount, sendLength)
      requires Concat(segments) <= Stream(sends, 0)
      modifies this
      ensures |got| <= iterations
      ensures forall k | 0 <= k < |got| :: got[k] == Payload(AsOperand(sends[k]))
      ensures Concat(got) <= old(Concat(segments))
      ensures |got| < iterations ==> |old(Concat(segments))| < |Concat(got)| + count * length
      ensures old(Concat(segments)) == Stream(sends, 0) ==> |got| == iterations
    {
      forall k | 0 <= k < |sends| ensures |Payload(AsOperand(sends[k]))| == count * length {
        FormsAgree(sends[k]);
        ShapedSize(sends[k], sendCount, sendLength);
      }
      got := ReceiveEach(sends, iterations, count, length);
    }

    /** The loop, for messages of the size of the receives. */
    method ReceiveEach(ghost sends: seq<seq<seq<Byte>>>, iterations: nat, count: nat, length: nat)
      returns (got: seq<seq<Byte>>)
      requires |sends| == iterations
      requires forall k | 0 <= k < |sends| :: |Payload(AsOperand(sends[k]))| == count * length
      requires Concat(segments) <= Stream(sends, 0)
      modifies this
      ensures |got| <= iterations
      ensures forall k | 0 <= k < |got| :: got[k] == Payload(AsOperand(sends[k]))
      ensures Concat(got) <= old(Concat(segments))
      ensures |got| < iterations ==> |old(Concat(segments))| < |Concat(got)| + |Payload(AsOperand(sends[|got|]))|
      ensures old(Concat(segments)) == Stream(sends, 0) ==> |got| == iterations
    {
      hide Payload, AsOperand, Shaped;
      got := [];
      ghost var all := Concat(segments);
      while |got| < iterations
        invariant |got| <= iterations && Received(sends, all, got, Concat(segments))
      {
        var n := |got|;
        var parts := ReceiveOne(sends[n], Stream(sends, n + 1), count, length);
        if parts.None? { return; }
        OneMore(sends, all, got, Concat(parts.value), Concat(segments));
        got := got + [Concat(parts.value)];
      }
    }
  }

  /** The messages received are those sent, and these are the bytes still to come. */
  ghost predicate Received(sends: seq<seq<seq<Byte>>>, all: seq<Byte>, got: seq<seq<Byte>>, here: seq<Byte>) {
    && |got| <= |sends| && here <= Stream(sends, |got|)
    && SameMessages(sends, got)
    && Follows(all, Concat(got), here)
    && (all == Stream(sends, 0) ==> here == Stream(sends, |got|))
  }

  predicate SameMessages(sends: seq<seq<seq<Byte>>>, got: seq<seq<Byte>>) {
    |got| <= |sends| && forall k | 0 <= k < |got| :: got[k] == Payload(AsOperand(sends[k]))
  }

  lemma SameSoFar(sends: seq<seq<seq<Byte>>>, got: seq<seq<Byte>>)
    requires |got| < |sends| && SameMessages(sends, got)
    ensures SameMessages(sends, got + [Payload(AsOperand(sends[|got|]))])
  {
    hide Payload, AsOperand;
  }

  lemma StreamGoesOn(sends: seq<seq<seq<Byte>>>, n: nat, m: seq<Byte>, rest: seq<Byte>)
    requires n < |sends| && m == Payload(AsOperand(sends[n])) && m + rest == Stream(sends, n)
    ensures rest == Stream(sends, n + 1)
  {
    hide Payload, AsOperand;
    Split(m, rest, m, Stream(sends, n + 1));
  }

  lemma OneMore(sends: seq<seq<seq<Byte>>>, all: seq<Byte>, got: seq<seq<Byte>>, m: seq<Byte>, rest: seq<Byte>)
    requires |got| < |sends| && m == Payload(AsOperand(sends[|got|]))
    requires Received(sends, all, got, m + rest) && rest <= Stream(sends, |got| + 1)
    ensures Received(sends, all, got + [m], rest)
  {
    ConcatAppend(got, [m]);
    ConcatOne(m);
    SameSoFar(sends, got);
    hide Payload, AsOperand, Concat, Follows, SameMessages;
    ReadOn(all, Concat(got), m, rest);
    if m + rest == Stream(sends, |got|) { StreamGoesOn(sends, |got|, m, rest); }
    hide Stream;
  }

  lemma Split(a: seq<Byte>, b: seq<Byte>, c: seq<Byte>, d: seq<Byte>)
    requires a + b == c + d && |a| == |c|
    ensures a == c && b == d
  {
    assert a == (a + b)[..|a|] == (c + d)[..|c|] == c;
    assert b == (a + b)[|a|..] == (c + d)[|c|..] == d;
  }
}
