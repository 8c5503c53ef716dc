/** The out-of-band exchange of 01_uct_am_hello_world: both peers run `sendrecv`
    and `barrier` for the same list of rounds over one TCP connection, each of them
    sending before it receives.  Bytes move one chunk at a time, in chunks of any
    size, through two directions of bounded capacity. */
module Exchange {
  import opened Bytes
  import opened Machine

  datatype Kind = Swap | Barrier

  /** What one peer puts on the wire in a round. */
  function Frame(kind: Kind, buf: seq<Byte>): (f: seq<Byte>)
    ensures f != []
  {
    match kind
    case Swap => Prefixed(buf)
    case Barrier => [0, 0, 0, 0]
  }

  /** The rounds, what each peer sends in them, and how many bytes fit on the way. */
  datatype Plan = Plan(kinds: seq<Kind>, mine: seq<seq<Byte>>, theirs: seq<seq<Byte>>, out: nat, back: nat) {
    function Flip(): Plan { Plan(kinds, theirs, mine, back, out) }
  }

  predicate Payloads(kinds: seq<Kind>, bufs: seq<seq<Byte>>) {
    && |bufs| == |kinds|
    && (forall k | 0 <= k < |bufs| :: |bufs[k]| < 0x8000_0000)
    && (forall k | 0 <= k < |bufs| :: kinds[k].Barrier? ==> bufs[k] == [])
  }

  predicate ValidPlan(p: Plan) {
    Payloads(p.kinds, p.mine) && Payloads(p.kinds, p.theirs) && p.out > 0 && p.back > 0
  }

  /** One peer: the unsent rest of its frame, the bytes received in this round, and
      what the earlier rounds returned.  It receives once `unsent` is empty. */
  datatype Peer = Peer(round: nat, unsent: seq<Byte>, acc: seq<Byte>, got: seq<seq<Byte>>, failed: bool)

  /** Two peers and the bytes under way in the two directions. */
  datatype Link = Link(a: Peer, b: Peer, ab: seq<Byte>, ba: seq<Byte>) {
    function Flip(): Link { Link(b, a, ba, ab) }
  }

  function FrameAt(kinds: seq<Kind>, bufs: seq<seq<Byte>>, k: nat): seq<Byte>
    requires |kinds| == |bufs|
  {
    if k < |kinds| then Frame(kinds[k], bufs[k]) else []
  }

  function FreshPeer(p: Plan): Peer
    requires ValidPlan(p)
  {
    Peer(0, FrameAt(p.kinds, p.mine, 0), [], [], false)
  }

  function FreshLink(p: Plan): Link
    requires ValidPlan(p)
  {
    Link(FreshPeer(p), FreshPeer(p.Flip()), [], [])
  }

  const SIZE_MAX: nat := 0xFFFF_FFFF_FFFF_FFFF

  /** How many more bytes the current recv call asks for. */
  function Need(kind: Kind, acc: seq<Byte>): int {
    match kind
    case Barrier => 4 - |acc|
    case Swap => if |acc| < 8 then 8 - |acc| else 8 + FromLE(acc[..8]) - |acc|
  }

  /** Bytes arrive; a completed round makes room for the next one. */
  function Absorb(p: Plan, q: Peer, bytes: seq<Byte>): Peer
    requires ValidPlan(p) && q.round < |p.kinds|
  {
    var kind, acc := p.kinds[q.round], q.acc + bytes;
    if kind.Swap? && |acc| == 8 && FromLE(acc[..8]) > SIZE_MAX / 2 then q.(acc := acc, failed := true)
    else if Need(kind, acc) == 0 then
      Peer(q.round + 1, FrameAt(p.kinds, p.mine, q.round + 1), [],
           q.got + [if kind.Swap? then acc[8..] else []], false)
    else q.(acc := acc)
  }

  /** The first peer of the link hands `count` bytes to the network, or takes them from it. */
  datatype Move = Push(count: nat) | Pull(count: nat)

  function Act(p: Plan, w: Link, m: Move): Option<Link>
    requires ValidPlan(p)
  {
    if w.a.failed || w.a.round >= |p.kinds| || m.count == 0 then None
    else match m
    case Push(n) =>
      if n <= |w.a.unsent| && |w.ab| + n <= p.out then
        Some(w.(a := w.a.(unsent := w.a.unsent[n..]), ab := w.ab + w.a.unsent[..n]))
      else None
    case Pull(n) =>
      if w.a.unsent == [] && n <= |w.ba| && n <= Need(p.kinds[w.a.round], w.a.acc) then
        Some(w.(a := Absorb(p, w.a, w.ba[..n]), ba := w.ba[n..]))
      else None
  }

  /** A move of either peer; the second one is the first of the flipped link. */
  datatype Event = Event(second: bool, move: Move)

  function Next(p: Plan, w: Link, e: Event): Option<Link>
    requires ValidPlan(p)
  {
    if !e.second then Act(p, w, e.move)
    else
      var t := Act(p.Flip(), w.Flip(), e.move);
      if t.Some? then Some(t.value.Flip()) else None
  }

  function Moves(p: Plan): (Link, Event) -> Option<Link>
    requires ValidPlan(p)
  {
    (w, e) => Next(p, w, e)
  }

  function Exec(p: Plan, events: seq<Event>): Option<Link>
    requires ValidPlan(p)
  {
    Run(Moves(p), FreshLink(p), events)
  }

  // ---------------------------------------------------------------- invariant

  /** Everything a peer sends from round `from` on. */
  function Frames(kinds: seq<Kind>, bufs: seq<seq<Byte>>, from: nat): seq<Byte>
    requires |kinds| == |bufs|
    decreases |kinds| - from
  {
    if from >= |kinds| then [] else Frame(kinds[from], bufs[from]) + Frames(kinds, bufs, from + 1)
  }

  /** What the peer has yet to send. */
  function Rest(kinds: seq<Kind>, bufs: seq<seq<Byte>>, q: Peer): seq<Byte>
    requires |kinds| == |bufs|
  {
    q.unsent + Frames(kinds, bufs, q.round + 1)
  }

  /** A peer is in the middle of one round: sending its frame with nothing received
      yet, or receiving with bytes still to come. */
  ghost predicate PeerInv(kinds: seq<Kind>, bufs: seq<seq<Byte>>, q: Peer)
    requires |kinds| == |bufs|
  {
    && q.round <= |kinds| && !q.failed && |q.got| == q.round
    && |q.unsent| <= |FrameAt(kinds, bufs, q.round)|
    && (q.unsent != [] ==> q.acc == [])
    && (q.round == |kinds| ==> q.acc == [])
    && (q.round < |kinds| ==> Need(kinds[q.round], q.acc) > 0)
  }

  /** One direction: what `dst` has of its round, what is under way and what `src` has
      yet to send is exactly what `src` sends from that round on. */
  ghost predicate DirectionInv(kinds: seq<Kind>, bufs: seq<seq<Byte>>, src: Peer, way: seq<Byte>, dst: Peer)
    requires |kinds| == |bufs|
  {
    && dst.round <= |kinds|
    && dst.got == bufs[..dst.round]
    && dst.acc + way + Rest(kinds, bufs, src) == Frames(kinds, bufs, dst.round)
  }

  ghost predicate Inv(p: Plan, w: Link)
    requires ValidPlan(p)
  {
    && PeerInv(p.kinds, p.mine, w.a)
    && PeerInv(p.kinds, p.theirs, w.b)
    && DirectionInv(p.kinds, p.mine, w.a, w.ab, w.b)
    && DirectionInv(p.kinds, p.theirs, w.b, w.ba, w.a)
    && |w.ab| <= p.out && |w.ba| <= p.back
  }

  /** Bytes that begin the rest of the stream are read as its first frame: the length
      is known after eight bytes, and a full frame yields the payload. */
  lemma ReadFrame(kinds: seq<Kind>, bufs: seq<seq<Byte>>, k: nat, acc: seq<Byte>)
    requires Payloads(kinds, bufs) && k < |kinds| && acc <= Frames(kinds, bufs, k)
    requires Need(kinds[k], acc) >= 0
    ensures kinds[k].Swap? && |acc| >= 8 ==> FromLE(acc[..8]) == |bufs[k]|
    ensures |acc| + Need(kinds[k], acc) <= |Frame(kinds[k], bufs[k])|
    ensures Need(kinds[k], acc) == 0 ==> acc == Frame(kinds[k], bufs[k])
    ensures Need(kinds[k], acc) == 0 && kinds[k].Swap? ==> acc[8..] == bufs[k]
  {
    var f := Frame(kinds[k], bufs[k]);
    assert Frames(kinds, bufs, k) == f + Frames(kinds, bufs, k + 1);
    if kinds[k].Swap? && |acc| >= 8 {
      assert acc[..8] == f[..8] == LE(|bufs[k]|, 8);
      FieldRanges();
      FromLEofLE(|bufs[k]|, 8);
    }
    if Need(kinds[k], acc) == 0 { assert acc == f; }
  }

  lemma Shift(acc: seq<Byte>, way: seq<Byte>, unsent: seq<Byte>, n: nat, later: seq<Byte>)
    requires n <= |unsent|
    ensures acc + (way + unsent[..n]) + (unsent[n..] + later) == acc + way + (unsent + later)
  {
  }

  lemma Drain(acc: seq<Byte>, way: seq<Byte>, n: nat, later: seq<Byte>)
    requires n <= |way|
    ensures (acc + way[..n]) + way[n..] + later == acc + way + later
    ensures (acc + way[..n]) + (way[n..] + later) == acc + way + later
  {
    assert way[..n] + way[n..] == way;
  }

  lemma PushKeepsInv(p: Plan, w: Link, n: nat)
    requires ValidPlan(p) && Inv(p, w) && Act(p, w, Push(n)).Some?
    ensures Inv(p, Act(p, w, Push(n)).value)
  {
    Shift(w.b.acc, w.ab, w.a.unsent, n, Frames(p.kinds, p.mine, w.a.round + 1));
  }

  /** Taking bytes off the incoming direction keeps its equation. */
  lemma PullKeepsIncoming(kinds: seq<Kind>, bufs: seq<seq<Byte>>, src: Peer, way: seq<Byte>, dst: Peer, n: nat)
    requires Payloads(kinds, bufs) && DirectionInv(kinds, bufs, src, way, dst) && dst.round < |kinds| && n <= |way|
    requires Need(kinds[dst.round], dst.acc + way[..n]) >= 0
    ensures
      var acc := dst.acc + way[..n];
      && acc + way[n..] + Rest(kinds, bufs, src) == Frames(kinds, bufs, dst.round)
      && acc <= Frames(kinds, bufs, dst.round)
      && (Need(kinds[dst.round], acc) == 0 ==>
            && acc == Frame(kinds[dst.round], bufs[dst.round])
            && (kinds[dst.round].Swap? ==> acc[8..] == bufs[dst.round])
            && way[n..] + Rest(kinds, bufs, src) == Frames(kinds, bufs, dst.round + 1))
  {
    var acc, later, all := dst.acc + way[..n], way[n..] + Rest(kinds, bufs, src), Frames(kinds, bufs, dst.round);
    Drain(dst.acc, way, n, Rest(kinds, bufs, src));
    assert all == acc + later;
    assert acc <= all;
    ReadFrame(kinds, bufs, dst.round, acc);
    if Need(kinds[dst.round], acc) == 0 {
      Cancel(acc, later, Frames(kinds, bufs, dst.round + 1));
    }
  }

  lemma Cancel(a: seq<Byte>, b: seq<Byte>, c: seq<Byte>)
    requires a + b == a + c
    ensures b == c
  {
    assert b == (a + b)[|a|..] == (a + c)[|a|..] == c;
  }

  /** The outgoing direction does not notice that its sender begins a new round. */
  lemma OutgoingKept(kinds: seq<Kind>, bufs: seq<seq<Byte>>, src: Peer, way: seq<Byte>, dst: Peer, src': Peer)
    requires |kinds| == |bufs| && DirectionInv(kinds, bufs, src, way, dst)
    requires src.round < |kinds| && src.unsent == []
    requires src'.round == src.round + 1 && src'.unsent == FrameAt(kinds, bufs, src.round + 1)
    ensures DirectionInv(kinds, bufs, src', way, dst)
  {
    assert Rest(kinds, bufs, src) == Frames(kinds, bufs, src.round + 1);
    assert Rest(kinds, bufs, src') == Frames(kinds, bufs, src.round + 1);
  }

  lemma IncomingKept(kinds: seq<Kind>, bufs: seq<seq<Byte>>, src: Peer, way: seq<Byte>, dst: Peer, n: nat, dst': Peer)
    requires Payloads(kinds, bufs) && DirectionInv(kinds, bufs, src, way, dst) && dst.round < |kinds| && n <= |way|
    requires way[n..] + Rest(kinds, bufs, src) == Frames(kinds, bufs, dst.round + 1)
    requires dst'.round == dst.round + 1 && dst'.acc == []
    requires dst'.got == dst.got + [bufs[dst.round]]
    ensures DirectionInv(kinds, bufs, src, way[n..], dst')
  {
    assert dst'.acc + way[n..] == way[n..];
  }

  /** The peer the receiver becomes satisfies its own invariant. */
  lemma AbsorbKeepsPeer(p: Plan, q: Peer, bytes: seq<Byte>)
    requires ValidPlan(p) && q.round < |p.kinds| && PeerInv(p.kinds, p.mine, q) && q.unsent == []
    requires Need(p.kinds[q.round], q.acc + bytes) >= 0
    requires p.kinds[q.round].Swap? && |q.acc + bytes| >= 8 ==> FromLE((q.acc + bytes)[..8]) <= SIZE_MAX / 2
    ensures PeerInv(p.kinds, p.mine, Absorb(p, q, bytes))
  {
  }

  lemma PullKeepsInv(p: Plan, w: Link, n: nat)
    requires ValidPlan(p) && Inv(p, w) && Act(p, w, Pull(n)).Some?
    ensures Inv(p, Act(p, w, Pull(n)).value)
  {
    hide Frame, Frames, LE, FromLE;
    var t, k, acc := Act(p, w, Pull(n)).value, w.a.round, w.a.acc + w.ba[..n];
    NeedShrinks(p, w, n);
    PullKeepsIncoming(p.kinds, p.theirs, w.b, w.ba, w.a, n);
    ReadFrame(p.kinds, p.theirs, k, acc);
    AbsorbKeepsPeer(p, w.a, w.ba[..n]);
    if Need(p.kinds[k], acc) == 0 {
      IncomingKept(p.kinds, p.theirs, w.b, w.ba, w.a, n, t.a);
      OutgoingKept(p.kinds, p.mine, w.a, w.ab, w.b, t.a);
    } else {
      assert t.a == w.a.(acc := acc);
    }
  }

  /** A recv call never takes more than it asked for. */
  lemma NeedShrinks(p: Plan, w: Link, n: nat)
    requires ValidPlan(p) && Inv(p, w) && Act(p, w, Pull(n)).Some?
    ensures Need(p.kinds[w.a.round], w.a.acc + w.ba[..n]) >= 0
  {
    var acc := w.a.acc + w.ba[..n];
    if |w.a.acc| >= 8 { assert acc[..8] == w.a.acc[..8]; }
  }

  lemma ActKeepsInv(p: Plan, w: Link, m: Move)
    requires ValidPlan(p) && Inv(p, w) && Act(p, w, m).Some?
    ensures Inv(p, Act(p, w, m).value)
  {
    match m {
      case Push(n) => PushKeepsInv(p, w, n);
      case Pull(n) => PullKeepsInv(p, w, n);
    }
  }

  lemma NextKeepsInv(p: Plan, w: Link, e: Event)
    requires ValidPlan(p) && Inv(p, w) && Next(p, w, e).Some?
    ensures Inv(p, Next(p, w, e).value)
  {
    if e.second { ActKeepsInv(p.Flip(), w.Flip(), e.move); } else { ActKeepsInv(p, w, e.move); }
  }

  /** Before the first round everything is yet to be sent. */
  lemma FreshDirection(kinds: seq<Kind>, bufs: seq<seq<Byte>>, src: Peer, dst: Peer)
    requires |kinds| == |bufs| && src.round == dst.round == 0 && dst.acc == [] && dst.got == []
    requires src.unsent == FrameAt(kinds, bufs, 0)
    ensures DirectionInv(kinds, bufs, src, [], dst)
  {
    hide Frame;
    var all := Frames(kinds, bufs, 0);
    assert Rest(kinds, bufs, src) == all by {
      if |kinds| == 0 { assert [] + all == all; }
    }
    hide Rest, Frames;
    assert dst.acc + [] + all == all;
    assert bufs[..0] == [];
  }

  lemma FreshInv(p: Plan)
    requires ValidPlan(p)
    ensures Inv(p, FreshLink(p))
  {
    var w := FreshLink(p);
    FreshDirection(p.kinds, p.mine, w.a, w.b);
    FreshDirection(p.kinds, p.theirs, w.b, w.a);
    hide DirectionInv, Frame, Payloads;
  }

  lemma ExecKeepsInv(p: Plan, events: seq<Event>)
    requires ValidPlan(p) && Exec(p, events).Some?
    ensures Inv(p, Exec(p, events).value)
  {
    var inv := (w: Link) => Inv(p, w);
    FreshInv(p);
    forall w: Link, e: Event | inv(w) && Moves(p)(w, e).Some? ensures inv(Moves(p)(w, e).value) {
      NextKeepsInv(p, w, e);
    }
    Invariance(Moves(p), FreshLink(p), inv, events);
  }
}
