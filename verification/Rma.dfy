/** The shared buffer of 04_ucp_rma_client_server under any number of PUT and GET
    clients: remote writes and reads land byte by byte, in any order, at any time
    between the post and the completion that UCX guarantees.

    Assumed of UCX: a put or get touches only the bytes it was posted for; a get is
    complete when every byte was read; a flush is complete when every byte of the
    earlier put was written. */
module Rma {
  import opened Bytes
  import opened Machine
  import opened Wire
  import opened Socket

  datatype Op = Put | Get

  /** What the server registered and announces to every client. */
  datatype Setup = Setup(workerAddr: seq<Byte>, rkey: seq<Byte>, base: nat, size: nat)

  predicate ValidSetup(s: Setup) {
    |s.workerAddr| < U32 && |s.rkey| < U32 && s.size < U64 && s.base + s.size <= U64 && s.base < U64
  }

  function Announced(s: Setup): Handshake {
    Handshake(s.workerAddr, s.rkey, s.base, s.size)
  }

  /** The byte the server starts with, and the byte a PUT client writes. */
  function First(i: nat): Byte { i % 256 }
  function Second(i: nat): Byte { (3 * i) % 256 }

  function Indices(n: nat): (r: set<nat>)
    ensures forall i: nat :: i in r <==> i < n
  {
    if n == 0 then {} else Indices(n - 1) + {n - 1}
  }

  /** The local buffer a client starts with. */
  function LocalBuffer(op: Op, size: nat): seq<Byte> {
    seq(size, i requires 0 <= i => if op.Put? then Second(i) else 0)
  }

  datatype Phase = Ready | Posted | Flushing | Settled | Dead

  /** A client: what it received, its local buffer, and the bytes its operation has yet
      to move. */
  datatype Client = Client(op: Op, hs: Handshake, lbuf: seq<Byte>, pending: set<nat>, phase: Phase)

  /** `outside` says that some access missed the registered region. */
  datatype World = World(mem: seq<Byte>, clients: map<nat, Client>, outside: bool)

  datatype Event =
    | Join(id: nat, op: Op)     // handshake received, buffer prepared
    | Post(id: nat)             // ucp_put_nbx or ucp_get_nbx
    | Move(id: nat, i: nat)     // byte i is written to, or read from, the server
    | Flush(id: nat)            // the put request completed; ucp_ep_flush_nbx
    | Settle(id: nat)           // the wait for the flush, or for the get, returns OK
    | Die(id: nat)              // an error: the client exits, its writes may still land

  function FreshWorld(s: Setup): World {
    World(seq(s.size, i requires 0 <= i => First(i)), map[], false)
  }

  /** client.cpp up to the operation: recv_fd, then the local buffer. */
  function Newcomer(s: Setup, op: Op): Option<Client> {
    match Decode(Encode(Announced(s)))
    case Short => None
    case Ok(hs, _) =>
      Some(Client(op, hs, LocalBuffer(op, hs.size), {}, Ready))
  }

  /** Byte i of the operation of client c moves. */
  function MoveByte(s: Setup, w: World, id: nat, c: Client, i: nat): World {
    var addr, c1 := c.hs.remoteAddr + i, c.(pending := c.pending - {i});
    if !(s.base <= addr < s.base + |w.mem|) || i >= |c.lbuf| then w.(outside := true)
    else if c.op.Put? then w.(mem := w.mem[addr - s.base := c.lbuf[i]], clients := w.clients[id := c1])
    else w.(clients := w.clients[id := c1.(lbuf := c.lbuf[i := w.mem[addr - s.base]])])
  }

  function Next(s: Setup, w: World, e: Event): Option<World> {
    if e.Join? then
      if e.id in w.clients || Newcomer(s, e.op).None? then None
      else Some(w.(clients := w.clients[e.id := Newcomer(s, e.op).value]))
    else if e.id !in w.clients then None
    else
      var c := w.clients[e.id];
      match e
      case Post(id) =>
        if c.phase.Ready? then
          Some(w.(clients := w.clients[id := c.(pending := Indices(|c.lbuf|), phase := Posted)]))
        else None
      case Move(id, i) =>
        if i in c.pending && (c.op.Put? || c.phase.Posted?) then Some(MoveByte(s, w, id, c, i)) else None
      case Flush(id) =>
        if c.op.Put? && c.phase.Posted? then Some(w.(clients := w.clients[id := c.(phase := Flushing)])) else None
      case Settle(id) =>
        if c.pending == {} && (if c.op.Put? then c.phase.Flushing? else c.phase.Posted?) then
          Some(w.(clients := w.clients[id := c.(phase := Settled)]))
        else None
      case Die(id) =>
        Some(w.(clients := w.clients[id := c.(phase := Dead)]))
  }

  function Moves(s: Setup): (World, Event) -> Option<World> {
    (w, e) => Next(s, w, e)
  }

  function Exec(s: Setup, events: seq<Event>): Option<World> {
    Run(Moves(s), FreshWorld(s), events)
  }

  // ---------------------------------------------------------------- invariant

  /** A byte of either pattern. */
  predicate Either(b: Byte, i: nat) { b == First(i) || b == Second(i) }

  ghost predicate ClientInv(s: Setup, mem: seq<Byte>, c: Client)
    requires |mem| == s.size
  {
    && c.hs == Announced(s) && |c.lbuf| == s.size
    && (forall i | i in c.pending :: i < s.size)
    && (c.phase.Ready? || c.phase.Settled? ==> c.pending == {})
    && (c.op.Put? ==> forall i | 0 <= i < s.size :: c.lbuf[i] == Second(i))
    && (c.op.Put? && (c.phase.Posted? || c.phase.Flushing? || c.phase.Settled?) ==>
          forall i | 0 <= i < s.size && i !in c.pending :: mem[i] == Second(i))
    && (c.op.Get? && (c.phase.Posted? || c.phase.Settled?) ==>
          forall i | 0 <= i < s.size && i !in c.pending :: Either(c.lbuf[i], i))
  }

  ghost predicate MemInv(s: Setup, w: World) {
    |w.mem| == s.size && (forall i | 0 <= i < s.size :: Either(w.mem[i], i)) && !w.outside
  }

  ghost predicate Inv(s: Setup, w: World) {
    MemInv(s, w) && forall id | id in w.clients :: ClientInv(s, w.mem, w.clients[id])
  }

  /** Bytes only ever change from the first pattern to the second. */
  predicate Advances(s: Setup, m: seq<Byte>, m': seq<Byte>) {
    |m| == |m'| == s.size && forall i | 0 <= i < s.size :: m'[i] == m[i] || m'[i] == Second(i)
  }

  /** What a client knows of the memory survives every change of it. */
  lemma ClientStable(s: Setup, w: World, t: World, c: Client)
    requires |w.mem| == s.size && Advances(s, w.mem, t.mem)
    requires ClientInv(s, w.mem, c)
    ensures ClientInv(s, t.mem, c)
  {
  }

  lemma NewcomerKnows(s: Setup, op: Op)
    requires ValidSetup(s)
    ensures
      var n := Newcomer(s, op);
      n.Some? && n.value.hs == Announced(s) && |n.value.lbuf| == s.size && n.value.op == op && n.value.phase.Ready?
      && (op.Put? ==> forall i | 0 <= i < s.size :: n.value.lbuf[i] == Second(i))
  {
    hide Encode, Decode;
    RoundTrip(Announced(s), []);
    assert Encode(Announced(s)) + [] == Encode(Announced(s));
  }

  /** A step keeps what holds of the memory, moves it only forward, keeps the acting
      client's own invariant and leaves the other clients alone. */
  ghost predicate Local(s: Setup, w: World, id: nat, t: World) {
    && MemInv(s, t) && |w.mem| == s.size && Advances(s, w.mem, t.mem)
    && id in t.clients && ClientInv(s, t.mem, t.clients[id])
    && forall k | k in t.clients && k != id :: k in w.clients && t.clients[k] == w.clients[k]
  }

  lemma WriteLocally(s: Setup, w: World, id: nat, i: nat)
    requires ValidSetup(s) && MemInv(s, w) && Next(s, w, Move(id, i)).Some? && w.clients[id].op.Put?
    requires ClientInv(s, w.mem, w.clients[id])
    ensures Local(s, w, id, Next(s, w, Move(id, i)).value)
  {
    var t := Next(s, w, Move(id, i)).value;
    assert i < s.size;
    assert t.mem == w.mem[i := Second(i)];
  }

  lemma ReadLocally(s: Setup, w: World, id: nat, i: nat)
    requires ValidSetup(s) && MemInv(s, w) && Next(s, w, Move(id, i)).Some? && w.clients[id].op.Get?
    requires ClientInv(s, w.mem, w.clients[id])
    ensures Local(s, w, id, Next(s, w, Move(id, i)).value)
  {
    var t := Next(s, w, Move(id, i)).value;
    assert t.mem == w.mem && i < s.size;
  }

  lemma MoveLocally(s: Setup, w: World, id: nat, i: nat)
    requires ValidSetup(s) && Inv(s, w) && Next(s, w, Move(id, i)).Some?
    ensures Local(s, w, id, Next(s, w, Move(id, i)).value)
  {
    assert ClientInv(s, w.mem, w.clients[id]);
    if w.clients[id].op.Put? { WriteLocally(s, w, id, i); } else { ReadLocally(s, w, id, i); }
  }

  lemma SettleLocally(s: Setup, w: World, id: nat)
    requires ValidSetup(s) && Inv(s, w) && Next(s, w, Settle(id)).Some?
    ensures Local(s, w, id, Next(s, w, Settle(id)).value)
  {
    assert ClientInv(s, w.mem, w.clients[id]);
  }

  lemma StepLocally(s: Setup, w: World, e: Event)
    requires ValidSetup(s) && Inv(s, w) && Next(s, w, e).Some?
    ensures Local(s, w, e.id, Next(s, w, e).value)
  {
    match e {
      case Join(id, op) => NewcomerKnows(s, op);
      case Move(id, i) => MoveLocally(s, w, id, i);
      case Settle(id) => SettleLocally(s, w, id);
      case _ => assert ClientInv(s, w.mem, w.clients[e.id]);
    }
  }

  lemma NextKeepsInv(s: Setup, w: World, e: Event)
    requires ValidSetup(s) && Inv(s, w) && Next(s, w, e).Some?
    ensures Inv(s, Next(s, w, e).value)
  {
    var t := Next(s, w, e).value;
    StepLocally(s, w, e);
    forall id | id in t.clients ensures ClientInv(s, t.mem, t.clients[id]) {
      if id != e.id { ClientStable(s, w, t, w.clients[id]); }
    }
  }

  lemma ExecKeepsInv(s: Setup, events: seq<Event>)
    requires ValidSetup(s) && Exec(s, events).Some?
    ensures Inv(s, Exec(s, events).value)
  {
    var inv := (w: World) => Inv(s, w);
    forall w: World, e: Event | inv(w) && Moves(s)(w, e).Some? ensures inv(Moves(s)(w, e).value) {
      NextKeepsInv(s, w, e);
    }
    Invariance(Moves(s), FreshWorld(s), inv, events);
  }

  // ------------------------------------------------------------- main results

  /** In every run byte i of the buffer is i or 3i modulo 256. */
  lemma BufferContents(s: Setup, events: seq<Event>)
    requires ValidSetup(s) && Exec(s, events).Some?
    ensures
      var w := Exec(s, events).value;
      |w.mem| == s.size && forall i | 0 <= i < s.size :: w.mem[i] == i % 256 || w.mem[i] == (3 * i) % 256
  {
    ExecKeepsInv(s, events);
  }

  /** No byte ever goes back: however the run continues, it stays as it is or takes on the
      second pattern. */
  lemma NeverReverts(s: Setup, events: seq<Event>, more: seq<Event>)
    requires ValidSetup(s) && Exec(s, events).Some? && Exec(s, events + more).Some?
    ensures
      var w, t := Exec(s, events).value, Exec(s, events + more).value;
      && |w.mem| == s.size && |t.mem| == s.size
      && (forall i | 0 <= i < s.size :: t.mem[i] == w.mem[i] || t.mem[i] == (3 * i) % 256)
      && (forall i | 0 <= i < s.size && w.mem[i] == (3 * i) % 256 :: t.mem[i] == (3 * i) % 256)
  {
    ExecKeepsInv(s, events);
    var w := Exec(s, events).value;
    var inv := (t: World) => Inv(s, t) && Advances(s, w.mem, t.mem);
    forall t: World, e: Event | inv(t) && Moves(s)(t, e).Some? ensures inv(Moves(s)(t, e).value) {
      StepLocally(s, t, e);
      NextKeepsInv(s, t, e);
    }
    hide Run, Next;
    Persistence(Moves(s), FreshWorld(s), inv, _ => true, events, more);
  }

  /** Once the flush of a PUT returned OK, the whole buffer is of the second pattern, for
      ever. */
  lemma FlushVisible(s: Setup, events: seq<Event>, more: seq<Event>, p: nat)
    requires ValidSetup(s) && Exec(s, events).Some? && Exec(s, events + more).Some?
    requires
      var w := Exec(s, events).value;
      p in w.clients && w.clients[p].op.Put? && w.clients[p].phase.Settled?
    ensures
      var t := Exec(s, events + more).value;
      |t.mem| == s.size && forall i | 0 <= i < s.size :: t.mem[i] == (3 * i) % 256
  {
    ExecKeepsInv(s, events);
    var w := Exec(s, events).value;
    assert ClientInv(s, w.mem, w.clients[p]);
    NeverReverts(s, events, more);
  }

  /** Any GET that settled has a buffer of the right size with, byte by byte, one of the two
      patterns. */
  lemma GetReturns(s: Setup, events: seq<Event>)
    requires ValidSetup(s) && Exec(s, events).Some?
    ensures
      var w := Exec(s, events).value;
      forall id | id in w.clients && w.clients[id].op.Get? && w.clients[id].phase.Settled? ::
        var c := w.clients[id];
        |c.lbuf| == s.size && forall i | 0 <= i < s.size :: c.lbuf[i] == i % 256 || c.lbuf[i] == (3 * i) % 256
  {
    ExecKeepsInv(s, events);
    var w := Exec(s, events).value;
    forall id | id in w.clients && w.clients[id].op.Get? && w.clients[id].phase.Settled?
      ensures ClientInv(s, w.mem, w.clients[id])
    {
    }
  }

  /** Client g has not posted its operation. */
  predicate Unposted(w: World, g: nat) {
    g in w.clients ==> w.clients[g].phase.Ready?
  }

  /** What client g has read by now was in the buffer when it had not yet begun, as m, or
      is there now. */
  ghost predicate ReadSince(s: Setup, m: seq<Byte>, t: World, g: nat)
    requires |m| == |t.mem| == s.size
  {
    g in t.clients && t.clients[g].op.Get? && (t.clients[g].phase.Posted? || t.clients[g].phase.Settled?) ==>
      |t.clients[g].lbuf| == s.size
      && forall i | 0 <= i < s.size && i !in t.clients[g].pending :: t.clients[g].lbuf[i] == m[i] || t.clients[g].lbuf[i] == t.mem[i]
  }

  lemma ReadSinceKept(s: Setup, m: seq<Byte>, t: World, g: nat, e: Event)
    requires ValidSetup(s) && Inv(s, t) && Advances(s, m, t.mem) && ReadSince(s, m, t, g) && Next(s, t, e).Some?
    ensures
      var u := Next(s, t, e).value;
      Inv(s, u) && Advances(s, m, u.mem) && ReadSince(s, m, u, g)
  {
    NextKeepsInv(s, t, e);
    StepLocally(s, t, e);
    if e.id == g {
      OwnRead(s, m, t, g, e);
    } else {
      hide Next, ClientInv;
    }
  }

  lemma OwnRead(s: Setup, m: seq<Byte>, t: World, g: nat, e: Event)
    requires ValidSetup(s) && Inv(s, t) && Advances(s, m, t.mem) && ReadSince(s, m, t, g) && Next(s, t, e).Some? && e.id == g
    requires |Next(s, t, e).value.mem| == s.size
    ensures ReadSince(s, m, Next(s, t, e).value, g)
  {
    if e.Join? {
      NewcomerKnows(s, e.op);
    } else {
      assert ClientInv(s, t.mem, t.clients[g]);
    }
  }

  /** A GET is as fresh as it can be: each byte of what it returns was in the buffer before
      it was posted, or is there now that it has settled.  So it shows every write that
      was visible before it, and none that is not visible yet. */
  lemma GetIsRegular(s: Setup, events: seq<Event>, more: seq<Event>, g: nat)
    requires ValidSetup(s) && Exec(s, events).Some? && Exec(s, events + more).Some? && Unposted(Exec(s, events).value, g)
    ensures
      var w, t := Exec(s, events).value, Exec(s, events + more).value;
      |w.mem| == |t.mem| == s.size &&
      (g in t.clients && t.clients[g].op.Get? && t.clients[g].phase.Settled? ==>
        |t.clients[g].lbuf| == s.size
        && forall i | 0 <= i < s.size :: t.clients[g].lbuf[i] == w.mem[i] || t.clients[g].lbuf[i] == t.mem[i])
  {
    ExecKeepsInv(s, events);
    var w := Exec(s, events).value;
    var inv := (t: World) => Inv(s, t) && Advances(s, w.mem, t.mem) && ReadSince(s, w.mem, t, g);
    forall t: World, e: Event | inv(t) && Moves(s)(t, e).Some? ensures inv(Moves(s)(t, e).value) {
      ReadSinceKept(s, w.mem, t, g, e);
    }
    hide Run, Next;
    Persistence(Moves(s), FreshWorld(s), inv, _ => true, events, more);
    var t := Exec(s, events + more).value;
    if g in t.clients { assert ClientInv(s, t.mem, t.clients[g]); }
  }

  /** A GET that had not been posted when the flush of some PUT returned OK gives exactly
      the second pattern. */
  lemma GetAfterFlush(s: Setup, events: seq<Event>, more: seq<Event>, p: nat, g: nat)
    requires ValidSetup(s) && Exec(s, events).Some? && Exec(s, events + more).Some?
    requires
      var w := Exec(s, events).value;
      p in w.clients && w.clients[p].op.Put? && w.clients[p].phase.Settled? && Unposted(w, g)
    ensures
      var t := Exec(s, events + more).value;
      g in t.clients && t.clients[g].op.Get? && t.clients[g].phase.Settled? ==>
        |t.clients[g].lbuf| == s.size && forall i | 0 <= i < s.size :: t.clients[g].lbuf[i] == (3 * i) % 256
  {
    assert events + [] == events;
    FlushVisible(s, events, [], p);
    FlushVisible(s, events, more, p);
    GetIsRegular(s, events, more, g);
  }

  /** No PUT was posted in the run. */
  ghost predicate NoPutPosted(s: Setup, events: seq<Event>) {
    forall k | 0 <= k < |events| && events[k].Post? && Exec(s, events[..k]).Some? ::
      var w := Exec(s, events[..k]).value;
      events[k].id in w.clients ==> w.clients[events[k].id].op.Get?
  }

  /** Before that the buffer is as the server filled it. */
  ghost predicate Untouched(s: Setup, w: World) {
    && (forall i | 0 <= i < |w.mem| :: w.mem[i] == First(i))
    && (forall p | p in w.clients && w.clients[p].op.Put? :: w.clients[p].pending == {} && (w.clients[p].phase.Ready? || w.clients[p].phase.Dead?))
  }

  lemma UntouchedKept(s: Setup, w: World, e: Event)
    requires Untouched(s, w) && Next(s, w, e).Some? && (e.Post? && e.id in w.clients ==> w.clients[e.id].op.Get?)
    ensures Untouched(s, Next(s, w, e).value)
  {
    hide Encode, Decode;
  }

  lemma {:induction false} UntouchedBuffer(s: Setup, events: seq<Event>)
    requires ValidSetup(s) && Exec(s, events).Some? && NoPutPosted(s, events)
    ensures Untouched(s, Exec(s, events).value)
  {
    if events != [] {
      var front := events[..|events| - 1];
      assert forall k | 0 <= k < |front| :: front[..k] == events[..k] && front[k] == events[k];
      UntouchedBuffer(s, front);
      UntouchedKept(s, Exec(s, front).value, events[|events| - 1]);
    }
  }

  /** A GET that settled before any PUT was posted gives exactly the first pattern. */
  lemma GetBeforePut(s: Setup, events: seq<Event>, g: nat)
    requires ValidSetup(s) && Exec(s, events).Some? && NoPutPosted(s, events)
    ensures
      var w := Exec(s, events).value;
      g in w.clients && w.clients[g].op.Get? && w.clients[g].phase.Settled? ==>
        |w.clients[g].lbuf| == s.size && forall i | 0 <= i < s.size :: w.clients[g].lbuf[i] == i % 256
  {
    assert Exec(s, []) == Some(FreshWorld(s)) && [] + events == events;
    UntouchedBuffer(s, events);
    GetIsRegular(s, [], events, g);
    ExecKeepsInv(s, events);
  }

  /** What a settled client holds it keeps. */
  lemma SettledIsFinal(s: Setup, events: seq<Event>, more: seq<Event>, id: nat)
    requires ValidSetup(s) && Exec(s, events).Some? && Exec(s, events + more).Some?
    requires id in Exec(s, events).value.clients && Exec(s, events).value.clients[id].phase.Settled?
    ensures
      var w, t := Exec(s, events).value, Exec(s, events + more).value;
      id in t.clients && t.clients[id].lbuf == w.clients[id].lbuf
  {
    ExecKeepsInv(s, events);
    var w := Exec(s, events).value;
    assert ClientInv(s, w.mem, w.clients[id]);
    var inv := (t: World) =>
      && id in t.clients && t.clients[id].lbuf == w.clients[id].lbuf && t.clients[id].pending == {}
      && (t.clients[id].phase.Settled? || t.clients[id].phase.Dead?);
    forall t: World, e: Event | inv(t) && Moves(s)(t, e).Some? ensures inv(Moves(s)(t, e).value) {
      SettledStays(s, t, id, e);
    }
    hide Run, Next;
    Persistence(Moves(s), FreshWorld(s), inv, _ => true, events, more);
  }

  lemma SettledStays(s: Setup, t: World, id: nat, e: Event)
    requires id in t.clients && t.clients[id].pending == {} && (t.clients[id].phase.Settled? || t.clients[id].phase.Dead?)
    requires Next(s, t, e).Some?
    ensures
      var u := Next(s, t, e).value;
      && id in u.clients && u.clients[id].lbuf == t.clients[id].lbuf && u.clients[id].pending == {}
      && (u.clients[id].phase.Settled? || u.clients[id].phase.Dead?)
  {
    hide Encode, Decode;
  }

  /** The events of a list happened in this order, others in between. */
  predicate InOrder(events: seq<Event>, steps: seq<Event>) {
    if steps == [] then true
    else if events == [] then false
    else
      var n, k := |events| - 1, |steps| - 1;
      if events[n] == steps[k] then InOrder(events[..n], steps[..k]) || InOrder(events[..n], steps)
      else InOrder(events[..n], steps)
  }

  lemma LaterToo(events: seq<Event>, e: Event, steps: seq<Event>)
    requires InOrder(events, steps)
    ensures InOrder(events + [e], steps)
  {
    assert (events + [e])[..|events|] == events;
  }

  lemma NextInOrder(events: seq<Event>, e: Event, steps: seq<Event>)
    requires InOrder(events, steps)
    ensures InOrder(events + [e], steps + [e])
  {
    assert (events + [e])[..|events|] == events && (steps + [e])[..|steps|] == steps;
  }

  /** The events of client p that bring it to its phase. */
  function Steps(c: Client, p: nat): seq<Event> {
    match c.phase
    case Ready => []
    case Dead => []
    case Posted => [Post(p)]
    case Flushing => [Post(p), Flush(p)]
    case Settled => if c.op.Put? then [Post(p), Flush(p), Settle(p)] else [Post(p), Settle(p)]
  }

  /** What an event does to the phase of a client. */
  lemma PhaseStep(s: Setup, w: World, e: Event, p: nat)
    requires ValidSetup(s) && Next(s, w, e).Some? && p in Next(s, w, e).value.clients
    ensures
      var t := Next(s, w, e).value;
      var c := t.clients[p];
      if p !in w.clients then c.phase.Ready?
      else
        var b := w.clients[p];
        && c.op == b.op
        && (c.phase != b.phase ==>
              || c.phase.Dead?
              || (e == Post(p) && b.phase.Ready? && c.phase.Posted?)
              || (e == Flush(p) && b.phase.Posted? && c.phase.Flushing?)
              || (e == Settle(p) && c.phase.Settled? && if c.op.Put? then b.phase.Flushing? else b.phase.Posted?))
  {
    if e.Join? { NewcomerKnows(s, e.op); }
    hide Encode, Decode;
  }

  /** A PUT has settled only after it was posted and then flushed, a GET after it was posted. */
  lemma {:induction false} InSequence(s: Setup, events: seq<Event>, p: nat)
    requires ValidSetup(s) && Exec(s, events).Some? && p in Exec(s, events).value.clients
    ensures InOrder(events, Steps(Exec(s, events).value.clients[p], p))
  {
    if events != [] {
      var n := |events| - 1;
      var front, e := events[..n], events[n];
      var w, c := Exec(s, front).value, Exec(s, events).value.clients[p];
      PhaseStep(s, w, e, p);
      assert events == front + [e];
      if p in w.clients {
        InSequence(s, front, p);
        LastStep(front, e, w.clients[p], c, p);
      }
    }
  }

  lemma LastStep(front: seq<Event>, e: Event, b: Client, c: Client, p: nat)
    requires InOrder(front, Steps(b, p)) && b.op == c.op
    requires
      || c.phase == b.phase || c.phase.Dead?
      || (e == Post(p) && b.phase.Ready? && c.phase.Posted?)
      || (e == Flush(p) && b.phase.Posted? && c.phase.Flushing?)
      || (e == Settle(p) && c.phase.Settled? && if c.op.Put? then b.phase.Flushing? else b.phase.Posted?)
    ensures InOrder(front + [e], Steps(c, p))
  {
    if c.phase == b.phase {
      LaterToo(front, e, Steps(b, p));
    } else if !c.phase.Dead? {
      NextInOrder(front, e, Steps(b, p));
      assert Steps(b, p) + [e] == Steps(c, p);
    }
    hide InOrder;
  }

  /** Every client works on exactly the registered region with a buffer of its size, and
      no access that is possible, or that was made, falls outside either. */
  lemma RangeSafety(s: Setup, events: seq<Event>, id: nat)
    requires ValidSetup(s) && Exec(s, events).Some? && id in Exec(s, events).value.clients
    ensures
      var w := Exec(s, events).value;
      var c := w.clients[id];
      && c.hs.remoteAddr == s.base && c.hs.size == s.size == |c.lbuf| && !w.outside
      && forall i: nat | Next(s, w, Move(id, i)).Some? ::
           i < |c.lbuf| && s.base <= c.hs.remoteAddr + i < s.base + s.size
  {
    ExecKeepsInv(s, events);
    var w := Exec(s, events).value;
    assert ClientInv(s, w.mem, w.clients[id]);
  }

  // ------------------------------------------------------------ runs that exist

  /** Client 0 is writing and client 1 reading; from byte i on neither has begun, and
      what client 1 has read so far is the beginning of b. */
  ghost predicate Halfway(s: Setup, w: World, b: seq<Byte>, i: nat) {
    && |b| == |w.mem| == s.size && i <= s.size && 0 in w.clients && 1 in w.clients
    && (var p := w.clients[0];
        && p.op.Put? && p.phase.Posted? && p.hs.remoteAddr == s.base && |p.lbuf| == s.size
        && forall j | 0 <= j < s.size :: p.lbuf[j] == Second(j) && (j >= i ==> j in p.pending && w.mem[j] == First(j)))
    && (var g := w.clients[1];
        && g.op.Get? && g.phase.Posted? && g.hs.remoteAddr == s.base && |g.lbuf| == s.size
        && (forall j | j in g.pending :: i <= j < s.size)
        && (forall j | 0 <= j < s.size :: if j < i then g.lbuf[j] == b[j] else j in g.pending))
  }

  lemma BothPosted(s: Setup, r: World -> bool, b: seq<Byte>) returns (w: World)
    requires ValidSetup(s) && Saturated(Moves(s), r) && r(FreshWorld(s)) && |b| == s.size
    ensures r(w) && Halfway(s, w, b, 0)
  {
    hide Newcomer;
    NewcomerKnows(s, Put);
    NewcomerKnows(s, Get);
    w := Advance(Moves(s), r, FreshWorld(s), Join(0, Put));
    w := Advance(Moves(s), r, w, Join(1, Get));
    w := Advance(Moves(s), r, w, Post(0));
    w := Advance(Moves(s), r, w, Post(1));
  }

  /** Byte i is written before it is read, or read before it is written. */
  lemma TearOne(s: Setup, r: World -> bool, w: World, b: seq<Byte>, i: nat) returns (w': World)
    requires Saturated(Moves(s), r) && r(w) && i < s.size && Halfway(s, w, b, i) && Either(b[i], i)
    ensures r(w') && Halfway(s, w', b, i + 1)
  {
    w' := w;
    if b[i] != First(i) { w' := Advance(Moves(s), r, w', Move(0, i)); }
    w' := Advance(Moves(s), r, w', Move(1, i));
  }

  lemma {:induction false} Tear(s: Setup, r: World -> bool, w: World, b: seq<Byte>, i: nat) returns (w': World)
    requires Saturated(Moves(s), r) && r(w) && Halfway(s, w, b, i) && forall j | 0 <= j < s.size :: Either(b[j], j)
    ensures r(w') && Halfway(s, w', b, s.size)
    decreases s.size - i
  {
    w' := w;
    if i < s.size {
      w' := TearOne(s, r, w, b, i);
      w' := Tear(s, r, w', b, i + 1);
    }
  }

  /** Some GET of the run gave exactly b. */
  ghost predicate Gave(w: World, b: seq<Byte>) {
    exists id :: id in w.clients && w.clients[id].op.Get? && w.clients[id].phase.Settled? && w.clients[id].lbuf == b
  }

  lemma TornRun(s: Setup, r: World -> bool, b: seq<Byte>) returns (w: World)
    requires ValidSetup(s) && Saturated(Moves(s), r) && r(FreshWorld(s))
    requires |b| == s.size && forall j | 0 <= j < s.size :: Either(b[j], j)
    ensures r(w) && Gave(w, b)
  {
    w := BothPosted(s, r, b);
    w := Tear(s, r, w, b, 0);
    assert w.clients[1].pending == {} && w.clients[1].lbuf == b;
    w := Advance(Moves(s), r, w, Settle(1));
    assert w.clients[1].lbuf == b;
  }

  /** Reads can be torn in every way and in no other: a GET can give b if and only if
      b has the length of the buffer and every byte of it is of one of the patterns. */
  lemma TornReadsExactly(s: Setup, b: seq<Byte>)
    requires ValidSetup(s)
    ensures (exists events :: Exec(s, events).Some? && Gave(Exec(s, events).value, b))
            <==> |b| == s.size && forall i | 0 <= i < s.size :: Either(b[i], i)
  {
    if |b| == s.size && forall i | 0 <= i < s.size :: Either(b[i], i) {
      ReachableIsSaturated(Moves(s), FreshWorld(s));
      var w := TornRun(s, Reachable(Moves(s), FreshWorld(s)), b);
      var events := RunTo(Moves(s), FreshWorld(s), w);
      assert Exec(s, events) == Some(w);
    }
    forall events | Exec(s, events).Some? && Gave(Exec(s, events).value, b)
      ensures |b| == s.size && forall i | 0 <= i < s.size :: Either(b[i], i)
    {
      ExecKeepsInv(s, events);
    }
  }

  /** Only client id differs between the two, apart from the memory. */
  predicate OthersKept(w: World, t: World, id: nat) {
    t.clients.Keys == w.clients.Keys && forall k | k in w.clients && k != id :: t.clients[k] == w.clients[k]
  }

  /** The bytes of a posted operation from i on move one after the other. */
  lemma {:induction false} Drain(s: Setup, r: World -> bool, w: World, id: nat, i: nat) returns (w': World)
    requires ValidSetup(s) && Saturated(Moves(s), r) && r(w) && Inv(s, w) && i <= s.size
    requires id in w.clients && w.clients[id].phase.Posted? && forall j :: j in w.clients[id].pending <==> i <= j < s.size
    ensures r(w') && Inv(s, w') && OthersKept(w, w', id)
    ensures id in w'.clients && w'.clients[id].phase.Posted? && w'.clients[id].op == w.clients[id].op && w'.clients[id].pending == {}
    decreases s.size - i
  {
    if i == s.size {
      w' := w;
    } else {
      var c := w.clients[id];
      w' := Advance(Moves(s), r, w, Move(id, i));
      NextKeepsInv(s, w, Move(id, i));
      MoveOnly(s, w, id, i);
      var v := w';
      hide Next, Inv;
      w' := Drain(s, r, w', id, i + 1);
    }
  }

  lemma MoveOnly(s: Setup, w: World, id: nat, i: nat)
    requires ValidSetup(s) && Inv(s, w) && Next(s, w, Move(id, i)).Some?
    ensures
      var t := Next(s, w, Move(id, i)).value;
      && id in w.clients && OthersKept(w, t, id)
      && t.clients[id].phase == w.clients[id].phase && t.clients[id].op == w.clients[id].op
      && t.clients[id].pending == w.clients[id].pending - {i}
  {
    assert ClientInv(s, w.mem, w.clients[id]);
  }

  /** A client that has not begun posts its operation, and all its bytes move. */
  lemma Operate(s: Setup, r: World -> bool, w: World, id: nat) returns (w': World)
    requires ValidSetup(s) && Saturated(Moves(s), r) && r(w) && Inv(s, w) && id in w.clients && w.clients[id].phase.Ready?
    ensures r(w') && Inv(s, w') && OthersKept(w, w', id)
    ensures id in w'.clients && w'.clients[id].phase.Posted? && w'.clients[id].op == w.clients[id].op && w'.clients[id].pending == {}
  {
    assert ClientInv(s, w.mem, w.clients[id]);
    w' := Advance(Moves(s), r, w, Post(id));
    NextKeepsInv(s, w, Post(id));
    assert OthersKept(w, w', id);
    hide Inv, Next;
    w' := Drain(s, r, w', id, 0);
  }

  /** The flush is posted and returns OK. */
  lemma FlushAndSettle(s: Setup, r: World -> bool, w: World, id: nat) returns (w': World)
    requires ValidSetup(s) && Saturated(Moves(s), r) && r(w) && Inv(s, w)
    requires id in w.clients && w.clients[id].op.Put? && w.clients[id].phase.Posted? && w.clients[id].pending == {}
    ensures r(w') && Inv(s, w') && OthersKept(w, w', id)
    ensures id in w'.clients && w'.clients[id].op.Put? && w'.clients[id].phase.Settled?
  {
    hide Inv;
    NextKeepsInv(s, w, Flush(id));
    w' := Advance(Moves(s), r, w, Flush(id));
    NextKeepsInv(s, w', Settle(id));
    w' := Advance(Moves(s), r, w', Settle(id));
  }

  lemma PutSettles(s: Setup, r: World -> bool) returns (w: World)
    requires ValidSetup(s) && Saturated(Moves(s), r) && r(FreshWorld(s)) && Inv(s, FreshWorld(s))
    ensures r(w) && Inv(s, w) && w.clients.Keys == {0, 1}
    ensures w.clients[0].op.Put? && w.clients[0].phase.Settled? && w.clients[1].op.Get? && w.clients[1].phase.Ready?
  {
    hide Inv, Next;
    w := JoinFresh(s, r, FreshWorld(s), 0, Put);
    w := JoinFresh(s, r, w, 1, Get);
    w := Operate(s, r, w, 0);
    w := FlushAndSettle(s, r, w, 0);
  }

  lemma JoinFresh(s: Setup, r: World -> bool, w: World, id: nat, op: Op) returns (w': World)
    requires ValidSetup(s) && Saturated(Moves(s), r) && r(w) && Inv(s, w) && id !in w.clients
    ensures r(w') && Inv(s, w') && w'.clients.Keys == w.clients.Keys + {id} && w'.clients[id].op == op && w'.clients[id].phase.Ready?
    ensures forall k | k in w.clients :: w'.clients[k] == w.clients[k]
  {
    NewcomerKnows(s, op);
    hide Newcomer, Inv;
    NextKeepsInv(s, w, Join(id, op));
    w' := Advance(Moves(s), r, w, Join(id, op));
  }

  /** What is said of settled PUTs and of GETs after them is said of something: there is a
      run in which a PUT settles, and it goes on so that a GET that had not begun settles. */
  lemma PutThenGet(s: Setup) returns (events: seq<Event>, more: seq<Event>)
    requires ValidSetup(s)
    ensures Exec(s, events).Some? && Exec(s, events + more).Some?
    ensures
      var w, t := Exec(s, events).value, Exec(s, events + more).value;
      && 0 in w.clients && w.clients[0].op.Put? && w.clients[0].phase.Settled? && Unposted(w, 1)
      && 1 in t.clients && t.clients[1].op.Get? && t.clients[1].phase.Settled?
  {
    var r := Reachable(Moves(s), FreshWorld(s));
    ReachableIsSaturated(Moves(s), FreshWorld(s));
    ExecKeepsInv(s, []);
    var w := PutSettles(s, r);
    events := RunTo(Moves(s), FreshWorld(s), w);
    var r1 := Reachable(Moves(s), w);
    ReachableIsSaturated(Moves(s), w);
    var t := Operate(s, r1, w, 1);
    t := Advance(Moves(s), r1, t, Settle(1));
    more := RunTo(Moves(s), w, t);
    RunConcat(Moves(s), FreshWorld(s), events, more);
    assert Exec(s, events) == Some(w) && Exec(s, events + more) == Some(t);
  }

  // ---------------------------------------------------------------- the loops

  /** The loop that fills the server's buffer: the memory every run starts from. */
  method FillServer(s: Setup) returns (buf: array<Byte>)
    ensures fresh(buf) && buf[..] == FreshWorld(s).mem
    ensures buf.Length == s.size && forall i | 0 <= i < s.size :: buf[i] == i % 256
  {
    buf := new Byte[s.size];
    for i := 0 to s.size
      invariant forall j | 0 <= j < i :: buf[j] == First(j)
    {
      buf[i] := i % 256;
    }
  }

  /** The client's buffer: zeros, and for a PUT the loop that fills it. */
  method FillClient(op: Op, size: nat) returns (lbuf: array<Byte>)
    ensures fresh(lbuf) && lbuf[..] == LocalBuffer(op, size)
    ensures lbuf.Length == size && forall i | 0 <= i < size :: lbuf[i] == if op.Put? then (3 * i) % 256 else 0
  {
    lbuf := new Byte[size](_ => 0);
    if op.Put? {
      for i := 0 to size
        invariant forall j | 0 <= j < i :: lbuf[j] == Second(j)
      {
        lbuf[i] := (i * 3) % 256;
      }
    }
  }

  /** The whole announcement decodes to itself, a part of it to nothing. */
  lemma HandshakeOrNothing(s: Setup, b: seq<Byte>)
    requires ValidSetup(s) && b <= Encode(Announced(s))
    ensures b == Encode(Announced(s)) ==> Decode(b) == Ok(Announced(s), [])
    ensures b != Encode(Announced(s)) ==> Decode(b).Short?
  {
    hide Encode, Decode;
    var all := Encode(Announced(s));
    if |b| < |all| {
      PrefixIncomplete(Announced(s), |b|);
      assert b == all[..|b|];
    } else {
      RoundTrip(Announced(s), []);
      assert all + [] == all == b;
    }
  }

  /** client.cpp from the socket to the prepared local buffer, for any way in which the
      handshake arrives, or the beginning of it: there is a client exactly if recv_fd did
      not throw, it is the machine's newcomer, and the whole handshake was there. */
  method Prepare(s: Setup, op: Op, fd: Connection) returns (c: Option<Client>)
    requires ValidSetup(s) && fd.incoming <= Encode(Announced(s))
    modifies fd
    ensures c.Some? ==> c == Newcomer(s, op) && old(fd.incoming) == Encode(Announced(s)) && fd.incoming == []
    ensures fd.reliable && old(fd.incoming) == Encode(Announced(s)) ==> c.Some?
  {
    hide Encode, Decode;
    HandshakeOrNothing(s, fd.incoming);
    var hs := RecvFd(fd);
    if hs.None? { return None; }
    var lbuf := FillClient(op, hs.value.size);
    c := Some(Client(op, hs.value, lbuf[..], {}, Ready));
  }

  datatype Status = Done | InProgress | Error

  /** UcxEnv::wait on a request whose status checks give the listed answers in turn: the
      first settled one, after exactly as many progress calls.  None means that no check
      in the list is settled: the wait goes on. */
  method Wait(request: bool, answers: seq<Status>) returns (st: Option<Status>, progressed: nat)
    ensures !request ==> st == Some(Done) && progressed == 0
    ensures request ==>
              && progressed <= |answers|
              && (st.Some? ==> 0 < progressed && st.value == answers[progressed - 1] && !st.value.InProgress?)
              && (st.None? ==> progressed == |answers|)
              && forall k | 0 <= k < (if st.Some? then progressed - 1 else progressed) :: answers[k].InProgress?
  {
    if !request { return Some(Done), 0; }
    progressed := 0;
    while progressed < |answers|
      invariant 0 <= progressed <= |answers|
      invariant forall k | 0 <= k < progressed :: answers[k].InProgress?
    {
      var status := answers[progressed];
      progressed := progressed + 1;
      if !status.InProgress? { return Some(status), progressed; }
    }
    st := None;
  }
}
