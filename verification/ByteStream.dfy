/** The stream mode of 03_ucp_am_stream_tag_client_server with the bytes that are under
    way.  Session hands over whole messages; on the wire there are only bytes, which reach a
    WAITALL receive in pieces of any size.  As long as both sides agree on the size of a
    message, the two descriptions have the same runs, and so what is proved of Session in
    stream mode holds of the bytes.

    Assumed of UCX: a WAITALL receive takes the next bytes of the stream, in order, and
    completes once it has all it was posted for. */
module ByteStream {
  import opened Bytes
  import opened Machine
  import opened ServerMachine
  import opened Session
  import opened Integrity

  // ------------------------------------------------------------ sizes that agree

  /** Session, with clients whose messages have the size the server expects. */
  function SizedNext(c: Config, w: World, e: Event): Option<World> {
    if e.Connect? && !SizesAgree(c, e.msgs) then None else Next(c, w, e)
  }

  function SizedMoves(c: Config): (World, Event) -> Option<World> {
    (w, e) => SizedNext(c, w, e)
  }

  // ------------------------------------------------------------------ the bytes

  /** A session whose `chan` is not used, the bytes under way, and those that the
      receive under way has got so far. */
  datatype Flow = Flow(w: World, wire: seq<Byte>, part: seq<Byte>)

  datatype ByteEvent =
    | Control(e: Event)  // anything but the hand-over of messages
    | Push               // the client sends its next message
    | Arrive(n: nat)     // the next n bytes reach the receive
    | Complete           // the receive has all its bytes

  const Start3 := Flow(Start0, [], [])

  predicate HandsOver(e: Event) { e.ClientSend? || e.Deliver? || e.Receive? }

  function Next3(c: Config, b: Flow, e: ByteEvent): Option<Flow> {
    match e
    case Control(ev) =>
      var t := SizedNext(c, b.w, ev);
      if HandsOver(ev) || t.None? then None
      else if ev.Connect? then Some(Flow(t.value, [], []))
      else if ev.Local? && ev.act.Start? then Some(b.(w := t.value, part := []))
      else Some(b.(w := t.value))
    case Push =>
      if b.w.phase.Sending? && b.w.sent < |b.w.msgs| then
        Some(b.(w := b.w.(sent := b.w.sent + 1), wire := b.wire + b.w.msgs[b.w.sent].data))
      else None
    case Arrive(n) =>
      if InLoop(b.w.server, RecvWait) && b.w.server.request.Pending? && n <= |b.wire| && |b.part| + n <= c.MessageSize() then
        Some(b.(part := b.part + b.wire[..n], wire := b.wire[n..]))
      else None
    case Complete =>
      var s := Step(c, b.w.server, RecvDone(b.part));
      if s.Some? then Some(b.(w := b.w.(server := s.value), part := [])) else None
  }

  function Moves3(c: Config): (Flow, ByteEvent) -> Option<Flow> {
    (b, e) => Next3(c, b, e)
  }

  function Exec3(c: Config, events: seq<ByteEvent>): Option<Flow> {
    Run(Moves3(c), Start3, events)
  }

  // ------------------------------------------------- how messages and bytes go together

  function Data(msgs: seq<Message>): seq<Byte> {
    if msgs == [] then [] else msgs[0].data + Data(msgs[1..])
  }

  lemma {:induction false} DataAppend(msgs: seq<Message>, m: Message)
    ensures Data(msgs + [m]) == Data(msgs) + m.data
  {
    if msgs == [] {
      assert Data([m]) == m.data + Data([]);
    } else {
      assert (msgs + [m])[1..] == msgs[1..] + [m];
      DataAppend(msgs[1..], m);
    }
  }

  /** Bytes are read for the receive only while it is under way, or it was aborted. */
  predicate PartInv(c: Config, b: Flow) {
    var s := b.w.server;
    |b.part| <= c.MessageSize()
    && (b.part != [] ==> (InLoop(s, RecvWait) && !s.request.Succeeded?) || InLoop(s, ErrClosing) || s.pc.Exited?)
  }

  /** The bytes read and under way are those of the messages in chan. */
  predicate Carries(c: Config, b: Flow, chan: seq<Message>) {
    SizesAgree(c, b.w.msgs) && SizesAgree(c, chan) && Data(chan) == b.part + b.wire
  }

  /** The session that the bytes stand for: the same state with chan filled in. */
  function With(w: World, chan: seq<Message>): World { w.(chan := chan) }

  /** chan plays no part but in the hand-over of messages and at a new connection. */
  lemma ChanIgnored(c: Config, w: World, chan: seq<Message>, e: Event)
    requires !c.mode.Am? && !HandsOver(e) && !e.Connect?
    ensures
      var t, u := Next(c, w, e), Next(c, With(w, chan), e);
      t.Some? == u.Some? && (t.Some? ==> u.value == With(t.value, chan) && t.value.chan == w.chan && t.value.msgs == w.msgs)
  {
    hide Step;
  }

  /** Events of the session that are no hand-over keep the receive's bytes where they are. */
  lemma ControlKeepsPart(c: Config, b: Flow, e: Event)
    requires !c.mode.Am? && PartInv(c, b) && Next3(c, b, Control(e)).Some?
    ensures PartInv(c, Next3(c, b, Control(e)).value)
    ensures e.Local? && e.act.Start? ==> b.part == []
  {
    hide Scatter, Concat, SizesAgree;
  }

  lemma FirstMessage(c: Config, b: Flow, chan: seq<Message>)
    requires c.MessageSize() > 0 && Carries(c, b, chan) && |b.part| == c.MessageSize()
    ensures chan != [] && chan[0].data == b.part && Data(chan[1..]) == b.wire
  {
    assert chan != [];
    assert chan[0].data == (b.part + b.wire)[..c.MessageSize()] == b.part;
    assert Data(chan[1..]) == (b.part + b.wire)[c.MessageSize()..] == b.wire;
  }

  /** The bytes b stand for the session w. */
  ghost predicate Stands(c: Config, b: Flow, w: World) {
    b.w == With(w, []) && PartInv(c, b) && Carries(c, b, w.chan)
  }

  // --------------------------------------------------- the bytes follow the session

  lemma ControlStands(c: Config, r: World -> bool, b: Flow, w: World, e: Event) returns (w': World)
    requires !c.mode.Am? && Saturated(SizedMoves(c), r) && r(w) && Stands(c, b, w) && Next3(c, b, Control(e)).Some?
    ensures r(w') && Stands(c, Next3(c, b, Control(e)).value, w')
  {
    ControlKeepsPart(c, b, e);
    if e.Connect? {
      ConnectIgnoresChan(c, w, e.msgs);
      w' := Advance(SizedMoves(c), r, w, e);
    } else {
      ChanIgnored(c, With(w, []), w.chan, e);
      assert With(With(w, []), w.chan) == w;
      hide Next;
      w' := Advance(SizedMoves(c), r, w, e);
    }
  }

  lemma ConnectIgnoresChan(c: Config, w: World, msgs: seq<Message>)
    ensures
      var t := Next(c, w, Connect(msgs));
      t == Next(c, With(w, []), Connect(msgs)) && (t.Some? ==> t.value.chan == [] && t.value.msgs == msgs)
  {
    hide Step;
  }

  lemma PushStands(c: Config, r: World -> bool, b: Flow, w: World) returns (w': World)
    requires !c.mode.Am?
    requires Saturated(SizedMoves(c), r) && r(w) && Stands(c, b, w) && Next3(c, b, Push).Some?
    ensures r(w') && Stands(c, Next3(c, b, Push).value, w')
  {
    w' := Advance(SizedMoves(c), r, w, ClientSend);
    var m := w.msgs[w.sent];
    DataAppend(w.chan, m);
    assert (b.part + b.wire) + m.data == b.part + (b.wire + m.data);
  }

  lemma ArriveStands(c: Config, b: Flow, w: World, n: nat)
    requires Stands(c, b, w) && Next3(c, b, Arrive(n)).Some?
    ensures Stands(c, Next3(c, b, Arrive(n)).value, w)
  {
    assert b.wire == b.wire[..n] + b.wire[n..];
    assert b.part + (b.wire[..n] + b.wire[n..]) == (b.part + b.wire[..n]) + b.wire[n..];
  }

  lemma CompleteStands(c: Config, r: World -> bool, b: Flow, w: World) returns (w': World)
    requires !c.mode.Am? && c.MessageSize() > 0
    requires Saturated(SizedMoves(c), r) && r(w) && Stands(c, b, w) && Next3(c, b, Complete).Some?
    ensures r(w') && Stands(c, Next3(c, b, Complete).value, w')
  {
    FirstMessage(c, b, w.chan);
    hide Scatter, Concat;
    w' := Advance(SizedMoves(c), r, w, Receive);
    assert [] + b.wire == b.wire;
  }

  lemma BytesFollowSession(c: Config, events: seq<ByteEvent>) returns (w: World)
    requires !c.mode.Am? && c.MessageSize() > 0 && Exec3(c, events).Some?
    ensures Reachable(SizedMoves(c), Start0)(w) && Stands(c, Exec3(c, events).value, w)
  {
    var r := Reachable(SizedMoves(c), Start0);
    ReachableIsSaturated(SizedMoves(c), Start0);
    var inv := (b: Flow) => exists w :: r(w) && Stands(c, b, w);
    assert Stands(c, Start3, Start0);
    hide Run, Next3, Stands, Reachable;
    forall b: Flow, e: ByteEvent | inv(b) && Moves3(c)(b, e).Some? ensures inv(Moves3(c)(b, e).value) {
      var w :| r(w) && Stands(c, b, w);
      match e {
        case Control(ev) => var t := ControlStands(c, r, b, w, ev);
        case Push => var t := PushStands(c, r, b, w);
        case Arrive(n) => ArriveStands(c, b, w, n);
        case Complete => var t := CompleteStands(c, r, b, w);
      }
    }
    Invariance(Moves3(c), Start3, inv, events);
    w :| r(w) && Stands(c, Exec3(c, events).value, w);
  }

  // --------------------------------------------------- the session follows the bytes

  /** A message is received in one piece. */
  lemma ReceiveInBytes(c: Config, r: Flow -> bool, b: Flow, w: World) returns (b': Flow)
    requires !c.mode.Am? && Saturated(Moves3(c), r) && r(b) && Stands(c, b, w) && b.part == []
    requires SizedNext(c, w, Receive).Some?
    ensures r(b') && b'.part == [] && Stands(c, b', SizedNext(c, w, Receive).value)
  {
    hide Scatter, Concat;
    var n := c.MessageSize();
    assert b.wire == Data(w.chan) == w.chan[0].data + Data(w.chan[1..]);
    b' := Advance(Moves3(c), r, b, Arrive(n));
    assert b'.part == w.chan[0].data && b'.wire == Data(w.chan[1..]);
    b' := Advance(Moves3(c), r, b', Complete);
    assert [] + b'.wire == b'.wire;
  }

  lemma SendInBytes(c: Config, r: Flow -> bool, b: Flow, w: World) returns (b': Flow)
    requires !c.mode.Am?
    requires Saturated(Moves3(c), r) && r(b) && Stands(c, b, w) && b.part == []
    requires SizedNext(c, w, ClientSend).Some?
    ensures r(b') && b'.part == [] && Stands(c, b', SizedNext(c, w, ClientSend).value)
  {
    hide Step;
    b' := Advance(Moves3(c), r, b, Push);
    DataAppend(w.chan, w.msgs[w.sent]);
    assert [] + (b.wire + w.msgs[w.sent].data) == ([] + b.wire) + w.msgs[w.sent].data;
  }

  lemma StepInBytes(c: Config, r: Flow -> bool, b: Flow, w: World, e: Event) returns (b': Flow)
    requires !c.mode.Am? && Saturated(Moves3(c), r) && r(b) && Stands(c, b, w) && b.part == []
    requires SizedNext(c, w, e).Some?
    ensures r(b') && b'.part == [] && Stands(c, b', SizedNext(c, w, e).value)
  {
    if e.Receive? {
      b' := ReceiveInBytes(c, r, b, w);
    } else if e.ClientSend? {
      b' := SendInBytes(c, r, b, w);
    } else if e.Connect? {
      ConnectIgnoresChan(c, w, e.msgs);
      b' := Advance(Moves3(c), r, b, Control(e));
    } else {
      NoDelivery(c, w, e);
      ChanIgnored(c, With(w, []), w.chan, e);
      assert With(With(w, []), w.chan) == w;
      hide Next;
      b' := Advance(Moves3(c), r, b, Control(e));
    }
  }

  lemma NoDelivery(c: Config, w: World, e: Event)
    requires !c.mode.Am? && Next(c, w, e).Some?
    ensures !e.Deliver?
  {
  }

  lemma SessionFollowsBytes(c: Config, w: World) returns (b: Flow)
    requires !c.mode.Am? && Reachable(SizedMoves(c), Start0)(w)
    ensures Reachable(Moves3(c), Start3)(b) && Stands(c, b, w)
  {
    var r := Reachable(Moves3(c), Start3);
    ReachableIsSaturated(Moves3(c), Start3);
    var events := RunTo(SizedMoves(c), Start0, w);
    var inv := (w: World) => exists b: Flow :: r(b) && b.part == [] && Stands(c, b, w);
    assert Stands(c, Start3, Start0);
    hide Run, SizedNext, Stands, Reachable;
    forall w: World, e: Event | inv(w) && SizedMoves(c)(w, e).Some? ensures inv(SizedMoves(c)(w, e).value) {
      var b: Flow :| r(b) && b.part == [] && Stands(c, b, w);
      var t := StepInBytes(c, r, b, w, e);
    }
    Invariance(SizedMoves(c), Start0, inv, events);
    b :| r(b) && b.part == [] && Stands(c, b, w);
  }

  // ------------------------------------------------------------- main results

  /** The two descriptions have the same runs: bytes under way are possible if and only if
      they are, cut at any point, the messages under way in a run of Session. */
  lemma SameStreams(c: Config, w: World)
    requires !c.mode.Am? && c.MessageSize() > 0
    ensures Reachable(SizedMoves(c), Start0)(w) ==> exists b :: Reachable(Moves3(c), Start3)(b) && Stands(c, b, w)
    ensures forall b | Reachable(Moves3(c), Start3)(b) :: exists v :: Reachable(SizedMoves(c), Start0)(v) && Stands(c, b, v)
  {
    if Reachable(SizedMoves(c), Start0)(w) {
      var b := SessionFollowsBytes(c, w);
    }
    forall b | Reachable(Moves3(c), Start3)(b) ensures exists v :: Reachable(SizedMoves(c), Start0)(v) && Stands(c, b, v) {
      var events := RunTo(Moves3(c), Start3, b);
      assert Exec3(c, events) == Some(b);
      var v := BytesFollowSession(c, events);
    }
  }

  lemma SizedIsSession(c: Config, w: World)
    requires Reachable(SizedMoves(c), Start0)(w)
    ensures Reachable(Moves(c), Start0)(w)
  {
    var r := Reachable(Moves(c), Start0);
    ReachableIsSaturated(Moves(c), Start0);
    var events := RunTo(SizedMoves(c), Start0, w);
    hide Run, Next, Reachable;
    forall w: World, e: Event | r(w) && SizedMoves(c)(w, e).Some? ensures r(SizedMoves(c)(w, e).value) {
      var t := Advance(Moves(c), r, w, e);
    }
    Invariance(SizedMoves(c), Start0, r, events);
  }

  /** The stream brings every message intact and in its own iteration, however its bytes
      are cut into pieces: in every run with bytes under way a server at the FIN, and every
      session whose client returned 0, has got message k in iteration k for all k.  At the
      FIN no byte is left over. */
  lemma StreamIntact(c: Config, events: seq<ByteEvent>)
    requires !c.mode.Am? && c.MessageSize() > 0 && Exec3(c, events).Some?
    ensures
      var b := Exec3(c, events).value;
      && (ReachedFin(c, b.w.server) ==> Matches(b.w.server.got, b.w.msgs, c.iterations) && b.wire == [] && b.part == [])
      && (b.w.ok ==> Matches(b.w.server.got, b.w.msgs, c.iterations))
  {
    var b := Exec3(c, events).value;
    var w := BytesFollowSession(c, events);
    SizedIsSession(c, w);
    var es := RunTo(Moves(c), Start0, w);
    assert Exec(c, es) == Some(w);
    ExecKeepsInv(c, es);
    if ReachedFin(c, w.server) {
      ReceivedEverything(c, es);
      CountedOut(c, w);
      assert |b.part + b.wire| == 0;
    }
    if w.ok { AcknowledgedIntact(c, es); }
  }
}
