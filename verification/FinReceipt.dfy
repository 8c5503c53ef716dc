/** How the client of 03_ucp_am_stream_tag_client_server receives the FIN in AM mode.  It
    runs the same send_recv_am in the role of the receiver, with an am_data_desc of its own
    and for one message, which is ServerMachine with one iteration.  Session takes this
    exchange as two events, FinArrives and ClientReturns; here it is taken apart, and the two
    descriptions are shown to have the same runs.

    Assumed of UCX besides what Session assumes: a rendezvous receive takes the bytes that
    are in the sender's buffers, and the send succeeds only after that. */
module FinReceipt {
  import opened Bytes
  import opened Machine
  import opened ServerMachine
  import opened Session
  import opened Integrity
  import opened Schedules

  /** The client's receiver: the same buffers, one message. */
  function Receiver(c: Config): Config { c.(iterations := 1) }

  /** A session, the client's receiver, and the FIN the server has posted. */
  datatype Pair = Pair(w: World, f: Server, fin: Message)

  datatype Detail =
    | Joint(e: Event, protocol: Protocol)  // an event of the session; UCX picks the protocol of a FIN posted by it
    | Inner(act: Act)                      // the client acts on its own, or UCX completes its receive
    | FinComes                             // the FIN reaches the client

  /** client_server_communication has returned 0 for the FIN. */
  predicate Returned(f: Server) { f.pc.Iterate? && f.i == 1 }

  /** The session event posts the FIN. */
  predicate Posts(w: World, e: Event, t: World) { e.Local? && w.fin.Unsent? && t.fin.InFlight? && e.act.Start? }

  /** The client has the data of a rendezvous FIN. */
  predicate Taken(f: Server) { Returned(f) || (InLoop(f, RecvWait) && f.request.Succeeded?) }

  /** The data that the client's rendezvous receive takes are those in the server's buffers. */
  predicate FromBuffers(s: Server, data: seq<Byte>) {
    InLoop(s, FinWait) && s.request.Pending? && s.iov in s.heap && Concat(s.heap[s.iov]) == data
  }

  function Together(c: Config, d: Pair, e: Event, protocol: Protocol, t: World): Option<Pair> {
    match e
    case Connect(_) => Some(Pair(t, Init, d.fin))
    case ClientAwaitFin =>
      var f := Step(Receiver(c), d.f, Admit);
      if f.Some? then Some(Pair(t, f.value, d.fin)) else None
    case ClientReturns => if Returned(d.f) then Some(d.(w := t)) else None
    case FinArrives => None
    case _ =>
      if e == Local(SendDone) && d.fin.protocol.Rndv? && !Taken(d.f) then None
      else if Posts(d.w, e, t) then Some(d.(w := t, fin := Message(protocol, Concat(e.act.junk)))) else Some(d.(w := t))
  }

  function Next2(c: Config, d: Pair, e: Detail): Option<Pair> {
    match e
    case Joint(ev, protocol) =>
      var t := Next(c, d.w, ev);
      if t.Some? then Together(c, d, ev, protocol, t.value) else None
    case Inner(a) =>
      var f := Step(Receiver(c), d.f, a);
      if IsLocal(a) && !Returned(d.f) && (d.w.phase.AwaitFin? || d.w.phase.Finished?) && f.Some?
        && (a.RecvDone? ==> FromBuffers(d.w.server, a.data))
      then Some(d.(f := f.value))
      else None
    case FinComes =>
      var t, f := Next(c, d.w, FinArrives), Step(Receiver(c), d.f, AmCallback(d.fin));
      if t.None? then None
      else if !d.w.phase.AwaitFin? then Some(d.(w := t.value))  // no handler: dropped
      else if f.Some? then Some(d.(w := t.value, f := f.value))
      else None
  }

  const Start2 := Pair(Start0, Init, Message(Eager, []))

  function Moves2(c: Config): (Pair, Detail) -> Option<Pair> {
    (d, e) => Next2(c, d, e)
  }

  function Exec2(c: Config, details: seq<Detail>): Option<Pair> {
    Run(Moves2(c), Start2, details)
  }

  // ---------------------------------------------------------------- invariant

  /** What the receiver holds of the FIN. */
  ghost predicate HoldsFin(f: Server, fin: Message) {
    && (f.slot.complete ==>
          && f.slot.isRndv == fin.protocol.Rndv?
          && (f.slot.isRndv ==> f.slot.desc == fin.data)
          && (!f.slot.isRndv && InLoop(f, AmWait) ==> f.iov in f.heap && Concat(f.heap[f.iov]) == fin.data))
    && (InLoop(f, RecvWait) ==>
          && f.posted == fin.data
          && (f.request.Succeeded? ==> f.iov in f.heap && Concat(f.heap[f.iov]) == fin.data))
    && (Returned(f) ==> f.got == [fin.data])
  }

  /** Where the receiver can be, and the callbacks it has seen. */
  ghost predicate ReceiverInv(c: Config, f: Server, fin: Message) {
    && Inv(Receiver(c), f)
    && f.accepted <= 1 && f.lost == 0
    && (f.stray > 0 ==> InLoop(f, ErrClosing) || f.pc.Exited?)
    && !InLoop(f, FinWait) && !InLoop(f, CloseWait) && !InLoop(f, EpClosing)
    && (f.pc.Iterate? && f.i == 0 ==> f.got == [] && f.accepted == 0)
    && (InLoop(f, AmWait) ==> f.i == 0 && f.got == [] && f.consumed == 0)
    && (InLoop(f, RecvWait) ==> f.i == 0 && f.got == [] && f.consumed == 1)
    && (Returned(f) ==> f.consumed == 1)
    && HoldsFin(f, fin)
  }

  /** How it goes with the session. */
  ghost predicate PairInv(c: Config, d: Pair) {
    var w, f := d.w, d.f;
    && ReceiverInv(c, f, d.fin)
    && (w.phase.Sending? ==> f == Init)
    && (w.phase.AwaitFin? || w.phase.Finished? ==> !f.pc.Accept?)
    && (f.accepted == 1 ==> !w.phase.AwaitFin? && w.fin.Delivered?)
    && (!w.fin.Unsent? ==> |d.fin.data| == c.MessageSize())
    && (w.ok ==> Returned(f))
    && (w.phase.AwaitFin? ==> !Returned(f) && !f.slot.complete)
  }

  /** The receiver's own steps. */
  lemma InnerKeepsInv(c: Config, f: Server, fin: Message, a: Act)
    requires c.mode.Am? && ReceiverInv(c, f, fin) && !f.pc.Accept? && !Returned(f)
    requires IsLocal(a) && Step(Receiver(c), f, a).Some?
    ensures
      var t := Step(Receiver(c), f, a).value;
      ReceiverInv(c, t, fin) && t.accepted == f.accepted && !t.pc.Accept?
      && (!f.slot.complete && f.accepted == 0 ==> !Returned(t) && !t.slot.complete)
  {
    StepKeepsInv(Receiver(c), f, a);
    hide Scatter;
  }

  /** The callback with the FIN, the only one the receiver sees. */
  lemma CallbackKeepsReceiver(c: Config, f: Server, fin: Message)
    requires c.mode.Am? && ReceiverInv(c, f, fin) && f.accepted == 0
    requires Step(Receiver(c), f, AmCallback(fin)).Some?
    ensures ReceiverInv(c, Step(Receiver(c), f, AmCallback(fin)).value, fin)
    ensures !Step(Receiver(c), f, AmCallback(fin)).value.pc.Accept?
  {
    StepKeepsInv(Receiver(c), f, AmCallback(fin));
  }

  /** What an event of the session other than the FIN's arrival means to the client. */
  lemma JointEffect(c: Config, w: World, e: Event)
    requires c.mode.Am? && WorldInv(c, w) && Next(c, w, e).Some? && !e.FinArrives?
    ensures
      var t := Next(c, w, e).value;
      && (t.fin != w.fin ==> e.Connect? || Posts(w, e, t))
      && (Posts(w, e, t) ==> |Concat(e.act.junk)| == c.MessageSize())
      && (e.Connect? ==> t.fin.Unsent? && t.phase.Sending? && !t.ok)
      && (!e.Connect? && !e.ClientReturns? ==> t.ok == w.ok)
      && (t.phase != w.phase ==> e.Connect? || (e.ClientAwaitFin? && t.phase.AwaitFin?) || t.phase.Closed?)
  {
    hide Inv, InOrder;
    if e.Local? && e.act.Start? && Shaped(e.act.junk, c.iovCnt, c.length) {
      ShapedSize(e.act.junk, c.iovCnt, c.length);
    }
  }

  lemma JointKeepsInv(c: Config, d: Pair, e: Event, protocol: Protocol)
    requires c.mode.Am? && WorldInv(c, d.w) && PairInv(c, d) && Next2(c, d, Joint(e, protocol)).Some?
    ensures PairInv(c, Next2(c, d, Joint(e, protocol)).value)
  {
    JointEffect(c, d.w, e);
    hide Next, WorldInv;
    if e.ClientAwaitFin? { StepKeepsInv(Receiver(c), d.f, Admit); }
  }

  /** The receiver's steps and the FIN's arrival. */
  lemma ClientKeepsPair(c: Config, d: Pair, e: Detail)
    requires c.mode.Am? && WorldInv(c, d.w) && PairInv(c, d) && Next2(c, d, e).Some? && !e.Joint?
    ensures PairInv(c, Next2(c, d, e).value)
  {
    match e {
      case Inner(a) => InnerKeepsInv(c, d.f, d.fin, a);
      case FinComes => if d.w.phase.AwaitFin? { CallbackKeepsReceiver(c, d.f, d.fin); }
    }
    hide Inv, InOrder, Step, ReceiverInv, CountInv;
  }

  /** The session's part of every run in detail is a run of Session. */
  lemma SessionSteps(c: Config, d: Pair, e: Detail)
    requires Next2(c, d, e).Some?
    ensures
      var t := Next2(c, d, e).value.w;
      match e
      case Joint(ev, _) => Next(c, d.w, ev) == Some(t)
      case Inner(_) => t == d.w
      case FinComes => Next(c, d.w, FinArrives) == Some(t)
  {
    hide Next, Step;
  }

  /** The FIN in the server's buffers stays what was posted, whatever callbacks come. */
  ghost predicate FinInBuffers(d: Pair) {
    InLoop(d.w.server, FinWait) ==> d.w.server.iov in d.w.server.heap && Concat(d.w.server.heap[d.w.server.iov]) == d.fin.data
  }

  lemma ServerKeepsFin(c: Config, s: Server, a: Act)
    requires Inv(c, s) && Step(c, s, a).Some?
    ensures
      var t := Step(c, s, a).value;
      InLoop(t, FinWait) ==>
        if a.Start? then t.iov in t.heap && t.heap[t.iov] == a.junk && s.pc.Iterate? && s.i == c.iterations
        else InLoop(s, FinWait) && t.iov == s.iov && s.iov in s.heap && t.iov in t.heap && t.heap[t.iov] == s.heap[s.iov]
  {
    hide Scatter, Concat;
  }

  lemma ServerEffect(c: Config, w: World, e: Event)
    requires c.mode.Am? && WorldInv(c, w) && Next(c, w, e).Some?
    ensures
      var t, a := Next(c, w, e).value, ServerAct(w, e);
      && (a.None? ==> t.server == w.server)
      && (a.Some? ==> Step(c, w.server, a.value) == Some(t.server))
      && (a.Some? && a.value.Start? && w.server.i == c.iterations ==> Posts(w, e, t))
      && (Posts(w, e, t) ==> a.Some? && a.value.Start?)
  {
    hide Inv, InOrder, Step;
    if e.Local? && e.act.Start? { BeginStep(c, w.server, e.act.junk); }
  }

  lemma NextKeepsFin(c: Config, d: Pair, e: Detail)
    requires c.mode.Am? && WorldInv(c, d.w) && FinInBuffers(d) && Next2(c, d, e).Some?
    ensures FinInBuffers(Next2(c, d, e).value)
  {
    SessionSteps(c, d, e);
    var ev := if e.Joint? then e.e else FinArrives;
    if !e.Inner? {
      ServerEffect(c, d.w, ev);
      var a := ServerAct(d.w, ev);
      hide Next, Step, Concat;
      if a.Some? {
        assert Inv(c, d.w.server);
        ServerKeepsFin(c, d.w.server, a.value);
      }
    }
    hide WorldInv;
  }

  /** Until the client has taken the data of a rendezvous FIN the server keeps waiting for
      its send, or has given up. */
  ghost predicate HeldForClient(d: Pair) {
    var s := d.w.server;
    !d.w.fin.Unsent? && d.fin.protocol.Rndv? && !Taken(d.f) ==>
      (InLoop(s, FinWait) && !s.request.Succeeded?) || InLoop(s, ErrClosing) || s.pc.Exited?
  }

  lemma ServerWaits(c: Config, s: Server, a: Act)
    requires Step(c, s, a).Some? && !a.SendDone?
    ensures
      var t := Step(c, s, a).value;
      && (InLoop(s, FinWait) && !s.request.Succeeded? ==> (InLoop(t, FinWait) && !t.request.Succeeded?) || InLoop(t, ErrClosing))
      && (InLoop(s, ErrClosing) || s.pc.Exited? ==> InLoop(t, ErrClosing) || t.pc.Exited?)
      && (a.Start? ==> InLoop(t, FinWait) || Receiving(t))
      && (a.Start? && s.i == c.iterations ==> InLoop(t, FinWait) && t.request.Pending?)
  {
    hide Scatter, Concat;
  }

  /** What the client has taken it keeps. */
  lemma TakenStays(c: Config, f: Server, a: Act)
    requires Taken(f) && !Returned(f) && IsLocal(a) && Step(Receiver(c), f, a).Some? && f.i == 0
    ensures Taken(Step(Receiver(c), f, a).value)
  {
    hide Scatter, Concat;
  }

  lemma NextKeepsHeld(c: Config, d: Pair, e: Detail)
    requires c.mode.Am? && WorldInv(c, d.w) && PairInv(c, d) && HeldForClient(d) && Next2(c, d, e).Some?
    ensures HeldForClient(Next2(c, d, e).value)
  {
    SessionSteps(c, d, e);
    match e {
      case Joint(ev, protocol) =>
        JointEffect(c, d.w, ev);
        ServerEffect(c, d.w, ev);
        var a := ServerAct(d.w, ev);
        if a.Some? && !a.value.SendDone? { ServerWaits(c, d.w.server, a.value); }
        hide Next, Step, WorldInv;
      case Inner(a) =>
        if Taken(d.f) { TakenStays(c, d.f, a); }
        hide Next, Step, WorldInv;
      case FinComes =>
        ServerEffect(c, d.w, FinArrives);
        hide Next, Step, WorldInv;
    }
  }

  ghost predicate AllInv(c: Config, d: Pair) {
    WorldInv(c, d.w) && PairInv(c, d) && FinInBuffers(d) && HeldForClient(d)
  }

  lemma NextKeepsAll(c: Config, d: Pair, e: Detail)
    requires c.mode.Am? && AllInv(c, d) && Next2(c, d, e).Some?
    ensures AllInv(c, Next2(c, d, e).value)
  {
    hide WorldInv, PairInv, FinInBuffers, HeldForClient, Next;
    match e {
      case Joint(ev, protocol) => JointKeepsInv(c, d, ev, protocol); NextKeepsInv(c, d.w, ev);
      case Inner(_) => ClientKeepsPair(c, d, e);
      case FinComes => ClientKeepsPair(c, d, e); NextKeepsInv(c, d.w, FinArrives);
    }
    NextKeepsFin(c, d, e);
    NextKeepsHeld(c, d, e);
  }

  lemma Start2Inv(c: Config)
    ensures AllInv(c, Start2)
  {
    StartInv(c);
    hide WorldInv;
  }

  lemma Exec2KeepsInv(c: Config, details: seq<Detail>)
    requires c.mode.Am? && Exec2(c, details).Some?
    ensures AllInv(c, Exec2(c, details).value)
  {
    Start2Inv(c);
    hide Run, Next2, AllInv;
    var inv := (d: Pair) => AllInv(c, d);
    forall d: Pair, e: Detail | inv(d) && Moves2(c)(d, e).Some? ensures inv(Moves2(c)(d, e).value) {
      NextKeepsAll(c, d, e);
    }
    Invariance(Moves2(c), Start2, inv, details);
  }

  // ------------------------------------------------------------- main results

  /** A client whose client_server_do_work returned 0 has seen exactly one callback and
      consumed it in one wait; the FIN came into live buffers, they held exactly what the
      server sent, and they are freed.  In no run does the client's receiver see more than
      one callback, lose one, or copy through dead buffers before it gives up. */
  lemma FinReceived(c: Config, details: seq<Detail>)
    requires c.mode.Am? && Exec2(c, details).Some?
    ensures
      var d := Exec2(c, details).value;
      && d.f.accepted <= 1 && d.f.lost == 0
      && (d.f.stray > 0 ==> InLoop(d.f, ErrClosing) || d.f.pc.Exited?)
      && (d.w.ok ==>
            d.f.accepted == d.f.consumed == 1 && !d.f.slot.complete
            && d.f.got == [d.fin.data] && |d.fin.data| == c.MessageSize() && d.f.heap == map[])
  {
    Exec2KeepsInv(c, details);
  }

  /** While the server waits for the send of the FIN, its buffers hold the FIN; and it does
      so until the client has taken the data of a rendezvous FIN, unless it gives up. */
  lemma FinIsWhatWasSent(c: Config, details: seq<Detail>)
    requires c.mode.Am? && Exec2(c, details).Some?
    ensures
      var d := Exec2(c, details).value;
      var s := d.w.server;
      && (InLoop(s, FinWait) ==> s.iov in s.heap && Concat(s.heap[s.iov]) == d.fin.data)
      && (!d.w.fin.Unsent? && d.fin.protocol.Rndv? && !Taken(d.f) ==>
            (InLoop(s, FinWait) && !s.request.Succeeded?) || InLoop(s, ErrClosing) || s.pc.Exited?)
  {
    Exec2KeepsInv(c, details);
  }

  /** Some run in detail has this session part. */
  ghost predicate InDetail(c: Config, w: World) {
    exists f, fin :: Reachable(Moves2(c), Start2)(Pair(w, f, fin))
  }

  lemma DetailIsSession(c: Config, details: seq<Detail>)
    requires Exec2(c, details).Some?
    ensures Reachable(Moves(c), Start0)(Exec2(c, details).value.w)
  {
    var r := Reachable(Moves(c), Start0);
    ReachableIsSaturated(Moves(c), Start0);
    var inv := (d: Pair) => r(d.w);
    hide Run, Next, Next2, Reachable;
    forall d: Pair, e: Detail | inv(d) && Moves2(c)(d, e).Some? ensures inv(Moves2(c)(d, e).value) {
      SessionSteps(c, d, e);
      if e.Joint? { var t := Advance(Moves(c), r, d.w, e.e); }
      if e.FinComes? { var t := Advance(Moves(c), r, d.w, FinArrives); }
    }
    Invariance(Moves2(c), Start2, inv, details);
  }

  /** The receiver where Session leaves it open: not begun, about to wait, or done. */
  ghost predicate Ready(c: Config, d: Pair) {
    && (d.w.phase.Sending? ==> d.f == Init)
    && (d.w.phase.AwaitFin? ==> d.f == Step(Receiver(c), Init, Admit).value)
    && (d.w.phase.Finished? ==> Returned(d.f))
    && (!d.w.fin.Unsent? ==> d.fin.protocol.Eager? && |d.fin.data| == c.MessageSize())
  }

  /** The FIN's arrival in detail: buffers, one progress call with the callback, and the
      eager message is there. */
  lemma ArriveInDetail(c: Config, r: Pair -> bool, d: Pair) returns (d': Pair)
    requires c.mode.Am? && Saturated(Moves2(c), r) && r(d) && Ready(c, d)
    requires d.w.phase.AwaitFin? && d.w.fin.InFlight?
    ensures r(d') && Ready(c, d') && Some(d'.w) == Next(c, d.w, FinArrives)
  {
    d' := BeginInner(c, r, d);
    d' := Advance(Moves2(c), r, d', Inner(Enter));
    d' := Advance(Moves2(c), r, d', FinComes);
    d' := Advance(Moves2(c), r, d', Inner(Leave));
    d' := Advance(Moves2(c), r, d', Inner(Exit));
  }

  lemma BeginInner(c: Config, r: Pair -> bool, d: Pair) returns (d': Pair)
    requires c.mode.Am? && Saturated(Moves2(c), r) && r(d) && d.f == Step(Receiver(c), Init, Admit).value
    requires d.w.phase.AwaitFin? && d.w.fin.InFlight? && |d.fin.data| == c.MessageSize()
    ensures r(d') && d' == d.(f := d'.f)
    ensures
      var f := d'.f;
      f.pc == Spin(AmWait, false) && f.i == 0 && !f.slot.complete && f.slot.recvBuf == Some(f.iov) && f.iov in f.heap
  {
    d' := Advance(Moves2(c), r, d, Inner(Start(Scatter(d.fin.data, c.iovCnt, c.length))));
  }

  /** Every event of the session can be had in detail. */
  lemma StepInDetail(c: Config, r: Pair -> bool, d: Pair, e: Event) returns (d': Pair)
    requires c.mode.Am? && Saturated(Moves2(c), r) && r(d) && Ready(c, d) && WorldInv(c, d.w)
    requires Next(c, d.w, e).Some?
    ensures r(d') && Ready(c, d') && Some(d'.w) == Next(c, d.w, e)
  {
    if e.FinArrives? && d.w.phase.AwaitFin? {
      d' := ArriveInDetail(c, r, d);
    } else if e.FinArrives? {
      d' := Advance(Moves2(c), r, d, FinComes);
    } else {
      JointEffect(c, d.w, e);
      ClientPhases(c, d.w, e);
      hide Next, WorldInv;
      d' := Advance(Moves2(c), r, d, Joint(e, Eager));
    }
  }

  lemma ClientPhases(c: Config, w: World, e: Event)
    requires Next(c, w, e).Some?
    ensures e.ClientAwaitFin? ==> w.phase.Sending?
    ensures e.ClientReturns? ==> w.phase.Finished?
  {
  }

  lemma ReadyInDetail(c: Config, events: seq<Event>) returns (d: Pair)
    requires c.mode.Am? && Exec(c, events).Some?
    ensures Reachable(Moves2(c), Start2)(d) && Ready(c, d) && d.w == Exec(c, events).value
  {
    var r := Reachable(Moves2(c), Start2);
    ReachableIsSaturated(Moves2(c), Start2);
    StartInv(c);
    assert Ready(c, Start2);
    assert Start2 == Pair(Start0, Init, Start2.fin);
    hide Run, Next, Next2, WorldInv, Ready, Reachable;
    var inv := (w: World) => WorldInv(c, w) && exists f, fin :: r(Pair(w, f, fin)) && Ready(c, Pair(w, f, fin));
    forall w: World, e: Event | inv(w) && Moves(c)(w, e).Some? ensures inv(Moves(c)(w, e).value) {
      NextKeepsInv(c, w, e);
      var f, fin :| r(Pair(w, f, fin)) && Ready(c, Pair(w, f, fin));
      var d := StepInDetail(c, r, Pair(w, f, fin), e);
      assert d == Pair(d.w, d.f, d.fin);
    }
    Invariance(Moves(c), Start0, inv, events);
    var w := Exec(c, events).value;
    var f, fin :| r(Pair(w, f, fin)) && Ready(c, Pair(w, f, fin));
    d := Pair(w, f, fin);
  }

  /** Taking the FIN exchange as two events loses and adds nothing: a state of the session
      can be reached if and only if it can be reached with the client's receiver in detail. */
  lemma SameSessions(c: Config, w: World)
    requires c.mode.Am?
    ensures Reachable(Moves(c), Start0)(w) <==> InDetail(c, w)
  {
    if Reachable(Moves(c), Start0)(w) {
      var events := RunTo(Moves(c), Start0, w);
      assert Exec(c, events) == Some(w);
      var d := ReadyInDetail(c, events);
      assert d == Pair(w, d.f, d.fin);
    }
    if InDetail(c, w) {
      var f, fin :| Reachable(Moves2(c), Start2)(Pair(w, f, fin));
      var details := RunTo(Moves2(c), Start2, Pair(w, f, fin));
      assert Exec2(c, details) == Some(Pair(w, f, fin));
      DetailIsSession(c, details);
    }
  }

  /** A FIN by rendezvous also has runs: for any messages of the agreed size the client
      takes it out of the server's buffers and returns 0. */
  lemma FinByRendezvous(c: Config, msgs: seq<Message>) returns (details: seq<Detail>)
    requires c.mode.Am? && |msgs| == c.iterations && SizesAgree(c, msgs)
    ensures Exec2(c, details).Some?
    ensures
      var d := Exec2(c, details).value;
      d.w.msgs == msgs && d.w.ok && d.fin.protocol.Rndv? && d.f.got == [d.fin.data]
  {
    var r := Reachable(Moves2(c), Start2);
    ReachableIsSaturated(Moves2(c), Start2);
    var d := BeforeFin(c, msgs);
    d := PostRendezvous(c, r, d);
    d := Accept(c, r, d);
    d := TakeData(c, r, d);
    d := Advance(Moves2(c), r, d, Joint(ClientReturns, Eager));
    details := RunTo(Moves2(c), Start2, d);
    assert Exec2(c, details) == Some(d);
    FinReceived(c, details);
  }

  /** All messages are received and the client waits for the FIN. */
  lemma BeforeFin(c: Config, msgs: seq<Message>) returns (d: Pair)
    requires c.mode.Am? && |msgs| == c.iterations && SizesAgree(c, msgs)
    ensures Reachable(Moves2(c), Start2)(d) && Ready(c, d)
    ensures d.w.msgs == msgs && d.w.phase.AwaitFin? && d.w.server.pc.Iterate? && d.w.server.i == c.iterations && d.w.fin.Unsent?
  {
    var r := Reachable(Moves(c), Start0);
    ReachableIsSaturated(Moves(c), Start0);
    var w := Begin(c, r, msgs);
    w := ReceiveUpTo(c, r, w, 0, c.iterations);
    w := Advance(Moves(c), r, w, ClientAwaitFin);
    var events := RunTo(Moves(c), Start0, w);
    assert Exec(c, events) == Some(w);
    d := ReadyInDetail(c, events);
  }

  lemma PostRendezvous(c: Config, r: Pair -> bool, d: Pair) returns (d': Pair)
    requires c.mode.Am? && Saturated(Moves2(c), r) && r(d) && Ready(c, d)
    requires d.w.phase.AwaitFin? && d.w.server.pc.Iterate? && d.w.server.i == c.iterations && d.w.fin.Unsent?
    ensures r(d') && d'.f == d.f && d'.w.msgs == d.w.msgs && d'.w.phase.AwaitFin? && d'.w.fin.InFlight?
    ensures d'.fin.protocol.Rndv? && |d'.fin.data| == c.MessageSize() && FromBuffers(d'.w.server, d'.fin.data)
  {
    var junk := Scatter(seq(c.MessageSize(), _ => 0), c.iovCnt, c.length);
    ShapedSize(junk, c.iovCnt, c.length);
    d' := Advance(Moves2(c), r, d, Joint(Local(Start(junk)), Rndv));
  }

  /** The client's wait ends with the descriptor. */
  lemma Accept(c: Config, r: Pair -> bool, d: Pair) returns (d': Pair)
    requires c.mode.Am? && Saturated(Moves2(c), r) && r(d) && d.f == Step(Receiver(c), Init, Admit).value
    requires d.w.phase.AwaitFin? && d.w.fin.InFlight? && d.fin.protocol.Rndv? && |d.fin.data| == c.MessageSize()
    ensures r(d') && d'.fin == d.fin && d'.w == d.w.(fin := Delivered, phase := Finished)
    ensures
      var f := d'.f;
      f.pc == Spin(RecvWait, false) && f.i == 0 && f.request.Pending? && f.posted == d.fin.data && f.iov in f.heap
  {
    hide Concat;
    d' := BeginInner(c, r, d);
    d' := Advance(Moves2(c), r, d', Inner(Enter));
    d' := Advance(Moves2(c), r, d', FinComes);
    d' := Advance(Moves2(c), r, d', Inner(Leave));
    d' := Advance(Moves2(c), r, d', Inner(Exit));
  }

  lemma TakeData(c: Config, r: Pair -> bool, d: Pair) returns (d': Pair)
    requires c.mode.Am? && Saturated(Moves2(c), r) && r(d)
    requires d.w.phase.Finished? && |d.fin.data| == c.MessageSize() && FromBuffers(d.w.server, d.fin.data)
    requires
      var f := d.f;
      f.pc == Spin(RecvWait, false) && f.i == 0 && f.request.Pending? && f.posted == d.fin.data && f.iov in f.heap
    ensures r(d') && d' == d.(f := d'.f) && Returned(d'.f)
  {
    hide Concat;
    d' := Advance(Moves2(c), r, d, Inner(Enter));
    d' := Advance(Moves2(c), r, d', Inner(RecvDone(d.fin.data)));
    d' := Advance(Moves2(c), r, d', Inner(Leave));
    d' := Advance(Moves2(c), r, d', Inner(Exit));
  }
}
