/** The server of ServerMachine together with its clients and the connection
    between them, over any number of consecutive sessions.

    Assumed of UCX: callbacks run only inside ucp_worker_progress, any number
    of them in one call; messages of one connection arrive in order; err_cb runs
    only once the peer is gone; an active message that arrives where no handler
    is registered is dropped; the send of a rendezvous message does not complete
    before its receive is posted, unless the callback refused the message. */
module Session {
  import opened Bytes
  import opened Machine
  import opened ServerMachine

  /** client_server_do_work on the client side, then ep_close. */
  datatype ClientPhase = Sending | AwaitFin | Finished | Closed

  datatype Fin = Unsent | InFlight | Delivered | Dropped

  /** msgs is what the current client sends in its iterations, `sent` how many it
      has sent, `chan` what is still under way.  `ok` says that the client's
      client_server_do_work returned 0.  `base` is the number of waits the server
      had consumed when the session began. */
  datatype World = World(
    server: Server, msgs: seq<Message>, sent: nat, chan: seq<Message>,
    phase: ClientPhase, ok: bool, fin: Fin, base: nat)

  const Start0 := World(ServerMachine.Init, [], 0, [], Closed, false, Unsent, 0)

  datatype Event =
    | Connect(msgs: seq<Message>)  // a client is admitted; it will send these
    | Local(act: Act)              // the server acts on its own, or UCX completes its request
    | Deliver                      // the next message reaches ucp_am_data_cb
    | Receive                      // the next message completes a stream or tag receive
    | PeerGone                     // err_cb
    | ClientSend
    | ClientAwaitFin               // AM: registers its handler only now
    | FinArrives
    | ClientReturns
    | ClientFails

  predicate IsLocal(a: Act) {
    match a
    case Admit => false
    case AmCallback(_) => false
    case ErrCallback => false
    case _ => true
  }

  function WithServer(w: World, s: Option<Server>): Option<World> {
    if s.Some? then Some(w.(server := s.value)) else None
  }

  /** request_wait of the client for its last active message can have ended: at once for
      an eager one; for a rendezvous one only after the callback saw it and the server's
      wait took it out of the slot, or the callback refused it for its size. */
  predicate LastSendDone(c: Config, w: World)
    requires w.sent <= |w.msgs|
  {
    c.mode.Am? && w.sent > 0 && w.msgs[w.sent - 1].protocol.Rndv? ==>
      w.chan == [] && (!w.server.slot.complete || |w.msgs[w.sent - 1].data| != c.MessageSize())
  }

  function Next(c: Config, w: World, e: Event): Option<World> {
    match e
    case Connect(msgs) =>
      if |msgs| == c.iterations && Step(c, w.server, Admit).Some? then
        Some(World(Step(c, w.server, Admit).value, msgs, 0, [], Sending, false, Unsent, w.server.consumed))
      else None
    case Local(a) =>
      if !IsLocal(a) || (a.RecvDone? && !c.mode.Am?) then None
      else
        var posts := a.Start? && w.server.i == c.iterations;
        WithServer(if posts then w.(fin := InFlight) else w, Step(c, w.server, a))
    case Deliver =>
      if c.mode.Am? && w.chan != [] then
        WithServer(w.(chan := w.chan[1..]), Step(c, w.server, AmCallback(w.chan[0])))
      else None
    case Receive =>
      if !c.mode.Am? && w.chan != [] then
        WithServer(w.(chan := w.chan[1..]), Step(c, w.server, RecvDone(w.chan[0].data)))
      else None
    case PeerGone =>
      if w.phase.Closed? then WithServer(w, Step(c, w.server, ErrCallback)) else None
    case ClientSend =>
      if w.phase.Sending? && w.sent < |w.msgs| && LastSendDone(c, w) then
        Some(w.(sent := w.sent + 1, chan := w.chan + [w.msgs[w.sent]]))
      else None
    case ClientAwaitFin =>
      if w.phase.Sending? && w.sent == |w.msgs| && LastSendDone(c, w) then Some(w.(phase := AwaitFin)) else None
    case FinArrives =>
      if !w.fin.InFlight? then None
      else if w.phase.AwaitFin? then Some(w.(fin := Delivered, phase := Finished))
      else if c.mode.Am? && w.phase.Sending? && w.sent > 0 then Some(w.(fin := Dropped))
      else None
    case ClientReturns =>
      if w.phase.Finished? then Some(w.(phase := Closed, ok := true)) else None
    case ClientFails =>
      if !w.phase.Closed? then Some(w.(phase := Closed)) else None
  }

  /** The step of the server in an event of the session, if it takes one. */
  function ServerAct(w: World, e: Event): Option<Act> {
    match e
    case Connect(_) => Some(Admit)
    case Local(a) => Some(a)
    case Deliver => if w.chan != [] then Some(AmCallback(w.chan[0])) else None
    case Receive => if w.chan != [] then Some(RecvDone(w.chan[0].data)) else None
    case PeerGone => Some(ErrCallback)
    case _ => None
  }

  lemma ServerStep(c: Config, w: World, e: Event)
    requires Next(c, w, e).Some?
    ensures
      var t, a := Next(c, w, e).value, ServerAct(w, e);
      if a.None? then t.server == w.server else Step(c, w.server, a.value) == Some(t.server)
  {
    hide Step;
  }

  function Moves(c: Config): (World, Event) -> Option<World> {
    (w, e) => Next(c, w, e)
  }

  /** The state after a run from the start. */
  function Exec(c: Config, events: seq<Event>): Option<World> {
    Run(Moves(c), Start0, events)
  }

  // ---------------------------------------------------------------- invariant

  /** The server has received all messages of this session and gone on to the FIN. */
  predicate ReachedFin(c: Config, s: Server) {
    (s.pc.Iterate? && s.i == c.iterations) || InLoop(s, FinWait) || InLoop(s, CloseWait) || InLoop(s, EpClosing)
  }

  function DeliveredCount(w: World): int { w.sent - |w.chan| }

  /** Messages consumed from the slot before the current point of iteration i. */
  function Taken(c: Config, s: Server): nat {
    if c.mode.Am? && InLoop(s, RecvWait) then s.i + 1 else s.i
  }

  predicate Active(s: Server) { s.pc.Iterate? || (s.pc.Spin? && !s.pc.loop.ErrClosing?) }

  /** What is under way are the last messages sent, in order. */
  predicate InOrder(msgs: seq<Message>, sent: nat, chan: seq<Message>)
    requires |chan| <= sent <= |msgs|
  {
    chan == msgs[sent - |chan|..sent]
  }

  ghost predicate ChannelInv(c: Config, w: World) {
    && w.sent <= |w.msgs| <= c.iterations
    && |w.chan| <= w.sent
    && InOrder(w.msgs, w.sent, w.chan)
    && (w.ok ==> w.phase.Closed? && w.fin.Delivered?)
    && (w.phase.Finished? ==> w.fin.Delivered?)
    && (w.fin.Delivered? ==> w.phase.Finished? || w.phase.Closed?)
    && (w.phase.AwaitFin? || w.fin.Delivered? ==> w.sent == |w.msgs|)
    && (w.fin.Dropped? ==> w.sent > 0)
  }

  ghost predicate CountInv(c: Config, w: World) {
    var s := w.server;
    && (s.pc.Accept? ==> !s.slot.complete && s.lost == 0 && s.stray == 0 && w.phase.Closed?)
    && (Active(s) ==>
          && |w.msgs| == c.iterations
          && s.stray == 0
          && (s.closed ==> w.phase.Closed?)
          && (w.fin.Unsent? <==> s.pc.Iterate? || Receiving(s))
          && (c.mode.Am? ==> s.consumed - w.base == Taken(c, s))
          && (!c.mode.Am? ==>
                DeliveredCount(w) == if InLoop(s, RecvWait) && s.request.Succeeded? then s.i + 1 else s.i))
    && (c.mode.Am? ==> w.base <= s.consumed && s.accepted - w.base <= DeliveredCount(w))
    && (s.lost > 0 ==> s.accepted - w.base >= 2)
    && (!c.mode.Am? ==> s.consumed == 0 && s.stray == 0 && w.base == 0)
    && (c.iterations == 0 || c.iovCnt == 0 ==> s.stray == 0)
    && (!w.fin.Unsent? ==> |w.msgs| == c.iterations && |s.got| == c.iterations && (c.mode.Am? ==> s.consumed - w.base == c.iterations))
  }

  ghost predicate WorldInv(c: Config, w: World) {
    Inv(c, w.server) && ChannelInv(c, w) && CountInv(c, w)
  }

  /** At the FIN the counts leave no room: nothing lost, nothing left, slot clear. */
  lemma CountedOut(c: Config, w: World)
    requires WorldInv(c, w) && ReachedFin(c, w.server)
    ensures DeliveredCount(w) == c.iterations && w.sent == c.iterations && w.chan == []
    ensures !w.server.slot.complete && w.server.lost == 0
  {
    hide InOrder;
  }

  /** What the count needs to know of the server. */
  lemma ServerFacts(c: Config, s: Server)
    requires Inv(c, s)
    ensures s.accepted == s.consumed + (if s.slot.complete then 1 else 0) + s.lost
    ensures s.pc.Iterate? ==> s.i <= c.iterations
    ensures Receiving(s) ==> s.i < c.iterations && s.iov in s.heap
    ensures InLoop(s, FinWait) || InLoop(s, CloseWait) || InLoop(s, EpClosing) ==> s.i == c.iterations
    ensures InLoop(s, EpClosing) ==> s.closed
    ensures Active(s) ==> |s.got| == s.i
    ensures InLoop(s, AmWait) ==> c.mode.Am?
    ensures !c.mode.Am? ==> s.accepted == 0
    ensures c.mode.Am? && Receiving(s) ==> s.slot.recvBuf == Some(s.iov)
  {
  }

  lemma NothingInOrder(msgs: seq<Message>)
    ensures InOrder(msgs, 0, [])
  {
  }

  lemma PopKeepsOrder(msgs: seq<Message>, sent: nat, chan: seq<Message>)
    requires 0 < |chan| <= sent <= |msgs| && InOrder(msgs, sent, chan)
    ensures InOrder(msgs, sent, chan[1..]) && chan[0] == msgs[sent - |chan|]
  {
  }

  lemma PushKeepsOrder(msgs: seq<Message>, sent: nat, chan: seq<Message>)
    requires |chan| <= sent < |msgs| && InOrder(msgs, sent, chan)
    ensures InOrder(msgs, sent + 1, chan + [msgs[sent]])
  {
  }

  lemma ReceiveExitKeepsInv(c: Config, w: World)
    requires WorldInv(c, w) && Next(c, w, Local(Exit)).Some? && Receiving(w.server)
    ensures WorldInv(c, Next(c, w, Local(Exit)).value)
  {
    hide Inv, InOrder, Scatter, Concat;
    ServerFacts(c, w.server);
    StepKeepsInv(c, w.server, Exit);
  }

  lemma CloseExitKeepsInv(c: Config, w: World)
    requires WorldInv(c, w) && Next(c, w, Local(Exit)).Some? && !Receiving(w.server)
    ensures WorldInv(c, Next(c, w, Local(Exit)).value)
  {
    hide Inv, InOrder, Scatter, Concat;
    if ReachedFin(c, w.server) { CountedOut(c, w); }
    ServerFacts(c, w.server);
    StepKeepsInv(c, w.server, Exit);
  }

  /** Beginning an iteration allocates buffers and moves on; no count changes. */
  lemma BeginStep(c: Config, s: Server, junk: seq<seq<Byte>>)
    requires Step(c, s, Start(junk)).Some?
    ensures
      var t := Step(c, s, Start(junk)).value;
      && s.pc.Iterate? && t.i == s.i && t.slot.complete == s.slot.complete && t.closed == s.closed && t.got == s.got
      && t.accepted == s.accepted && t.consumed == s.consumed && t.lost == s.lost && t.stray == s.stray
      && t.request.Pending?
      && t.pc == Spin(if s.i == c.iterations then FinWait else if c.mode.Am? then AmWait else RecvWait, false)
  {
  }

  lemma BeginKeepsInv(c: Config, w: World, junk: seq<seq<Byte>>)
    requires WorldInv(c, w) && Next(c, w, Local(Start(junk))).Some?
    ensures WorldInv(c, Next(c, w, Local(Start(junk))).value)
  {
    hide Inv, InOrder, Step;
    ServerFacts(c, w.server);
    StepKeepsInv(c, w.server, Start(junk));
    BeginStep(c, w.server, junk);
  }

  /** The other steps of the server change neither its place in the session nor a count. */
  lemma QuietStep(c: Config, s: Server, a: Act)
    requires IsLocal(a) && !a.Exit? && !a.Start? && Step(c, s, a).Some?
    ensures
      var t := Step(c, s, a).value;
      && t.i == s.i && t.slot == s.slot && t.closed == s.closed && t.got == s.got
      && t.accepted == s.accepted && t.consumed == s.consumed && t.lost == s.lost && t.stray == s.stray
      && (t.pc.Exited? || InLoop(t, ErrClosing) || (s.pc.Spin? && t.pc.Spin? && t.pc.loop == s.pc.loop))
      && (t.request.Succeeded? && s.request.Pending? ==> InLoop(s, FinWait) || a.RecvDone?)
      && (t.request == s.request || InLoop(s, RecvWait) || InLoop(s, FinWait))
      && (s.request.Succeeded? && !t.pc.Exited? && !InLoop(t, ErrClosing) ==> t.request.Succeeded?)
  {
  }

  lemma LocalKeepsInv(c: Config, w: World, a: Act)
    requires WorldInv(c, w) && Next(c, w, Local(a)).Some? && !a.Exit? && !a.Start?
    ensures WorldInv(c, Next(c, w, Local(a)).value)
  {
    hide Inv, InOrder;
    ServerFacts(c, w.server);
    StepKeepsInv(c, w.server, a);
    QuietStep(c, w.server, a);
    hide Step;
  }

  /** A callback touches the slot, the buffers and the counters only. */
  lemma CallbackStep(c: Config, s: Server, m: Message)
    requires Inv(c, s) && Step(c, s, AmCallback(m)).Some?
    ensures
      var t := Step(c, s, AmCallback(m)).value;
      && t == s.(slot := t.slot, heap := t.heap, accepted := t.accepted, lost := t.lost, stray := t.stray)
      && s.accepted <= t.accepted <= s.accepted + 1
      && (Receiving(s) ==> t.stray == s.stray)
      && s.pc.Spin?
  {
  }

  lemma DeliverKeepsInv(c: Config, w: World)
    requires WorldInv(c, w) && Next(c, w, Deliver).Some?
    ensures WorldInv(c, Next(c, w, Deliver).value)
  {
    PopKeepsOrder(w.msgs, w.sent, w.chan);
    hide Inv, InOrder, Step;
    if ReachedFin(c, w.server) { CountedOut(c, w); }
    ServerFacts(c, w.server);
    StepKeepsInv(c, w.server, AmCallback(w.chan[0]));
    CallbackStep(c, w.server, w.chan[0]);
    ServerFacts(c, Step(c, w.server, AmCallback(w.chan[0])).value);
  }

  lemma ReceiveKeepsInv(c: Config, w: World)
    requires WorldInv(c, w) && Next(c, w, Receive).Some?
    ensures WorldInv(c, Next(c, w, Receive).value)
  {
    PopKeepsOrder(w.msgs, w.sent, w.chan);
    hide Inv, InOrder, Scatter, Concat;
    ServerFacts(c, w.server);
    StepKeepsInv(c, w.server, RecvDone(w.chan[0].data));
  }

  lemma ConnectKeepsInv(c: Config, w: World, msgs: seq<Message>)
    requires WorldInv(c, w) && Next(c, w, Connect(msgs)).Some?
    ensures WorldInv(c, Next(c, w, Connect(msgs)).value)
  {
    NothingInOrder(msgs);
    hide Inv, InOrder, Scatter, Concat;
    ServerFacts(c, w.server);
    StepKeepsInv(c, w.server, Admit);
  }

  lemma PeerGoneKeepsInv(c: Config, w: World)
    requires WorldInv(c, w) && Next(c, w, PeerGone).Some?
    ensures WorldInv(c, Next(c, w, PeerGone).value)
  {
    hide Inv, InOrder, Scatter, Concat;
    StepKeepsInv(c, w.server, ErrCallback);
  }

  lemma SendKeepsInv(c: Config, w: World)
    requires WorldInv(c, w) && Next(c, w, ClientSend).Some?
    ensures WorldInv(c, Next(c, w, ClientSend).value)
  {
    PushKeepsOrder(w.msgs, w.sent, w.chan);
    hide Inv, InOrder, Step;
  }

  lemma ClientKeepsInv(c: Config, w: World, e: Event)
    requires e.ClientAwaitFin? || e.FinArrives? || e.ClientReturns? || e.ClientFails?
    requires WorldInv(c, w) && Next(c, w, e).Some?
    ensures WorldInv(c, Next(c, w, e).value)
  {
    hide Inv, InOrder, Step;
  }

  lemma NextKeepsInv(c: Config, w: World, e: Event)
    requires WorldInv(c, w) && Next(c, w, e).Some?
    ensures WorldInv(c, Next(c, w, e).value)
  {
    hide Next, WorldInv;
    match e {
      case Connect(msgs) => ConnectKeepsInv(c, w, msgs);
      case Local(a) =>
        match a {
          case Start(junk) => BeginKeepsInv(c, w, junk);
          case Exit => if Receiving(w.server) { ReceiveExitKeepsInv(c, w); } else { CloseExitKeepsInv(c, w); }
          case _ => LocalKeepsInv(c, w, a);
        }
      case Deliver => DeliverKeepsInv(c, w);
      case Receive => ReceiveKeepsInv(c, w);
      case PeerGone => PeerGoneKeepsInv(c, w);
      case ClientSend => SendKeepsInv(c, w);
      case _ => ClientKeepsInv(c, w, e);
    }
  }

  lemma StartInv(c: Config)
    ensures WorldInv(c, Start0)
  {
    NothingInOrder([]);
    hide InOrder;
  }

  lemma ExecKeepsInv(c: Config, events: seq<Event>)
    requires Exec(c, events).Some?
    ensures WorldInv(c, Exec(c, events).value)
  {
    StartInv(c);
    hide Run, Next, WorldInv;
    var inv := (w: World) => WorldInv(c, w);
    forall w: World, e: Event | inv(w) && Moves(c)(w, e).Some? ensures inv(Moves(c)(w, e).value) {
      NextKeepsInv(c, w, e);
    }
    Invariance(Moves(c), Start0, inv, events);
  }

  // ------------------------------------------------------------- main results

  /** Across all sessions so far: a server that has gone on to the FIN, or waits for
      the next client, has lost no message, and its slot is clear. */
  lemma NothingLost(c: Config, events: seq<Event>)
    requires Exec(c, events).Some?
    ensures
      var s := Exec(c, events).value.server;
      ReachedFin(c, s) || s.pc.Accept? ==> s.lost == 0 && !s.slot.complete && s.accepted == s.consumed
  {
    hide InOrder;
    ExecKeepsInv(c, events);
    var w := Exec(c, events).value;
    if ReachedFin(c, w.server) { CountedOut(c, w); }
  }

  /** In any number of sessions no eager message is copied through a freed iov, not
      while the FIN is sent, not in the wait for the close and not in ep_close: it
      takes an abort, and then any eager message of the right size does it. */
  lemma StrayOnlyAfterAbort(c: Config, events: seq<Event>)
    requires Exec(c, events).Some?
    ensures
      var w := Exec(c, events).value;
      && (w.server.stray > 0 ==> InLoop(w.server, ErrClosing) || w.server.pc.Exited?)
      && (Next(c, w, Deliver).Some? ==>
            (Next(c, w, Deliver).value.server.stray > w.server.stray <==>
             InLoop(w.server, ErrClosing) && w.chan[0].protocol.Eager? && |w.chan[0].data| == c.MessageSize() && c.iovCnt > 0))
  {
    hide InOrder;
    ExecKeepsInv(c, events);
    var w := Exec(c, events).value;
    if ReachedFin(c, w.server) { CountedOut(c, w); }
  }

  /** A client whose client_server_do_work returned 0 has had all its messages received. */
  lemma FinAcknowledges(c: Config, events: seq<Event>)
    requires Exec(c, events).Some? && Exec(c, events).value.ok
    ensures
      var w := Exec(c, events).value;
      w.sent == c.iterations && |w.server.got| == c.iterations
      && (c.mode.Am? ==> w.server.consumed - w.base == c.iterations)
  {
    hide InOrder;
    ExecKeepsInv(c, events);
  }

  /** The server closes its endpoint, and admits the next client, only once the
      client is gone. */
  lemma ClosesAfterClient(c: Config, events: seq<Event>)
    requires Exec(c, events).Some?
    ensures
      var w := Exec(c, events).value;
      InLoop(w.server, EpClosing) || w.server.pc.Accept? ==> w.phase.Closed?
  {
    hide InOrder;
    ExecKeepsInv(c, events);
  }

  /** A lost message is never made up for: the server will not get to the FIN, nor ever
      wait for another client. */
  lemma LossIsFatal(c: Config, events: seq<Event>, more: seq<Event>)
    requires Exec(c, events).Some? && Exec(c, events).value.server.lost > 0 && Exec(c, events + more).Some?
    ensures
      var s := Exec(c, events + more).value.server;
      s.lost > 0 && !ReachedFin(c, s) && !s.pc.Accept?
  {
    NothingLost(c, events + more);
    hide Run, Next, ReachedFin;
    var inv := (w: World) => w.server.lost > 0;
    forall w: World, e: Event | inv(w) && Moves(c)(w, e).Some? ensures inv(Moves(c)(w, e).value) {
      LostStays(c, w, e);
    }
    Persistence(Moves(c), Start0, inv, _ => true, events, more);
  }

  lemma LostStays(c: Config, w: World, e: Event)
    requires Next(c, w, e).Some?
    ensures Next(c, w, e).value.server.lost >= w.server.lost
  {
  }

  /** A FIN that was dropped stays dropped: however the session goes on, the client's
      client_server_do_work never returns 0. */
  lemma DroppedFinIsFinal(c: Config, events: seq<Event>, more: seq<Event>)
    requires Exec(c, events).Some? && Exec(c, events).value.fin.Dropped?
    requires Exec(c, events + more).Some? && forall k | 0 <= k < |more| :: !more[k].Connect?
    ensures Exec(c, events + more).value.fin.Dropped? && !Exec(c, events + more).value.ok
  {
    hide InOrder;
    ExecKeepsInv(c, events);
    ExecKeepsInv(c, events + more);
    hide Run, Next, Inv;
    var inv := (w: World) => WorldInv(c, w) && w.fin.Dropped?;
    forall w: World, e: Event | inv(w) && !e.Connect? && Moves(c)(w, e).Some? ensures inv(Moves(c)(w, e).value) {
      NextKeepsInv(c, w, e);
      DropStays(c, w, e);
    }
    Persistence(Moves(c), Start0, inv, (e: Event) => !e.Connect?, events, more);
  }

  lemma DropStays(c: Config, w: World, e: Event)
    requires WorldInv(c, w) && w.fin.Dropped? && Next(c, w, e).Some? && !e.Connect?
    ensures Next(c, w, e).value.fin.Dropped?
  {
    hide Inv, InOrder;
  }
}
