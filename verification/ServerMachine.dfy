/** The server of 03_ucp_am_stream_tag_client_server as a machine that takes one
    step at a time: run_server, client_server_do_work and the send_recv functions,
    with every callback that UCX may run inside ucp_worker_progress as a step of
    the environment.  Nothing is assumed here about when callbacks arrive, how
    many there are or what they carry. */
module ServerMachine {
  import opened Bytes
  import opened Machine

  datatype Mode = Stream | Tag | Am
  datatype Protocol = Eager | Rndv
  datatype Message = Message(protocol: Protocol, data: seq<Byte>)

  /** -c, -i, -v and -s of the command line. */
  datatype Config = Config(mode: Mode, iterations: nat, iovCnt: nat, length: nat) {
    function MessageSize(): nat { iovCnt * length }
  }

  /** The loops that call ucp_worker_progress on the data worker. */
  datatype Loop = AmWait | RecvWait | FinWait | CloseWait | EpClosing | ErrClosing

  /** Where the server is: in the accept loop, at the top of an iteration (the
      FIN exchange is iteration `iterations`), at the condition of a loop
      (inside == false) or inside ucp_worker_progress (inside == true). */
  datatype Pc = Accept | Iterate | Spin(loop: Loop, inside: bool) | Exited

  datatype Request = Pending | Succeeded | Failed

  /** The global am_data_desc. */
  datatype Slot = Slot(complete: bool, isRndv: bool, desc: seq<Byte>, recvBuf: Option<nat>)

  /** heap holds the live iov lists, by the identity of the allocation.  `got`
      lists the payload of every receive that completed in this session.  The
      four counters run over the whole life of the server: callbacks that set
      `complete`, waits that cleared it, callbacks that found it set already,
      and eager copies through a recv_buf whose iov is not live. */
  datatype Server = Server(
    pc: Pc, i: nat, slot: Slot,
    heap: map<nat, seq<seq<Byte>>>, next: nat, iov: nat,
    request: Request, posted: seq<Byte>, closed: bool,
    got: seq<seq<Byte>>,
    accepted: nat, consumed: nat, lost: nat, stray: nat)

  const Init := Server(Accept, 0, Slot(false, false, [], None), map[], 0, 0,
                       Pending, [], true, [], 0, 0, 0, 0)

  datatype Act =
    | Admit
    | EpFailed
    | Start(junk: seq<seq<Byte>>)  // buffers allocated with some content, operation posted
    | StartFailed                   // buffer_malloc or fill_buffer failed
    | Enter                         // loop condition holds: call ucp_worker_progress
    | Leave                         // ucp_worker_progress returns
    | Exit                          // loop condition fails: go on after the loop
    | AmCallback(m: Message)
    | RecvDone(data: seq<Byte>)
    | SendDone
    | RequestFailed
    | ErrCallback

  /** ucp_am_data_cb. */
  function Callback(c: Config, s: Server, m: Message): Server {
    if |m.data| != c.MessageSize() then s
    else
      var live := s.slot.recvBuf.Some? && s.slot.recvBuf.value in s.heap;
      s.(accepted := s.accepted + 1,
         lost := if s.slot.complete then s.lost + 1 else s.lost,
         slot := if m.protocol.Rndv? then s.slot.(complete := true, isRndv := true, desc := m.data)
                 else s.slot.(complete := true, isRndv := false),
         heap := if m.protocol.Eager? && live then s.heap[s.slot.recvBuf.value := Scatter(m.data, c.iovCnt, c.length)]
                 else s.heap,
         stray := if m.protocol.Eager? && !live && c.iovCnt > 0 then s.stray + 1 else s.stray)
  }

  /** The condition under which a wait loop calls progress once more. */
  predicate Waiting(s: Server, loop: Loop) {
    match loop
    case AmWait => !s.slot.complete
    case RecvWait | FinWait => s.request.Pending?
    case CloseWait => !s.closed
    case EpClosing | ErrClosing => true
  }

  /** The loops of ep_close end when UCX says so, the others when their condition fails. */
  predicate CanExit(s: Server, loop: Loop) {
    loop.EpClosing? || loop.ErrClosing? || !Waiting(s, loop)
  }

  /** request_finalize after a successful receive: the buffers are read, then freed. */
  function Finalize(s: Server): Server
    requires s.iov in s.heap
  {
    s.(pc := Iterate, i := s.i + 1, got := s.got + [Concat(s.heap[s.iov])], heap := s.heap - {s.iov})
  }

  /** request_finalize after a failure, then the goto to err_ep. */
  function Abort(s: Server): Server {
    s.(pc := Spin(ErrClosing, false), heap := s.heap - {s.iov})
  }

  /** What follows a loop once it ends. */
  function AfterLoop(s: Server, loop: Loop): Option<Server> {
    match loop
    case AmWait =>
      var t := s.(slot := s.slot.(complete := false), consumed := s.consumed + 1);
      if s.slot.isRndv then Some(t.(posted := s.slot.desc, request := Pending, pc := Spin(RecvWait, false)))
      else if s.iov in s.heap then Some(Finalize(t)) else None
    case RecvWait =>
      if s.request.Failed? then Some(Abort(s))
      else if s.iov in s.heap then Some(Finalize(s)) else None
    case FinWait =>
      if s.request.Failed? then Some(Abort(s))
      else Some(s.(pc := Spin(CloseWait, false), heap := s.heap - {s.iov}))
    case CloseWait => Some(s.(pc := Spin(EpClosing, false)))
    case EpClosing => Some(s.(pc := Accept))
    case ErrClosing => Some(s.(pc := Exited))
  }

  predicate InLoop(s: Server, loop: Loop) { s.pc.Spin? && s.pc.loop == loop }

  predicate Inside(s: Server) { s.pc.Spin? && s.pc.inside }

  /** One step of the server or of UCX; None when it is not possible. */
  function Step(c: Config, s: Server, a: Act): Option<Server> {
    match a
    case Admit =>
      if s.pc.Accept? then Some(s.(pc := Iterate, i := 0, closed := false, got := [])) else None
    case EpFailed =>
      if s.pc.Accept? then Some(s.(pc := Exited)) else None
    case Start(junk) =>
      if s.pc.Iterate? && s.i <= c.iterations && Shaped(junk, c.iovCnt, c.length) then
        var t := s.(heap := s.heap[s.next := junk], iov := s.next, next := s.next + 1, request := Pending);
        if s.i == c.iterations then Some(t.(pc := Spin(FinWait, false)))
        else if c.mode.Am? then
          Some(t.(pc := Spin(AmWait, false), slot := s.slot.(recvBuf := Some(s.next))))
        else Some(t.(pc := Spin(RecvWait, false)))
      else None
    case StartFailed =>
      if s.pc.Iterate? && s.i <= c.iterations then Some(s.(pc := Spin(ErrClosing, false))) else None
    case Enter =>
      if s.pc.Spin? && !s.pc.inside && Waiting(s, s.pc.loop) then Some(s.(pc := Spin(s.pc.loop, true))) else None
    case Leave =>
      if s.pc.Spin? && s.pc.inside then Some(s.(pc := Spin(s.pc.loop, false))) else None
    case Exit =>
      if s.pc.Spin? && !s.pc.inside && CanExit(s, s.pc.loop) then AfterLoop(s, s.pc.loop) else None
    case AmCallback(m) =>
      if c.mode.Am? && Inside(s) then Some(Callback(c, s, m)) else None
    case RecvDone(data) =>
      // a rendezvous receive never completes before the first progress call (NO_IMM_CMPL)
      if InLoop(s, RecvWait) && s.request.Pending? && |data| == c.MessageSize()
        && (c.mode.Am? ==> s.pc.inside && data == s.posted) && s.iov in s.heap then
        Some(s.(request := Succeeded, heap := s.heap[s.iov := Scatter(data, c.iovCnt, c.length)]))
      else None
    case SendDone =>
      if InLoop(s, FinWait) && s.request.Pending? then Some(s.(request := Succeeded)) else None
    case RequestFailed =>
      if (InLoop(s, RecvWait) || InLoop(s, FinWait)) && s.request.Pending? then Some(s.(request := Failed)) else None
    case ErrCallback =>
      if Inside(s) then Some(s.(closed := true)) else None
  }

  function Steps(c: Config): (Server, Act) -> Option<Server> {
    (s, a) => Step(c, s, a)
  }

  /** The state after a run of the server. */
  function Serve(c: Config, acts: seq<Act>): Option<Server> {
    Run(Steps(c), Init, acts)
  }

  /** The server holds buffers exactly while a message is being received or the FIN is being sent. */
  predicate Holding(s: Server) {
    s.pc.Spin? && (s.pc.loop.AmWait? || s.pc.loop.RecvWait? || s.pc.loop.FinWait?)
  }

  predicate Receiving(s: Server) {
    s.pc.Spin? && (s.pc.loop.AmWait? || s.pc.loop.RecvWait?)
  }

  ghost predicate Inv(c: Config, s: Server) {
    && s.accepted == s.consumed + (if s.slot.complete then 1 else 0) + s.lost
    && s.heap.Keys == (if Holding(s) then {s.iov} else {})
    && (forall b | b in s.heap :: Shaped(s.heap[b], c.iovCnt, c.length))
    && (Holding(s) ==> s.iov < s.next)
    && (s.slot.recvBuf.Some? ==> s.slot.recvBuf.value < s.next)
    && (Receiving(s) && c.mode.Am? ==> s.slot.recvBuf == Some(s.iov))
    && (InLoop(s, FinWait) && s.slot.recvBuf.Some? ==> s.slot.recvBuf.value < s.iov)
    && (InLoop(s, AmWait) ==> c.mode.Am?)
    && (!c.mode.Am? ==> s.accepted == 0)
    && (s.pc.Iterate? ==> s.i <= c.iterations)
    && (Receiving(s) ==> s.i < c.iterations)
    && (s.pc.Spin? && !Receiving(s) && !InLoop(s, ErrClosing) ==> s.i == c.iterations)
    && (InLoop(s, EpClosing) ==> s.closed)
    && (!s.pc.Accept? && !s.pc.Exited? && !InLoop(s, ErrClosing) ==> |s.got| == s.i)
    && (s.slot.complete && s.slot.isRndv ==> |s.slot.desc| == c.MessageSize())
    && (c.mode.Am? && InLoop(s, RecvWait) ==> |s.posted| == c.MessageSize())
  }

  lemma CallbackKeepsInv(c: Config, s: Server, m: Message)
    requires Inv(c, s) && Inside(s) && c.mode.Am?
    ensures Inv(c, Callback(c, s, m))
  {
    if |m.data| == c.MessageSize() && m.protocol.Eager? {
      var parts := Scatter(m.data, c.iovCnt, c.length);
      assert Shaped(parts, c.iovCnt, c.length);
    }
  }

  lemma StartKeepsInv(c: Config, s: Server, junk: seq<seq<Byte>>)
    requires Inv(c, s) && Step(c, s, Start(junk)).Some?
    ensures Inv(c, Step(c, s, Start(junk)).value)
  {
    var t := Step(c, s, Start(junk)).value;
    assert t.heap.Keys == {t.iov};
  }

  lemma ExitKeepsInv(c: Config, s: Server)
    requires Inv(c, s) && Step(c, s, Exit).Some?
    ensures Inv(c, Step(c, s, Exit).value)
  {
    hide Callback, Scatter, Concat;
    var t := Step(c, s, Exit).value;
    assert t.heap.Keys == if Holding(t) then {t.iov} else {};
  }

  lemma DataKeepsInv(c: Config, s: Server, data: seq<Byte>)
    requires Inv(c, s) && Step(c, s, RecvDone(data)).Some?
    ensures Inv(c, Step(c, s, RecvDone(data)).value)
  {
    assert Shaped(Scatter(data, c.iovCnt, c.length), c.iovCnt, c.length);
  }

  lemma StepKeepsInv(c: Config, s: Server, a: Act)
    requires Inv(c, s) && Step(c, s, a).Some?
    ensures Inv(c, Step(c, s, a).value)
  {
    hide Callback, AfterLoop;
    match a {
      case AmCallback(m) => CallbackKeepsInv(c, s, m);
      case Start(junk) => StartKeepsInv(c, s, junk);
      case Exit => ExitKeepsInv(c, s);
      case RecvDone(data) => DataKeepsInv(c, s, data);
      case _ =>
    }
  }

  lemma ServeKeepsInv(c: Config, acts: seq<Act>)
    requires Serve(c, acts).Some?
    ensures Inv(c, Serve(c, acts).value)
  {
    var inv := (s: Server) => Inv(c, s);
    forall s: Server, a: Act | inv(s) && Steps(c)(s, a).Some? ensures inv(Steps(c)(s, a).value) {
      StepKeepsInv(c, s, a);
    }
    Invariance(Steps(c), Init, inv, acts);
  }

  /** Slot conservation, whatever UCX does: every callback that set `complete`
      was consumed by one wait, is the one still in the slot, or overwrote another. */
  lemma SlotConservation(c: Config, acts: seq<Act>)
    requires Serve(c, acts).Some?
    ensures
      var s := Serve(c, acts).value;
      s.accepted == s.consumed + (if s.slot.complete then 1 else 0) + s.lost
  {
    ServeKeepsInv(c, acts);
  }

  /** No iov list outlives its call: between calls, during the close and after
      an abort the heap is empty; during a call exactly its own list is live. */
  lemma BuffersFreedEachCall(c: Config, acts: seq<Act>)
    requires Serve(c, acts).Some?
    ensures
      var s := Serve(c, acts).value;
      s.heap.Keys == (if Holding(s) then {s.iov} else {})
  {
    ServeKeepsInv(c, acts);
  }

  /** Exactly when a callback copies through memory that is not live: an eager
      message of the right size that arrives while no receive is under way (the copy
      loop runs over the buffers, of which the command line demands at least one). */
  lemma StrayCopyExactly(c: Config, acts: seq<Act>, m: Message)
    requires Serve(c, acts).Some? && Step(c, Serve(c, acts).value, AmCallback(m)).Some?
    ensures
      var s := Serve(c, acts).value;
      var t := Step(c, s, AmCallback(m)).value;
      t.stray > s.stray <==> m.protocol.Eager? && |m.data| == c.MessageSize() && c.iovCnt > 0 && !Receiving(s)
  {
    ServeKeepsInv(c, acts);
  }
}
