/** The server's active-message path as it is written: the global am_data_desc and
    connection_closed, the callback that scatters a message into the current iov
    list, and the loops that call ucp_worker_progress.  Every execution, for every
    batch of callbacks that each progress call may run, is a run of ServerMachine. */
module AmReceiver {
  import opened Bytes
  import opened Machine
  import opened ServerMachine
  import opened Session
  import opened Integrity
  import opened Served

  /** What one ucp_worker_progress call reports, in order. */
  datatype Notice = Arrives(m: Message) | Completes(ok: bool) | PeerCloses

  /** The operation UCX has been given and not yet been asked to free. */
  datatype Operation = Idle | Fetching | Sending

  /** What a call that posts an operation returns: NULL when it is complete at once, an
      error pointer, or a request to wait for. */
  datatype Posted = Null | ErrorPtr | Queued

  /** What the environment answers to one call of the server: whether it succeeds, whether an
      operation is complete at once, how many times ep_close has to progress. */
  datatype Reply = Reply(ok: bool, atOnce: bool, rounds: nat)

  /** The next answer; when the list runs out, everything goes well. */
  function NextReply(replies: seq<Reply>): Reply {
    if replies == [] then Reply(true, false, 0) else replies[0]
  }

  function LaterReplies(replies: seq<Reply>): seq<Reply> {
    if replies == [] then [] else replies[1..]
  }

  /** A rendezvous receive is posted with NO_IMM_CMPL: only a send can be complete at once. */
  function Answered(reply: Reply, sending: bool): Posted {
    if !reply.ok then ErrorPtr else if reply.atOnce && sending then Null else Queued
  }

  /** What the loops look at: `complete` and `is_rndv` of the slot, `connection_closed`, and
      the request, if there is one (`busy`). */
  datatype Flags = Flags(complete: bool, isRndv: bool, closed: bool, request: Request, busy: bool)

  /** What a report does to them: a message of the right size takes the slot, the first
      completion settles the request. */
  function AfterNotice(c: Config, f: Flags, n: Notice): Flags {
    match n
    case Arrives(m) =>
      if |m.data| == c.iovCnt * c.length then f.(complete := true, isRndv := m.protocol.Rndv?) else f
    case PeerCloses => f.(closed := true)
    case Completes(ok) =>
      if f.busy && f.request.Pending? then f.(request := if ok then Succeeded else Failed) else f
  }

  function AfterBatch(c: Config, f: Flags, batch: seq<Notice>): Flags {
    if batch == [] then f
    else AfterNotice(c, AfterBatch(c, f, batch[..|batch| - 1]), batch[|batch| - 1])
  }

  /** A loop calls progress until its condition holds or the schedule is at its end. */
  function Until(c: Config, done: Flags -> bool, f: Flags, schedule: seq<seq<Notice>>): (Flags, seq<seq<Notice>>)
    decreases |schedule|
  {
    if done(f) || schedule == [] then (f, schedule)
    else Until(c, done, AfterBatch(c, f, schedule[0]), schedule[1..])
  }

  function HasMessage(): Flags -> bool { (f: Flags) => f.complete }
  function IsSettled(): Flags -> bool { (f: Flags) => !f.request.Pending? }
  function IsClosed(): Flags -> bool { (f: Flags) => f.closed }

  /** request_wait for what the post returned. */
  function Waited(c: Config, p: Posted, f: Flags, schedule: seq<seq<Notice>>): (Flags, seq<seq<Notice>>) {
    if p.Queued? then Until(c, IsSettled(), f, schedule) else (f, schedule)
  }

  function WaitOutcome(f: Flags): Outcome {
    match f.request
    case Pending => Hung
    case Succeeded => Returned(0)
    case Failed => Returned(-1)
  }

  /** The flags just after an operation was posted. */
  function PostedFlags(f: Flags, p: Posted): Flags {
    f.(busy := true, request := if p.Null? then Succeeded else if p.ErrorPtr? then Failed else Pending)
  }

  /** One iteration once its buffers are there: the wait for a message, and for a rendezvous
      one the wait for its data. */
  function Iterated(c: Config, f: Flags, replies: seq<Reply>, schedule: seq<seq<Notice>>): (Outcome, bool, seq<seq<Notice>>, seq<Reply>) {
    var (g, rest) := Until(c, HasMessage(), f.(request := Pending), schedule);
    if !g.complete then (Hung, false, rest, replies)
    else if !g.isRndv then (Returned(0), false, rest, replies)
    else
      var p := Answered(NextReply(replies), false);
      var (h, later) := Waited(c, p, PostedFlags(g.(complete := false), p), rest);
      (WaitOutcome(h), h.complete, later, LaterReplies(replies))
  }

  /** The schedule of an environment that serves a client which sends these messages: the
      message, and for a rendezvous one its data, then the end of the FIN's send, then the
      close. */
  function ServingSchedule(msgs: seq<Message>): seq<seq<Notice>> {
    if msgs == [] then [[Completes(true)], [PeerCloses]]
    else
      (if msgs[0].protocol.Rndv? then [[Arrives(msgs[0])], [Completes(true)]] else [[Arrives(msgs[0])]]) + ServingSchedule(msgs[1..])
  }

  lemma OneNotice(c: Config, f: Flags, n: Notice)
    ensures AfterBatch(c, f, [n]) == AfterNotice(c, f, n)
  {
    assert [n][..0] == [];
  }

  /** A loop whose condition the next report, alone in its progress call, makes true. */
  lemma OneCall(c: Config, done: Flags -> bool, f: Flags, n: Notice, rest: seq<seq<Notice>>)
    requires !done(f) && done(AfterNotice(c, f, n))
    ensures Until(c, done, f, [[n]] + rest) == (AfterNotice(c, f, n), rest)
  {
    OneNotice(c, f, n);
    assert ([[n]] + rest)[0] == [n] && ([[n]] + rest)[1..] == rest;
  }

  /** One message of an orderly schedule is one iteration. */
  lemma EagerIteration(c: Config, f: Flags, m: Message, later: seq<seq<Notice>>)
    requires |m.data| == c.iovCnt * c.length && m.protocol.Eager? && !f.complete
    ensures Iterated(c, f, [], [[Arrives(m)]] + later) == (Returned(0), false, later, [])
  {
    OneCall(c, HasMessage(), f.(request := Pending), Arrives(m), later);
    hide Until, AfterBatch;
  }

  lemma RendezvousIteration(c: Config, f: Flags, m: Message, later: seq<seq<Notice>>)
    requires |m.data| == c.iovCnt * c.length && m.protocol.Rndv? && !f.complete
    ensures Iterated(c, f, [], [[Arrives(m)]] + ([[Completes(true)]] + later)) == (Returned(0), false, later, [])
  {
    var g := f.(request := Pending, complete := true, isRndv := true);
    OneCall(c, HasMessage(), f.(request := Pending), Arrives(m), [[Completes(true)]] + later);
    OneCall(c, IsSettled(), PostedFlags(g.(complete := false), Queued), Completes(true), later);
    hide Until, AfterBatch;
  }

  lemma OneIteration(c: Config, f: Flags, msgs: seq<Message>)
    requires msgs != [] && |msgs[0].data| == c.iovCnt * c.length && !f.complete
    ensures Iterated(c, f, [], ServingSchedule(msgs)) == (Returned(0), false, ServingSchedule(msgs[1..]), [])
  {
    hide Iterated, ServingSchedule;
    if msgs[0].protocol.Rndv? {
      ServingRendezvous(msgs);
      RendezvousIteration(c, f, msgs[0], ServingSchedule(msgs[1..]));
    } else {
      ServingEager(msgs);
      EagerIteration(c, f, msgs[0], ServingSchedule(msgs[1..]));
    }
  }

  lemma ServingRendezvous(msgs: seq<Message>)
    requires msgs != [] && msgs[0].protocol.Rndv?
    ensures ServingSchedule(msgs) == [[Arrives(msgs[0])]] + ([[Completes(true)]] + ServingSchedule(msgs[1..]))
  {
  }

  lemma ServingEager(msgs: seq<Message>)
    requires msgs != [] && msgs[0].protocol.Eager?
    ensures ServingSchedule(msgs) == [[Arrives(msgs[0])]] + ServingSchedule(msgs[1..])
  {
  }

  /** The end of an orderly schedule: the FIN's send succeeds, and the client closes. */
  lemma ServingEnd(c: Config, f: Flags)
    ensures
      var h := PostedFlags(f, Queued);
      Waited(c, Queued, h, ServingSchedule([])) == (h.(request := Succeeded), [[PeerCloses]])
  {
    assert ServingSchedule([]) == [[Completes(true)]] + [[PeerCloses]];
    OneCall(c, IsSettled(), PostedFlags(f, Queued), Completes(true), [[PeerCloses]]);
  }

  lemma CloseEnds(c: Config, f: Flags)
    ensures Until(c, IsClosed(), f, [[PeerCloses]]).0.closed
  {
    if !f.closed {
      assert [[PeerCloses]] + [] == [[PeerCloses]];
      OneCall(c, IsClosed(), f, PeerCloses, []);
    }
  }

  /** All goes well in this environment: every call succeeds, and the schedule is that of a
      client with one message of the right size for each iteration. */
  ghost predicate GoesWell(c: Config, msgs: seq<Message>, complete: bool, replies: seq<Reply>, schedule: seq<seq<Notice>>) {
    && !complete && replies == [] && schedule == ServingSchedule(msgs)
    && |msgs| == c.iterations && forall k | 0 <= k < |msgs| :: |msgs[k].data| == c.iovCnt * c.length
  }

  /** The same before iteration i. */
  ghost predicate WellFrom(c: Config, msgs: seq<Message>, i: nat, complete: bool, replies: seq<Reply>, schedule: seq<seq<Notice>>) {
    && i <= |msgs| == c.iterations && (forall k | 0 <= k < |msgs| :: |msgs[k].data| == c.iovCnt * c.length)
    && !complete && replies == [] && schedule == ServingSchedule(msgs[i..])
  }

  lemma WellReplies(c: Config, msgs: seq<Message>, complete: bool, replies: seq<Reply>, schedule: seq<seq<Notice>>)
    requires GoesWell(c, msgs, complete, replies, schedule)
    ensures NextReply(replies).ok && LaterReplies(replies) == replies
  {
  }

  lemma WellAtStart(c: Config, msgs: seq<Message>, complete: bool, replies: seq<Reply>, schedule: seq<seq<Notice>>)
    requires GoesWell(c, msgs, complete, replies, schedule)
    ensures WellFrom(c, msgs, 0, complete, replies, schedule)
  {
    hide ServingSchedule;
    assert msgs[0..] == msgs;
  }

  lemma WellIteration(c: Config, msgs: seq<Message>, i: nat, f: Flags, replies: seq<Reply>, schedule: seq<seq<Notice>>)
    requires WellFrom(c, msgs, i, f.complete, replies, schedule) && i < c.iterations
    ensures NextReply(replies).ok && LaterReplies(replies) == []
    ensures
      var r := Iterated(c, f, [], schedule);
      r.0 == Returned(0) && WellFrom(c, msgs, i + 1, r.1, r.3, r.2)
  {
    hide ServingSchedule, Iterated;
    assert msgs[i..][0] == msgs[i] && msgs[i..][1..] == msgs[i + 1..];
    OneIteration(c, f, msgs[i..]);
  }

  lemma WellEnd(c: Config, msgs: seq<Message>, f: Flags, replies: seq<Reply>, schedule: seq<seq<Notice>>)
    requires WellFrom(c, msgs, c.iterations, f.complete, replies, schedule)
    ensures NextReply(replies).ok && Answered(NextReply(LaterReplies(replies)), true) == Queued
    ensures
      var w := Waited(c, Queued, PostedFlags(f, Queued), schedule);
      WaitOutcome(w.0) == Returned(0) && w.1 == [[PeerCloses]]
  {
    assert msgs[c.iterations..] == [];
    ServingEnd(c, f);
    hide ServingSchedule, Until;
  }

  /** How many clients the run has admitted. */
  function Admissions(acts: seq<Act>): nat {
    if acts == [] then 0
    else Admissions(acts[..|acts| - 1]) + if acts[|acts| - 1].Admit? then 1 else 0
  }

  lemma {:induction false} NoMoreAdmissions(a: seq<Act>, b: seq<Act>)
    requires NoAdmit(b)
    ensures Admissions(a + b) == Admissions(a)
    decreases |b|
  {
    if b == [] {
      assert a + b == a;
    } else {
      assert (a + b)[..|a + b| - 1] == a + b[..|b| - 1];
      NoMoreAdmissions(a, b[..|b| - 1]);
    }
  }

  lemma WentAdmitsNone(t0: seq<Act>, t1: seq<Act>, heard: seq<Message>)
    requires Went(t0, t1, heard)
    ensures Admissions(t1) == Admissions(t0)
  {
    NoMoreAdmissions(t0, t1[|t0|..]);
    assert t1 == t0 + t1[|t0|..];
    hide Admissions;
  }

  lemma OnwardAdmitsNone(t0: seq<Act>, s0: seq<seq<Notice>>, t1: seq<Act>, s1: seq<seq<Notice>>)
    requires Onward(t0, s0, t1, s1)
    ensures Admissions(t1) == Admissions(t0)
  {
    var heard :| Went(t0, t1, heard) && heard + Arrivals(s1) == Arrivals(s0);
    WentAdmitsNone(t0, t1, heard);
  }

  lemma AdmitsOne(t: seq<Act>)
    ensures Admissions(t + [Admit]) == Admissions(t) + 1
  {
    assert (t + [Admit])[..|t|] == t;
  }

  lemma BatchBegins(c: Config, f: Flags)
    ensures AfterBatch(c, f, []) == f && Messages([]) == []
  {
  }

  lemma NextAfter(c: Config, f: Flags, batch: seq<Notice>, k: nat)
    requires k < |batch|
    ensures AfterBatch(c, f, batch[..k + 1]) == AfterNotice(c, AfterBatch(c, f, batch[..k]), batch[k])
  {
    assert batch[..k + 1][..k] == batch[..k];
  }

  /** Hung: the environment never ends the loop within the given schedule. */
  datatype Outcome = Returned(ret: int) | Hung

  /** The messages in what a progress call, or a schedule of them, reports. */
  function Messages(batch: seq<Notice>): seq<Message> {
    if batch == [] then []
    else
      var last := batch[|batch| - 1];
      Messages(batch[..|batch| - 1]) + if last.Arrives? then [last.m] else []
  }

  function Arrivals(schedule: seq<seq<Notice>>): seq<Message> {
    if schedule == [] then [] else Messages(schedule[0]) + Arrivals(schedule[1..])
  }

  /** The machine's run went on from t0 to t1 within the session, and the callback heard the
      messages in between. */
  ghost predicate Went(t0: seq<Act>, t1: seq<Act>, heard: seq<Message>) {
    t0 <= t1 && NoAdmit(t1[|t0|..]) && Heard(t1) == Heard(t0) + heard
  }

  /** ... namely those that came off the schedule. */
  ghost predicate Onward(t0: seq<Act>, s0: seq<seq<Notice>>, t1: seq<Act>, s1: seq<seq<Notice>>) {
    exists heard :: Went(t0, t1, heard) && heard + Arrivals(s1) == Arrivals(s0)
  }

  lemma WentTrans(t0: seq<Act>, t1: seq<Act>, t2: seq<Act>, h1: seq<Message>, h2: seq<Message>)
    requires Went(t0, t1, h1) && Went(t1, t2, h2)
    ensures Went(t0, t2, h1 + h2)
  {
    assert t2[|t0|..] == t1[|t0|..] + t2[|t1|..];
    hide Heard;
    assert (Heard(t0) + h1) + h2 == Heard(t0) + (h1 + h2);
  }

  lemma WentNowhere(t: seq<Act>)
    ensures Went(t, t, [])
  {
  }

  lemma WentOne(t: seq<Act>, a: Act)
    requires !a.Admit?
    ensures Went(t, t + [a], if a.AmCallback? then [a.m] else [])
  {
    assert (t + [a])[..|t|] == t;
    assert (t + [a])[|t|..] == [a];
  }

  lemma OnwardTrans(t0: seq<Act>, s0: seq<seq<Notice>>, t1: seq<Act>, s1: seq<seq<Notice>>, t2: seq<Act>, s2: seq<seq<Notice>>)
    requires Onward(t0, s0, t1, s1) && Onward(t1, s1, t2, s2)
    ensures Onward(t0, s0, t2, s2)
  {
    var h1 :| Went(t0, t1, h1) && h1 + Arrivals(s1) == Arrivals(s0);
    var h2 :| Went(t1, t2, h2) && h2 + Arrivals(s2) == Arrivals(s1);
    hide Went, Arrivals;
    WentTrans(t0, t1, t2, h1, h2);
    assert (h1 + h2) + Arrivals(s2) == h1 + (h2 + Arrivals(s2));
  }

  lemma OnwardNowhere(t: seq<Act>, s: seq<seq<Notice>>)
    ensures Onward(t, s, t, s)
  {
    WentNowhere(t);
    hide Went, Arrivals;
    assert [] + Arrivals(s) == Arrivals(s);
  }

  lemma OnwardOne(t: seq<Act>, a: Act, s: seq<seq<Notice>>)
    requires !a.Admit? && !a.AmCallback?
    ensures Onward(t, s, t + [a], s)
  {
    WentOne(t, a);
    hide Went, Arrivals;
    assert [] + Arrivals(s) == Arrivals(s);
  }

  /** One progress call. */
  lemma OnwardBatch(t0: seq<Act>, t1: seq<Act>, s: seq<seq<Notice>>)
    requires s != [] && Went(t0, t1, Messages(s[0]))
    ensures Onward(t0, s, t1, s[1..])
  {
    hide Went, Messages;
  }

  lemma NextMessages(batch: seq<Notice>, k: nat)
    requires k < |batch|
    ensures Messages(batch[..k + 1]) == Messages(batch[..k]) + if batch[k].Arrives? then [batch[k].m] else []
  {
    assert batch[..k + 1][..k] == batch[..k];
  }

  /** What the methods use of the invariant. */
  lemma Facts(c: Config, trace: seq<Act>, s: Server)
    requires Serve(c, trace) == Some(s)
    ensures s.heap.Keys == if Holding(s) then {s.iov} else {}
    ensures forall b | b in s.heap :: Shaped(s.heap[b], c.iovCnt, c.length)
    ensures s.pc.Iterate? || InLoop(s, CloseWait) ==> |s.got| == s.i
    ensures InLoop(s, CloseWait) ==> s.i == c.iterations
    ensures c.mode.Am? && InLoop(s, RecvWait) ==> |s.posted| == c.MessageSize()
  {
    ServeKeepsInv(c, trace);
  }

  /** The machine's steps at the points where the methods take them. */
  lemma StartSteps(c: Config, s: Server, parts: seq<seq<Byte>>)
    requires c.mode.Am? && s.pc.Iterate? && s.i <= c.iterations && Shaped(parts, c.iovCnt, c.length)
    ensures
      var t := s.(heap := s.heap[s.next := parts], iov := s.next, next := s.next + 1, request := Pending);
      Step(c, s, Start(parts)) == Some(
        if s.i == c.iterations then t.(pc := Spin(FinWait, false))
        else t.(pc := Spin(AmWait, false), slot := s.slot.(recvBuf := Some(s.next))))
  {
  }

  lemma StartFails(c: Config, s: Server)
    requires s.pc.Iterate? && s.i <= c.iterations
    ensures Step(c, s, StartFailed) == Some(s.(pc := Spin(ErrClosing, false)))
  {
  }

  lemma WaitEnds(c: Config, s: Server)
    requires s.pc == Spin(AmWait, false) && s.slot.complete && s.iov in s.heap
    ensures
      var t := s.(slot := s.slot.(complete := false), consumed := s.consumed + 1);
      Step(c, s, Exit) == Some(
        if s.slot.isRndv then t.(posted := s.slot.desc, request := Pending, pc := Spin(RecvWait, false))
        else Finalize(t))
  {
  }

  lemma FetchEnds(c: Config, s: Server)
    requires s.pc == Spin(RecvWait, false) && !s.request.Pending? && s.iov in s.heap
    ensures Step(c, s, Exit) == Some(if s.request.Failed? then Abort(s) else Finalize(s))
  {
  }

  lemma FinEnds(c: Config, s: Server)
    requires s.pc == Spin(FinWait, false) && !s.request.Pending?
    ensures Step(c, s, Exit) == Some(
      if s.request.Failed? then Abort(s) else s.(pc := Spin(CloseWait, false), heap := s.heap - {s.iov}))
  {
  }

  lemma RequestSteps(c: Config, s: Server)
    requires InLoop(s, RecvWait) || InLoop(s, FinWait)
    requires s.request.Pending?
    ensures Step(c, s, RequestFailed) == Some(s.(request := Failed))
    ensures InLoop(s, FinWait) ==> Step(c, s, SendDone) == Some(s.(request := Succeeded))
  {
  }

  lemma FetchSteps(c: Config, s: Server)
    requires c.mode.Am? && InLoop(s, RecvWait) && s.pc.inside && s.request.Pending? && s.iov in s.heap
    requires |s.posted| == c.MessageSize()
    ensures Step(c, s, RecvDone(s.posted)) == Some(
      s.(request := Succeeded, heap := s.heap[s.iov := Scatter(s.posted, c.iovCnt, c.length)]))
  {
  }

  lemma CallbackSteps(c: Config, s: Server, msg: Message)
    requires c.mode.Am? && Inside(s)
    ensures Step(c, s, AmCallback(msg)) == Some(Callback(c, s, msg))
  {
  }

  lemma ProgressSteps(c: Config, s: Server, loop: Loop)
    requires s.pc == Spin(loop, false) && Waiting(s, loop)
    ensures Step(c, s, Enter) == Some(s.(pc := Spin(loop, true)))
  {
  }

  lemma LeaveSteps(c: Config, s: Server, loop: Loop)
    requires s.pc == Spin(loop, true)
    ensures Step(c, s, Leave) == Some(s.(pc := Spin(loop, false)))
  {
  }

  lemma CallbackFrame(c: Config, s: Server, msg: Message)
    ensures
      var t := Callback(c, s, msg);
      t.pc == s.pc && t.i == s.i && t.next == s.next && t.iov == s.iov && t.request == s.request
      && t.posted == s.posted && t.closed == s.closed && t.got == s.got
  {
  }

  lemma HeardMeanwhile(t0: seq<Act>, s0: seq<seq<Notice>>, t1: seq<Act>, s1: seq<seq<Notice>>) returns (heard: seq<Message>)
    requires Onward(t0, s0, t1, s1)
    ensures Went(t0, t1, heard) && heard + Arrivals(s1) == Arrivals(s0)
  {
    heard :| Went(t0, t1, heard) && heard + Arrivals(s1) == Arrivals(s0);
  }

  /** No message left over, none lost and none copied through dead buffers. */
  ghost predicate Unspoilt(s: Server) { !s.slot.complete && s.lost == 0 && s.stray == 0 }

  lemma Cancel(a: seq<Message>, b: seq<Message>, c: seq<Message>)
    requires a + b == a + c
    ensures b == c
  {
    assert b == (a + b)[|a|..] == (a + c)[|a|..] == c;
  }

  /** The work of a session that began in s after t0 and got to the close in m. */
  lemma WorkReceives(c: Config, t0: seq<Act>, s: Server, trace: seq<Act>, m: Server, heard: seq<Message>)
    requires c.mode.Am? && Serve(c, t0) == Some(s) && Serve(c, trace) == Some(m) && Went(t0, trace, heard)
    requires s.pc.Iterate? && s.i == 0 && s.got == [] && !s.closed && m.pc == Spin(EpClosing, false)
    ensures Unspoilt(s) && |heard| <= c.iterations && NoEagerAfterRndv(heard) ==>
              |heard| == c.iterations && Matches(m.got, heard, c.iterations) && Unspoilt(m)
  {
    if Unspoilt(s) && |heard| <= c.iterations && NoEagerAfterRndv(heard) {
      var acts := trace[|t0|..];
      assert trace == t0 + acts;
      HeardConcat(t0, acts);
      Cancel(Heard(t0), heard, Heard(acts));
      RunConcat(Steps(c), Init, t0, acts);
      ServeKeepsInv(c, t0);
      ReceivedAsHeard(c, s, acts);
    }
    hide Inv, Heard, Run, Matches;
  }

  class Receiver {
    const c: Config
    // am_data_desc
    var complete: bool
    var isRndv: bool
    var desc: seq<Byte>
    var recvBuf: Option<nat>
    // copies through a recv_buf whose list is not live: what they overwrite is unknown
    var stray: nat
    var connectionClosed: bool
    // the heap, as far as iov lists go
    var heap: map<nat, seq<seq<Byte>>>
    var next: nat
    // the current iov list; the request under way and the data a rendezvous request will fetch
    var operation: Operation
    var iov: nat
    var request: Request
    var posted: seq<Byte>
    var got: seq<seq<Byte>>
    // the environment: what UCX answers to the calls, and what it reports in progress calls
    var replies: seq<Reply>
    var schedule: seq<seq<Notice>>
    // the run of the machine that this object has made, and the state it is in
    ghost var trace: seq<Act>
    ghost var m: Server

    ghost predicate Valid()
      reads this
    {
      && Serve(c, trace) == Some(m) && c.mode.Am?
      && m.slot == Slot(complete, isRndv, desc, recvBuf)
      && m.heap == heap && m.next == next && m.stray == stray
      && m.iov == iov && m.request == request && m.posted == posted
      && (operation.Fetching? <==> InLoop(m, RecvWait)) && (operation.Sending? <==> InLoop(m, FinWait))
      && m.closed == connectionClosed && m.got == got
    }

    /** What the loops look at now. */
    function Now(): Flags
      reads this
    {
      Flags(complete, isRndv, connectionClosed, request, !operation.Idle?)
    }

    constructor (c: Config, replies: seq<Reply>, schedule: seq<seq<Notice>>)
      requires c.mode.Am?
      ensures Valid() && this.c == c && this.replies == replies && this.schedule == schedule
      ensures m == Init && trace == []
    {
      this.c, this.replies, this.schedule := c, replies, schedule;
      complete, isRndv, desc, recvBuf := false, false, [], None;
      connectionClosed, stray := true, 0;
      heap, next, iov, operation := map[], 0, 0, Idle;
      request, posted, got := Pending, [], [];
      m, trace := Init, [];
    }

    /** Record that the machine takes the step the object has just taken. */
    ghost method Follow(a: Act, t: Server)
      requires Serve(c, trace) == Some(m) && Step(c, m, a) == Some(t)
      modifies this`m, this`trace
      ensures Serve(c, trace) == Some(m) && m == t && trace == old(trace) + [a]
      ensures !a.Admit? ==> Went(old(trace), trace, if a.AmCallback? then [a.m] else [])
      ensures !a.Admit? && !a.AmCallback? ==> Onward(old(trace), schedule, trace, schedule)
    {
      Extend(Steps(c), Init, trace, a);
      m, trace := t, trace + [a];
      if !a.Admit? { WentOne(old(trace), a); }
      if !a.Admit? && !a.AmCallback? { OnwardOne(old(trace), a, schedule); }
    }

    /** ucp_am_data_cb: what it leaves in am_data_desc and in the buffers is what the
        machine's Callback says, from any state with this slot and these buffers.  A
        copy through a recv_buf that is not live is counted. */
    method DataCallback(msg: Message, ghost s: Server)
      requires s.slot == Slot(complete, isRndv, desc, recvBuf) && s.heap == heap && s.stray == stray
      requires forall b | b in heap :: Shaped(heap[b], c.iovCnt, c.length)
      modifies this`complete, this`isRndv, this`desc, this`heap, this`stray
      ensures Slot(complete, isRndv, desc, recvBuf) == Callback(c, s, msg).slot
      ensures heap == Callback(c, s, msg).heap && stray == Callback(c, s, msg).stray
      ensures |msg.data| != c.iovCnt * c.length ==> (complete, isRndv, desc, heap) == old((complete, isRndv, desc, heap))
      ensures |msg.data| == c.iovCnt * c.length ==> complete && isRndv == msg.protocol.Rndv?
      ensures |msg.data| == c.iovCnt * c.length && msg.protocol.Rndv? ==> desc == msg.data && heap == old(heap)
      ensures |msg.data| == c.iovCnt * c.length && msg.protocol.Eager? ==>
                desc == old(desc) && if recvBuf.Some? && recvBuf.value in old(heap) then
                  heap.Keys == old(heap.Keys) && Concat(heap[recvBuf.value]) == msg.data
                  && forall b | b in heap && b != recvBuf.value :: heap[b] == old(heap)[b]
                else heap == old(heap)
    {
      if |msg.data| != c.MessageSize() { return; }
      complete := true;
      if msg.protocol.Rndv? {
        isRndv, desc := true, msg.data;
        return;
      }
      isRndv := false;
      if recvBuf.Some? && recvBuf.value in heap {
        ScatterInto(recvBuf.value, msg.data);
      } else if c.iovCnt > 0 {
        stray := stray + 1;
      }
    }

    /** The copy loop of the callback. */
    method ScatterInto(buf: nat, data: seq<Byte>)
      requires |data| == c.MessageSize()
      requires buf in heap && Shaped(heap[buf], c.iovCnt, c.length)
      modifies this`heap
      ensures heap == old(heap)[buf := Scatter(data, c.iovCnt, c.length)]
    {
      ghost var all := Scatter(data, c.iovCnt, c.length);
      var idx, offset := 0, 0;
      while idx < c.iovCnt
        invariant 0 <= idx <= c.iovCnt && offset == idx * c.length
        invariant buf in heap && |heap[buf]| == c.iovCnt
        invariant heap == old(heap)[buf := heap[buf]]
        invariant forall k | 0 <= k < idx :: heap[buf][k] == all[k]
        invariant forall k | idx <= k < c.iovCnt :: |heap[buf][k]| == c.length
      {
        ScatterAt(data, c.iovCnt, c.length, idx);
        var length := |heap[buf][idx]|;
        heap := heap[buf := heap[buf][idx := data[offset..offset + length]]];
        offset := offset + length;
        idx := idx + 1;
      }
      assert heap[buf] == all;
    }

    /** UCX completes the operation under way. */
    method Complete(ok: bool)
      requires Valid() && Inside(m) && !operation.Idle? && request.Pending?
      modifies this
      ensures Valid() && m.pc == old(m.pc) && m.i == old(m.i) && schedule == old(schedule)
      ensures Went(old(trace), trace, [])
      ensures Now() == AfterNotice(c, old(Now()), Completes(ok)) && operation == old(operation) && replies == old(replies)
      ensures request == (if ok then Succeeded else Failed) && posted == old(posted) && iov == old(iov)
      ensures if ok && operation.Fetching? then iov in heap && Concat(heap[iov]) == posted else heap == old(heap)
    {
      hide Serve, Inv, Went, Onward, Step, Callback, AfterLoop, Scatter, Concat;
      Facts(c, trace, m);
      RequestSteps(c, m);
      if !ok {
        request := Failed;
        Follow(RequestFailed, m.(request := Failed));
      } else if operation.Sending? {
        request := Succeeded;
        Follow(SendDone, m.(request := Succeeded));
      } else {
        FetchSteps(c, m);
        request := Succeeded;
        ScatterInto(iov, posted);
        Follow(RecvDone(posted), m.(request := Succeeded, heap := heap));
      }
    }

    /** UCX hands a message to the callback. */
    method HandleMessage(msg: Message)
      requires Valid() && Inside(m)
      modifies this
      ensures Valid() && m == Callback(c, old(m), msg) && m.pc == old(m.pc) && m.i == old(m.i)
      ensures schedule == old(schedule)
      ensures Went(old(trace), trace, [msg])
      ensures Now() == AfterNotice(c, old(Now()), Arrives(msg)) && operation == old(operation) && replies == old(replies)
    {
      hide Serve, Inv, Went, Onward, Step, Callback, Concat;
      CallbackSteps(c, m, msg);
      Facts(c, trace, m);
      CallbackFrame(c, m, msg);
      DataCallback(msg, m);
      Follow(AmCallback(msg), Callback(c, m, msg));
    }

    /** One report of UCX inside ucp_worker_progress. */
    method Handle(n: Notice)
      requires Valid() && Inside(m)
      modifies this
      ensures Valid() && m.pc == old(m.pc) && m.i == old(m.i) && schedule == old(schedule)
      ensures Went(old(trace), trace, if n.Arrives? then [n.m] else [])
      ensures Now() == AfterNotice(c, old(Now()), n) && operation == old(operation) && replies == old(replies)
    {
      hide Serve, Inv, Went, Onward;
      match n {
        case Arrives(msg) => HandleMessage(msg);
        case PeerCloses =>
          connectionClosed := true;
          Follow(ErrCallback, m.(closed := true));
        case Completes(ok) =>
          if !operation.Idle? && request.Pending? {
            Complete(ok);
          } else {
            WentNowhere(trace);
          }
      }
    }

    /** ucp_worker_progress in the given loop: the next batch of the schedule. */
    method Progress(ghost loop: Loop)
      requires Valid() && schedule != [] && m.pc == Spin(loop, false) && Waiting(m, loop)
      modifies this
      ensures Valid() && m.pc == old(m.pc) && m.i == old(m.i) && schedule == old(schedule)[1..]
      ensures Onward(old(trace), old(schedule), trace, schedule)
      ensures Now() == AfterBatch(c, old(Now()), old(schedule)[0]) && operation == old(operation) && replies == old(replies)
    {
      hide Serve, Inv, Went, Onward, Step, Callback, AfterLoop, Scatter, AfterNotice, AfterBatch, Messages;
      ProgressSteps(c, m, loop);
      BatchBegins(c, Now());
      var batch := schedule[0];
      Follow(Enter, m.(pc := Spin(loop, true)));
      var k := 0;
      while k < |batch|
        invariant 0 <= k <= |batch| && Valid() && m.pc == Spin(loop, true) && m.i == old(m.i) && schedule == old(schedule)
        invariant Now() == AfterBatch(c, old(Now()), batch[..k]) && operation == old(operation) && replies == old(replies)
        invariant Went(old(trace), trace, Messages(batch[..k]))
      {
        ghost var before := trace;
        Handle(batch[k]);
        NextMessages(batch, k);
        NextAfter(c, old(Now()), batch, k);
        WentTrans(old(trace), before, trace, Messages(batch[..k]), if batch[k].Arrives? then [batch[k].m] else []);
        k := k + 1;
      }
      ghost var before := trace;
      assert batch[..k] == batch;
      schedule := schedule[1..];
      LeaveSteps(c, m, loop);
      Follow(Leave, m.(pc := Spin(loop, false)));
      WentTrans(old(trace), before, trace, Messages(batch), []);
      assert Messages(batch) + [] == Messages(batch);
      OnwardBatch(old(trace), trace, old(schedule));
    }

    /** The environment answers a call. */
    method Ask() returns (reply: Reply)
      modifies this`replies
      ensures reply == NextReply(old(replies)) && replies == LaterReplies(old(replies))
    {
      reply := NextReply(replies);
      replies := LaterReplies(replies);
    }

    /** buffer_malloc and, for a sender, fill_buffer: may fail; the content is any. */
    method Allocate() returns (ok: bool, parts: seq<seq<Byte>>)
      modifies this`replies
      ensures ok == NextReply(old(replies)).ok && replies == LaterReplies(old(replies))
      ensures ok ==> Shaped(parts, c.iovCnt, c.length)
    {
      var reply := Ask();
      ok := reply.ok;
      assert Shaped(seq(c.iovCnt, _ => seq(c.length, _ => 0)), c.iovCnt, c.length);
      parts :| Shaped(parts, c.iovCnt, c.length);
    }

    method NewList(parts: seq<seq<Byte>>)
      modifies this`heap, this`iov, this`next, this`request
      ensures heap == old(heap)[old(next) := parts] && iov == old(next) && next == old(next) + 1 && request == Pending
    {
      heap, iov, next, request := heap[next := parts], next, next + 1, Pending;
    }

    /** fill_request_param failed: the call returns -1. */
    method GiveUp()
      requires Valid() && m.pc.Iterate? && m.i <= c.iterations
      modifies this`m, this`trace
      ensures Valid() && m.pc == Spin(ErrClosing, false) && m.i == old(m.i)
      ensures Onward(old(trace), old(schedule), trace, schedule)
      ensures m.i == old(m.i)
    {
      hide Serve, Inv, Went, Onward, Step, Callback, AfterLoop, Scatter, Concat;
      StartFails(c, m);
      Follow(StartFailed, m.(pc := Spin(ErrClosing, false)));
    }

    /** The buffers are there: recv_buf is set and the wait begins. */
    method Receive(parts: seq<seq<Byte>>)
      requires Valid() && m.pc.Iterate? && m.i < c.iterations && Shaped(parts, c.iovCnt, c.length)
      modifies this`heap, this`iov, this`next, this`request, this`recvBuf, this`m, this`trace
      ensures Valid() && m.i == old(m.i) && m.pc == Spin(AmWait, false)
      ensures Now() == old(Now()).(request := Pending)
      ensures Onward(old(trace), old(schedule), trace, schedule)
    {
      hide Serve, Inv, Went, Onward, Step, Callback, AfterLoop, Scatter, Concat;
      StartSteps(c, m, parts);
      NewList(parts);
      recvBuf := Some(iov);
      Follow(Start(parts), m.(pc := Spin(AmWait, false), heap := heap, iov := iov, next := next, request := Pending,
                              slot := m.slot.(recvBuf := recvBuf)));
    }

    /** The buffers of the FIN are there: the send is posted. */
    method Send(parts: seq<seq<Byte>>)
      requires Valid() && m.pc.Iterate? && m.i == c.iterations && Shaped(parts, c.iovCnt, c.length)
      modifies this`heap, this`iov, this`next, this`request, this`operation, this`m, this`trace
      ensures Valid() && m.pc == Spin(FinWait, false) && operation.Sending?
      ensures Now() == old(Now()).(request := Pending, busy := true)
      ensures Onward(old(trace), old(schedule), trace, schedule)
    {
      hide Serve, Inv, Went, Onward, Step, Callback, AfterLoop, Scatter, Concat;
      StartSteps(c, m, parts);
      NewList(parts);
      operation := Operation.Sending;
      Follow(Start(parts), m.(pc := Spin(FinWait, false), heap := heap, iov := iov, next := next, request := Pending));
    }

    /** fill_request_param for the server of send_recv_am. */
    method BeginReceive() returns (ok: bool)
      requires Valid() && m.pc.Iterate? && m.i < c.iterations
      modifies this
      ensures Valid() && schedule == old(schedule) && m.i == old(m.i)
      ensures m.pc == Spin(if ok then AmWait else ErrClosing, false)
      ensures Onward(old(trace), old(schedule), trace, schedule)
      ensures ok == NextReply(old(replies)).ok && replies == LaterReplies(old(replies))
      ensures ok ==> Now() == old(Now()).(request := Pending)
    {
      hide Serve, Inv, Went, Onward, Step, Callback, AfterLoop, Scatter, Concat;
      var parts;
      ok, parts := Allocate();
      if !ok {
        GiveUp();
      } else {
        Receive(parts);
      }
    }

    /** request_finalize for a message that came with the callback. */
    method FinishEager()
      requires Valid() && m.pc == Spin(AmWait, false) && complete && !isRndv
      modifies this
      ensures Valid() && schedule == old(schedule) && m.pc.Iterate? && m.i == old(m.i) + 1
      ensures Onward(old(trace), old(schedule), trace, schedule)
      ensures !complete && replies == old(replies)
    {
      hide Serve, Inv, Went, Onward, Step, Callback, AfterLoop, Scatter, Concat;
      Facts(c, trace, m);
      WaitEnds(c, m);
      ghost var t := m.(slot := m.slot.(complete := false), consumed := m.consumed + 1);
      complete := false;
      got := got + [Concat(heap[iov])];
      heap := heap - {iov};
      Follow(Exit, Finalize(t));
    }

    /** request_finalize for a rendezvous message: the buffers are read if all went
        well, and freed either way. */
    method FinishFetch()
      requires Valid() && m.pc == Spin(RecvWait, false) && !request.Pending?
      modifies this
      ensures Valid() && schedule == old(schedule)
      ensures if old(request).Failed? then m.pc == Spin(ErrClosing, false) else m.pc.Iterate? && m.i == old(m.i) + 1
      ensures Onward(old(trace), old(schedule), trace, schedule)
      ensures complete == old(complete) && replies == old(replies)
    {
      hide Serve, Inv, Went, Onward, Step, Callback, AfterLoop, Scatter, Concat;
      Facts(c, trace, m);
      FetchEnds(c, m);
      operation := Idle;
      if request.Succeeded? {
        got := got + [Concat(heap[iov])];
      }
      heap := heap - {iov};
      Follow(Exit, if request.Failed? then Abort(m) else Finalize(m));
    }

    /** The answer of UCX to the operation just posted.  A rendezvous receive is posted
        with NO_IMM_CMPL and does not complete at once. */
    method Answer(ghost loop: Loop) returns (p: Posted)
      requires Valid() && m.pc == Spin(loop, false) && !operation.Idle? && request.Pending?
      modifies this
      ensures Valid() && m.pc == old(m.pc) && m.i == old(m.i) && schedule == old(schedule)
      ensures p == Answered(NextReply(old(replies)), operation.Sending?) && replies == LaterReplies(old(replies))
      ensures operation == old(operation) && Now() == PostedFlags(old(Now()), p)
      ensures Onward(old(trace), old(schedule), trace, schedule)
    {
      hide Serve, Inv, Went, Onward, Step, Callback, AfterLoop, Scatter, Concat;
      RequestSteps(c, m);
      OnwardNowhere(trace, schedule);
      var reply := Ask();
      p := Answered(reply, operation.Sending?);
      if p.Null? {
        request := Succeeded;
        Follow(SendDone, m.(request := Succeeded));
      } else if p.ErrorPtr? {
        request := Failed;
        Follow(RequestFailed, m.(request := Failed));
      }
    }

    method TakeMessage()
      modifies this`complete, this`posted, this`request, this`operation
      ensures !complete && posted == desc && request == Pending && operation == Fetching
    {
      complete := false;
      posted, request, operation := desc, Pending, Fetching;
    }

    /** The wait ends with a rendezvous message: post ucp_am_recv_data_nbx. */
    method PostFetch()
      requires Valid() && m.pc == Spin(AmWait, false) && complete && isRndv
      modifies this
      ensures Valid() && m.pc == Spin(RecvWait, false) && m.i == old(m.i) && schedule == old(schedule)
      ensures operation.Fetching? && request.Pending?
      ensures Onward(old(trace), old(schedule), trace, schedule)
      ensures replies == old(replies)
      ensures Now() == old(Now()).(complete := false, request := Pending, busy := true)
    {
      hide Serve, Inv, Went, Onward, Step, Callback, AfterLoop, Scatter, Concat;
      Facts(c, trace, m);
      WaitEnds(c, m);
      TakeMessage();
      Follow(Exit, m.(slot := m.slot.(complete := false), consumed := m.consumed + 1,
                      posted := m.slot.desc, request := Pending, pc := Spin(RecvWait, false)));
    }

    /** The rendezvous branch: the receive is posted, waited for and finalized. */
    method Fetch() returns (out: Outcome)
      requires Valid() && m.pc == Spin(AmWait, false) && complete && isRndv
      modifies this
      ensures Valid() && |schedule| <= |old(schedule)|
      ensures out == Returned(0) ==> m.pc.Iterate? && m.i == old(m.i) + 1
      ensures out.Returned? && out.ret != 0 ==> out.ret == -1 && m.pc == Spin(ErrClosing, false)
      ensures Onward(old(trace), old(schedule), trace, schedule)
      ensures var p := Answered(NextReply(old(replies)), false); var f := PostedFlags(old(Now()).(complete := false), p); out == WaitOutcome(Waited(c, p, f, old(schedule)).0)
      ensures var p := Answered(NextReply(old(replies)), false); var w := Waited(c, p, PostedFlags(old(Now()).(complete := false), p), old(schedule)); schedule == w.1 && complete == w.0.complete && replies == LaterReplies(old(replies))
    {
      hide Serve, Inv, Went, Onward, Step, Callback, AfterLoop, Scatter, Concat;
      PostFetch();
      ghost var t, s := trace, schedule;
      var p := Answer(RecvWait);
      OnwardTrans(old(trace), old(schedule), t, s, trace, schedule);
      t, s := trace, schedule;
      out := RequestWait(p, RecvWait);
      OnwardTrans(old(trace), old(schedule), t, s, trace, schedule);
      if out.Hung? { return; }
      t, s := trace, schedule;
      FinishFetch();
      OnwardTrans(old(trace), old(schedule), t, s, trace, schedule);
    }

    /** The server's part of send_recv_am. */
    method SendRecvAm() returns (out: Outcome)
      requires Valid() && m.pc.Iterate? && m.i < c.iterations
      modifies this
      ensures Valid() && |schedule| <= |old(schedule)|
      ensures out == Returned(0) ==> m.pc.Iterate? && m.i == old(m.i) + 1
      ensures out.Returned? && out.ret != 0 ==> out.ret == -1 && m.pc == Spin(ErrClosing, false)
      ensures Onward(old(trace), old(schedule), trace, schedule)
      ensures !NextReply(old(replies)).ok ==> out == Returned(-1) && schedule == old(schedule)
      ensures NextReply(old(replies)).ok ==> (out, complete, schedule, replies) == Iterated(c, old(Now()), LaterReplies(old(replies)), old(schedule))
    {
      hide Serve, Inv, Went, Onward, Step, Callback, AfterLoop, Scatter, Concat;
      var ok := BeginReceive();
      if !ok { return Returned(-1); }
      while !complete && schedule != []
        invariant Valid() && m.pc == Spin(AmWait, false) && m.i == old(m.i) && |schedule| <= |old(schedule)|
        invariant replies == LaterReplies(old(replies))
        invariant Until(c, HasMessage(), Now(), schedule) == Until(c, HasMessage(), old(Now()).(request := Pending), old(schedule))
        invariant Onward(old(trace), old(schedule), trace, schedule)
        decreases |schedule|
      {
        ghost var t, s := trace, schedule;
        Progress(AmWait);
        OnwardTrans(old(trace), old(schedule), t, s, trace, schedule);
      }
      if !complete { return Hung; }
      ghost var t, s := trace, schedule;
      if isRndv {
        out := Fetch();
      } else {
        FinishEager();
        out := Returned(0);
      }
      OnwardTrans(old(trace), old(schedule), t, s, trace, schedule);
    }

    /** request_wait: at once for NULL and for an error pointer, else it progresses. */
    method RequestWait(p: Posted, ghost loop: Loop) returns (out: Outcome)
      requires Valid() && m.pc == Spin(loop, false) && (loop.RecvWait? || loop.FinWait?)
      requires Now() == PostedFlags(Now(), p)
      modifies this
      ensures Valid() && m.pc == Spin(loop, false) && m.i == old(m.i) && |schedule| <= |old(schedule)|
      ensures out.Returned? ==> !request.Pending? && out.ret == if request.Failed? then -1 else 0
      ensures !p.Queued? ==> m == old(m) && schedule == old(schedule) && out == Returned(if p.Null? then 0 else -1)
      ensures Onward(old(trace), old(schedule), trace, schedule)
      ensures (Now(), schedule) == Waited(c, p, old(Now()), old(schedule)) && out == WaitOutcome(Now())
      ensures operation == old(operation) && replies == old(replies)
    {
      hide Serve, Inv, Went, Onward, Step, Callback, AfterLoop, Scatter, Concat;
      OnwardNowhere(trace, schedule);
      if p.Null? { return Returned(0); }
      if p.ErrorPtr? { return Returned(-1); }
      while request.Pending? && schedule != []
        invariant Valid() && m.pc == Spin(loop, false) && m.i == old(m.i) && |schedule| <= |old(schedule)|
        invariant Onward(old(trace), old(schedule), trace, schedule)
        invariant operation == old(operation) && replies == old(replies)
        invariant Until(c, IsSettled(), Now(), schedule) == Until(c, IsSettled(), old(Now()), old(schedule))
        decreases |schedule|
      {
        ghost var t, s := trace, schedule;
        Progress(loop);
        OnwardTrans(old(trace), old(schedule), t, s, trace, schedule);
      }
      if request.Pending? { return Hung; }
      out := Returned(if request.Failed? then -1 else 0);
    }

    /** fill_request_param for the FIN, in the role of the sender. */
    method BeginFin() returns (ok: bool)
      requires Valid() && m.pc.Iterate? && m.i == c.iterations
      modifies this
      ensures Valid() && schedule == old(schedule)
      ensures m.pc == Spin(if ok then FinWait else ErrClosing, false)
      ensures ok ==> operation.Sending? && request.Pending?
      ensures Onward(old(trace), old(schedule), trace, schedule)
      ensures ok == NextReply(old(replies)).ok && replies == LaterReplies(old(replies))
      ensures ok ==> Now() == old(Now()).(request := Pending, busy := true)
    {
      hide Serve, Inv, Went, Onward, Step, Callback, AfterLoop, Scatter, Concat;
      var parts;
      ok, parts := Allocate();
      if !ok {
        GiveUp();
      } else {
        Send(parts);
      }
    }

    /** request_finalize for the FIN: the buffers are freed either way. */
    method FinishFin()
      requires Valid() && m.pc == Spin(FinWait, false) && !request.Pending?
      modifies this
      ensures Valid() && schedule == old(schedule)
      ensures m.pc == Spin(if old(request).Failed? then ErrClosing else CloseWait, false)
      ensures Onward(old(trace), old(schedule), trace, schedule)
      ensures replies == old(replies) && connectionClosed == old(connectionClosed)
    {
      hide Serve, Inv, Went, Onward, Step, Callback, AfterLoop, Scatter, Concat;
      FinEnds(c, m);
      operation := Idle;
      heap := heap - {iov};
      Follow(Exit, if request.Failed? then Abort(m) else m.(pc := Spin(CloseWait, false), heap := m.heap - {m.iov}));
    }

    /** The FIN: the server's send in the reverse direction. */
    method SendFin() returns (out: Outcome)
      requires Valid() && m.pc.Iterate? && m.i == c.iterations
      modifies this
      ensures Valid() && |schedule| <= |old(schedule)|
      ensures out == Returned(0) ==> m.pc == Spin(CloseWait, false)
      ensures out.Returned? && out.ret != 0 ==> out.ret == -1 && m.pc == Spin(ErrClosing, false)
      ensures Onward(old(trace), old(schedule), trace, schedule)
      ensures !NextReply(old(replies)).ok ==> out == Returned(-1) && schedule == old(schedule)
      ensures NextReply(old(replies)).ok ==>
                var p := Answered(NextReply(LaterReplies(old(replies))), true);
                var w := Waited(c, p, PostedFlags(old(Now()), p), old(schedule));
                out == WaitOutcome(w.0) && schedule == w.1
    {
      hide Serve, Inv, Went, Onward, Step, Callback, AfterLoop, Scatter, Concat;
      var ok := BeginFin();
      if !ok { return Returned(-1); }
      ghost var t, s := trace, schedule;
      var p := Answer(FinWait);
      OnwardTrans(old(trace), old(schedule), t, s, trace, schedule);
      t, s := trace, schedule;
      out := RequestWait(p, FinWait);
      OnwardTrans(old(trace), old(schedule), t, s, trace, schedule);
      if out.Hung? { return; }
      t, s := trace, schedule;
      FinishFin();
      OnwardTrans(old(trace), old(schedule), t, s, trace, schedule);
    }

    /** client_server_do_work for the server, from the admission of a client.  `heard` is
        what the callback heard meanwhile, which came off the schedule: if that are no more
        messages than iterations, no eager one right after a rendezvous one, and the work
        returns 0, then there was one message for each iteration, each was received intact
        in its own, and the server is left as it was before.  In an environment in which all
        goes well for a client with the messages `msgs` it does return 0. */
    method DoWork(ghost msgs: seq<Message>) returns (out: Outcome, ghost heard: seq<Message>)
      requires Valid() && m.pc.Accept?
      modifies this
      ensures Valid() && |schedule| <= |old(schedule)|
      ensures out == Returned(0) ==> m.pc == Spin(EpClosing, false) && |got| == c.iterations
      ensures out.Returned? && out.ret != 0 ==> out.ret == -1 && m.pc == Spin(ErrClosing, false)
      ensures Went(old(trace) + [Admit], trace, heard) && heard + Arrivals(schedule) == Arrivals(old(schedule))
      ensures out == Returned(0) && Unspoilt(old(m)) && |heard| <= c.iterations && NoEagerAfterRndv(heard) ==>
                |heard| == c.iterations && Matches(got, heard, c.iterations) && Unspoilt(m)
      ensures GoesWell(c, msgs, old(complete), old(replies), old(schedule)) ==> out == Returned(0)
      ensures Admissions(trace) == Admissions(old(trace)) + 1
    {
      connectionClosed, got := false, [];
      ghost var s0 := m.(pc := Iterate, i := 0, closed := false, got := []);
      Follow(Admit, s0);
      ghost var t0 := trace;
      out := Work(msgs);
      AdmitsOne(old(trace));
      OnwardAdmitsNone(t0, old(schedule), trace, schedule);
      heard := HeardMeanwhile(t0, old(schedule), trace, schedule);
      if out == Returned(0) { WorkReceives(c, t0, s0, trace, m, heard); }
    }

    /** The iterations, the FIN and the wait for the client to close. */
    method Work(ghost msgs: seq<Message>) returns (out: Outcome)
      requires Valid() && m.pc.Iterate? && m.i == 0
      modifies this
      ensures Valid() && |schedule| <= |old(schedule)|
      ensures out == Returned(0) ==> m.pc == Spin(EpClosing, false) && |got| == c.iterations
      ensures out.Returned? && out.ret != 0 ==> out.ret == -1 && m.pc == Spin(ErrClosing, false)
      ensures GoesWell(c, msgs, old(complete), old(replies), old(schedule)) ==> out == Returned(0)
      ensures Onward(old(trace), old(schedule), trace, schedule)
    {
      hide Serve, Inv, Went, Onward, Step, Callback, AfterLoop, Scatter, Concat;
      hide GoesWell, ServingSchedule, Until, Iterated;
      OnwardNowhere(trace, schedule);
      ghost var well := GoesWell(c, msgs, complete, replies, schedule);
      if well { WellAtStart(c, msgs, complete, replies, schedule); }
      var i := 0;
      while i < c.iterations
        invariant Valid() && m.pc.Iterate? && m.i == i <= c.iterations && |schedule| <= |old(schedule)|
        invariant Onward(old(trace), old(schedule), trace, schedule)
        invariant well ==> WellFrom(c, msgs, i, complete, replies, schedule)
      {
        ghost var t, s := trace, schedule;
        if well { WellIteration(c, msgs, i, Now(), replies, schedule); }
        out := SendRecvAm();
        OnwardTrans(old(trace), old(schedule), t, s, trace, schedule);
        if out != Returned(0) { return; }
        i := i + 1;
      }
      ghost var t, s := trace, schedule;
      if well { WellEnd(c, msgs, Now(), replies, schedule); }
      out := SendFin();
      OnwardTrans(old(trace), old(schedule), t, s, trace, schedule);
      if out != Returned(0) { return; }
      t, s := trace, schedule;
      if well { CloseEnds(c, Now()); }
      out := AwaitClose();
      OnwardTrans(old(trace), old(schedule), t, s, trace, schedule);
    }

    /** The server waits until the client has closed the connection. */
    method AwaitClose() returns (out: Outcome)
      requires Valid() && m.pc == Spin(CloseWait, false)
      modifies this
      ensures Valid() && |schedule| <= |old(schedule)|
      ensures out == Hung || out == Returned(0)
      ensures out == Returned(0) ==> m.pc == Spin(EpClosing, false) && |got| == c.iterations
      ensures Onward(old(trace), old(schedule), trace, schedule)
      ensures var w := Until(c, IsClosed(), old(Now()), old(schedule)); out == (if w.0.closed then Returned(0) else Hung) && schedule == w.1
    {
      hide Serve, Inv, Went, Onward, Callback, Scatter, Concat;
      OnwardNowhere(trace, schedule);
      while !connectionClosed && schedule != []
        invariant Valid() && m.pc == Spin(CloseWait, false) && |schedule| <= |old(schedule)|
        invariant Until(c, IsClosed(), Now(), schedule) == Until(c, IsClosed(), old(Now()), old(schedule))
        invariant Onward(old(trace), old(schedule), trace, schedule)
        decreases |schedule|
      {
        ghost var t, s := trace, schedule;
        Progress(CloseWait);
        OnwardTrans(old(trace), old(schedule), t, s, trace, schedule);
      }
      if !connectionClosed { return Hung; }
      Facts(c, trace, m);
      ghost var t, s := trace, schedule;
      Follow(Exit, m.(pc := Spin(EpClosing, false)));
      OnwardTrans(old(trace), old(schedule), t, s, trace, schedule);
      out := Returned(0);
    }

    /** ep_close: any number of progress calls. */
    method EpClose(ghost loop: Loop)
      requires Valid() && m.pc == Spin(loop, false) && (loop.EpClosing? || loop.ErrClosing?)
      modifies this
      ensures Valid() && m.pc == (if loop.EpClosing? then Accept else Exited) && |schedule| <= |old(schedule)|
      ensures Onward(old(trace), old(schedule), trace, schedule)
      ensures var k := NextReply(old(replies)).rounds; schedule == old(schedule)[if k <= |old(schedule)| then k else |old(schedule)|..]
      ensures replies == LaterReplies(old(replies))
    {
      hide Serve, Inv, Went, Onward, Callback, Scatter, Concat;
      OnwardNowhere(trace, schedule);
      var reply := Ask();
      var k := 0;
      while k < reply.rounds && schedule != []
        invariant Valid() && m.pc == Spin(loop, false) && |schedule| <= |old(schedule)|
        invariant k <= reply.rounds && k <= |old(schedule)| && schedule == old(schedule)[k..] && replies == LaterReplies(old(replies))
        invariant Onward(old(trace), old(schedule), trace, schedule)
        decreases |schedule|
      {
        ghost var t, s := trace, schedule;
        Progress(loop);
        OnwardTrans(old(trace), old(schedule), t, s, trace, schedule);
        k := k + 1;
      }
      ghost var t, s := trace, schedule;
      Follow(Exit, AfterLoop(m, m.pc.loop).value);
      OnwardTrans(old(trace), old(schedule), t, s, trace, schedule);
    }

    /** server_create_ep; if it fails the server stops without any endpoint to close. */
    method CreateEp() returns (ok: bool)
      requires Valid() && m.pc.Accept?
      modifies this
      ensures Valid() && schedule == old(schedule) && m.pc == if ok then Accept else Exited
      ensures Onward(old(trace), old(schedule), trace, schedule)
      ensures ok == NextReply(old(replies)).ok && replies == LaterReplies(old(replies)) && complete == old(complete)
    {
      hide Serve, Inv, Went, Onward, Callback, AfterLoop, Scatter;
      OnwardNowhere(trace, schedule);
      var reply := Ask();
      ok := reply.ok;
      if !ok { Follow(EpFailed, m.(pc := Exited)); }
    }

    /** run_server, cut off after `sessions` clients: it goes on to the next client
        only after a session that returned 0.  Whatever it does is a run of the
        machine, so what is proved of all runs holds of it. */
    method RunServer(sessions: nat, ghost msgs: seq<Message>) returns (out: Outcome)
      requires Valid() && m.pc.Accept?
      modifies this
      ensures Valid() && Serve(c, trace) == Some(m)
      ensures out == Returned(0) ==> m.pc.Accept? && heap == map[]
      ensures out == Returned(0) ==> Admissions(trace) == Admissions(old(trace)) + sessions
      ensures sessions == 1 && GoesWell(c, msgs, old(complete), old(replies), old(schedule)) ==> out == Returned(0)
      ensures Admissions(old(trace)) <= Admissions(trace) <= Admissions(old(trace)) + sessions
      ensures out.Returned? && out.ret != 0 ==> m.pc.Exited? && heap == map[]
    {
      hide Serve, Inv, Went, Onward, Matches, NoEagerAfterRndv, Unspoilt, GoesWell, Admissions;
      out := Returned(0);
      var k := 0;
      while k < sessions && out == Returned(0)
        invariant Valid() && k <= sessions
        invariant k == 0 ==> out == Returned(0)
        invariant k == 0 ==> (complete, replies, schedule) == old((complete, replies, schedule))
        invariant k == 1 == sessions && GoesWell(c, msgs, old(complete), old(replies), old(schedule)) ==> out == Returned(0)
        invariant Admissions(old(trace)) <= Admissions(trace) <= Admissions(old(trace)) + k
        invariant out == Returned(0) ==> Admissions(trace) == Admissions(old(trace)) + k
        invariant out == Returned(0) ==> m.pc.Accept?
        invariant out.Returned? && out.ret != 0 ==> m.pc.Exited?
        decreases sessions - k
      {
        ghost var t, s := trace, schedule;
        if GoesWell(c, msgs, complete, replies, schedule) { WellReplies(c, msgs, complete, replies, schedule); }
        var created := CreateEp();
        OnwardAdmitsNone(t, s, trace, schedule);
        if !created {
          out := Returned(-1);
        } else {
          ghost var heard;
          out, heard := DoWork(msgs);
          t, s := trace, schedule;
          if out.Returned? {
            EpClose(if out.ret == 0 then EpClosing else ErrClosing);
            OnwardAdmitsNone(t, s, trace, schedule);
          }
        }
        k := k + 1;
      }
      Facts(c, trace, m);
    }
  }
}
