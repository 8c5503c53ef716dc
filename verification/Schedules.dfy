/** Runs that exist: how an orderly session goes, and the schedules that break one. */
module Schedules {
  import opened Bytes
  import opened Machine
  import opened ServerMachine
  import opened Session
  import opened Integrity

  /** Between two iterations, with everything sent so far received. */
  ghost predicate Clean(c: Config, w: World, k: nat) {
    && w.server.pc.Iterate? && w.server.i == k
    && !w.server.slot.complete
    && w.phase.Sending? && w.sent == k && w.chan == []
    && w.fin.Unsent?
  }

  /** An iteration begins: buffers with some content, recv_buf set. */
  lemma Await(c: Config, r: World -> bool, w: World, junk: seq<seq<Byte>>) returns (w': World)
    requires Saturated(Moves(c), r) && r(w) && c.mode.Am?
    requires w.server.pc.Iterate? && w.server.i < c.iterations && Shaped(junk, c.iovCnt, c.length)
    ensures r(w')
    ensures
      var s := w.server;
      w' == w.(server := s.(pc := Spin(AmWait, false), heap := s.heap[s.next := junk], iov := s.next,
                            next := s.next + 1, request := Pending, slot := s.slot.(recvBuf := Some(s.next))))
  {
    w' := Advance(Moves(c), r, w, Local(Start(junk)));
  }

  lemma CallbackIgnoresPc(c: Config, s: Server, m: Message, pc: Pc)
    ensures Callback(c, s.(pc := pc), m) == Callback(c, s, m).(pc := pc)
  {
  }

  /** One progress call in which one message arrives. */
  lemma Arrive(c: Config, r: World -> bool, w: World) returns (w': World)
    requires Saturated(Moves(c), r) && r(w) && c.mode.Am? && w.chan != []
    requires w.server.pc.Spin? && !w.server.pc.inside && Waiting(w.server, w.server.pc.loop)
    ensures r(w')
    ensures w' == w.(chan := w.chan[1..], server := Callback(c, w.server, w.chan[0]))
  {
    hide Callback;
    var loop, m := w.server.pc.loop, w.chan[0];
    CallbackIgnoresPc(c, w.server, m, Spin(loop, true));
    CallbackIgnoresPc(c, w.server, m, Spin(loop, false));
    w' := Advance(Moves(c), r, w, Local(Enter));
    assert w' == w.(server := w.server.(pc := Spin(loop, true)));
    w' := Advance(Moves(c), r, w', Deliver);
    assert w' == w.(chan := w.chan[1..], server := Callback(c, w.server, m).(pc := Spin(loop, true)));
    w' := Advance(Moves(c), r, w', Local(Leave));
    assert w.server.(pc := Spin(loop, false)) == w.server;
  }

  /** One progress call in which the rendezvous data arrive. */
  lemma Fetch(c: Config, r: World -> bool, w: World) returns (w': World)
    requires Saturated(Moves(c), r) && r(w) && c.mode.Am?
    requires w.server.pc == Spin(RecvWait, false) && w.server.request.Pending? && w.server.iov in w.server.heap
    requires |w.server.posted| == c.MessageSize()
    ensures r(w')
    ensures w' == w.(server := w.server.(
              request := Succeeded,
              heap := w.server.heap[w.server.iov := Scatter(w.server.posted, c.iovCnt, c.length)]))
  {
    w' := Advance(Moves(c), r, w, Local(Enter));
    w' := Advance(Moves(c), r, w', Local(RecvDone(w.server.posted)));
    w' := Advance(Moves(c), r, w', Local(Leave));
  }

  /** Message k is sent and its callback runs while the server waits for it. */
  lemma PickUp(c: Config, r: World -> bool, w: World, k: nat) returns (w': World)
    requires Saturated(Moves(c), r) && r(w) && c.mode.Am? && Clean(c, w, k) && k < c.iterations == |w.msgs|
    requires |w.msgs[k].data| == c.MessageSize()
    ensures r(w')
    ensures w'.msgs == w.msgs && w'.sent == k + 1 && w'.chan == [] && w'.phase == w.phase && w'.fin == w.fin
    ensures
      var s, m := w'.server, w.msgs[k];
      && s.pc == Spin(AmWait, false) && s.i == k && s.got == w.server.got
      && s.slot.complete && s.slot.isRndv == m.protocol.Rndv? && s.slot.recvBuf == Some(s.iov)
      && s.iov in s.heap && s.iov < s.next
      && if m.protocol.Rndv? then s.slot.desc == m.data else Concat(s.heap[s.iov]) == m.data
  {
    w' := Advance(Moves(c), r, w, ClientSend);
    w' := Await(c, r, w', Scatter(w.msgs[k].data, c.iovCnt, c.length));
    w' := Arrive(c, r, w');
  }

  /** The wait ends with a rendezvous message, whose receive is posted. */
  lemma Post(c: Config, r: World -> bool, w: World) returns (w': World)
    requires Saturated(Moves(c), r) && r(w)
    requires w.server.pc == Spin(AmWait, false) && w.server.slot.complete && w.server.slot.isRndv
    ensures r(w')
    ensures
      var s := w.server;
      w' == w.(server := s.(slot := s.slot.(complete := false), consumed := s.consumed + 1,
                            posted := s.slot.desc, request := Pending, pc := Spin(RecvWait, false)))
  {
    w' := Advance(Moves(c), r, w, Local(Exit));
  }

  /** One orderly iteration of the AM path. */
  lemma ReceiveAm(c: Config, r: World -> bool, w: World, k: nat) returns (w': World)
    requires Saturated(Moves(c), r) && r(w) && c.mode.Am? && Clean(c, w, k) && k < c.iterations == |w.msgs|
    requires |w.msgs[k].data| == c.MessageSize()
    ensures r(w') && Clean(c, w', k + 1)
    ensures w'.msgs == w.msgs && w'.server.got == w.server.got + [w.msgs[k].data]
  {
    w' := PickUp(c, r, w, k);
    if w.msgs[k].protocol.Rndv? {
      w' := Post(c, r, w');
      w' := Fetch(c, r, w');
    }
    w' := Advance(Moves(c), r, w', Local(Exit));
  }

  /** One orderly iteration in stream or tag mode. */
  lemma ReceiveFifo(c: Config, r: World -> bool, w: World, k: nat) returns (w': World)
    requires Saturated(Moves(c), r) && r(w) && !c.mode.Am? && Clean(c, w, k) && k < c.iterations == |w.msgs|
    requires |w.msgs[k].data| == c.MessageSize()
    ensures r(w') && Clean(c, w', k + 1)
    ensures w'.msgs == w.msgs && w'.server.got == w.server.got + [w.msgs[k].data]
  {
    w' := PostFifo(c, r, w, k);
    w' := Advance(Moves(c), r, w', Receive);
    w' := Advance(Moves(c), r, w', Local(Exit));
  }

  /** Message k is sent and a receive is posted for it. */
  lemma PostFifo(c: Config, r: World -> bool, w: World, k: nat) returns (w': World)
    requires Saturated(Moves(c), r) && r(w) && !c.mode.Am? && Clean(c, w, k) && k < c.iterations == |w.msgs|
    requires |w.msgs[k].data| == c.MessageSize()
    ensures r(w')
    ensures
      var s := w'.server;
      && w' == w.(server := s, sent := k + 1, chan := [w.msgs[k]])
      && s.pc == Spin(RecvWait, false) && s.request.Pending? && s.iov in s.heap
      && s.i == k && s.got == w.server.got && s.slot == w.server.slot
  {
    w' := Advance(Moves(c), r, w, ClientSend);
    w' := Advance(Moves(c), r, w', Local(Start(Scatter(w.msgs[k].data, c.iovCnt, c.length))));
  }

  /** From a clean point every later iteration can be reached in order. */
  lemma {:induction false} ReceiveUpTo(c: Config, r: World -> bool, w: World, k: nat, n: nat) returns (w': World)
    requires Saturated(Moves(c), r) && r(w) && Clean(c, w, k) && k <= n <= c.iterations == |w.msgs| && SizesAgree(c, w.msgs)
    requires |w.server.got| == k
    ensures r(w') && Clean(c, w', n)
    ensures w'.msgs == w.msgs && |w'.server.got| == n && w.server.got <= w'.server.got
    decreases n - k
  {
    w' := w;
    if k < n {
      if c.mode.Am? { w' := ReceiveAm(c, r, w, k); } else { w' := ReceiveFifo(c, r, w, k); }
      w' := ReceiveUpTo(c, r, w', k + 1, n);
    }
  }

  lemma Begin(c: Config, r: World -> bool, msgs: seq<Message>) returns (w: World)
    requires Saturated(Moves(c), r) && r(Start0) && |msgs| == c.iterations
    ensures r(w) && Clean(c, w, 0) && w.msgs == msgs && w.server.got == [] && w.server.heap == map[]
  {
    w := Advance(Moves(c), r, Start0, Connect(msgs));
  }

  /** A payload that differs from the given one. */
  function Flip(data: seq<Byte>): (r: seq<Byte>)
    requires data != []
    ensures |r| == |data| && r != data
  {
    [if data[0] == 0 then 1 else 0] + data[1..]
  }

  /** One progress call in which the rendezvous data arrive, the client sends its next
      message, and the callback of that runs too: its data land in the same buffers. */
  lemma FetchAndArrive(c: Config, r: World -> bool, w: World) returns (w': World)
    requires Saturated(Moves(c), r) && r(w) && c.mode.Am? && w.chan == [] && !w.server.slot.complete
    requires w.server.pc == Spin(RecvWait, false) && w.server.request.Pending? && w.server.iov in w.server.heap
    requires |w.server.posted| == c.MessageSize() && w.server.slot.recvBuf == Some(w.server.iov)
    requires w.phase.Sending? && w.sent < |w.msgs|
    requires |w.msgs[w.sent].data| == c.MessageSize() && w.msgs[w.sent].protocol.Eager?
    ensures r(w')
    ensures
      var s, m := w.server, w.msgs[w.sent];
      w' == w.(sent := w.sent + 1, server := s.(
        request := Succeeded, accepted := s.accepted + 1, slot := s.slot.(complete := true, isRndv := false),
        heap := s.heap[s.iov := Scatter(m.data, c.iovCnt, c.length)]))
  {
    var s, m := w.server, w.msgs[w.sent];
    w' := FetchInside(c, r, w);
    var s1 := w'.server;
    w' := Advance(Moves(c), r, w', ClientSend);
    assert w'.chan == [m];
    w' := CallbackInside(c, r, w', m);
    w' := Advance(Moves(c), r, w', Local(Leave));
    assert s1.heap[s.iov := Scatter(m.data, c.iovCnt, c.length)] == s.heap[s.iov := Scatter(m.data, c.iovCnt, c.length)];
  }

  lemma FetchInside(c: Config, r: World -> bool, w: World) returns (w': World)
    requires Saturated(Moves(c), r) && r(w) && c.mode.Am?
    requires w.server.pc == Spin(RecvWait, false) && w.server.request.Pending? && w.server.iov in w.server.heap
    requires |w.server.posted| == c.MessageSize()
    ensures r(w')
    ensures w' == w.(server := w.server.(
              pc := Spin(RecvWait, true), request := Succeeded,
              heap := w.server.heap[w.server.iov := Scatter(w.server.posted, c.iovCnt, c.length)]))
  {
    w' := Advance(Moves(c), r, w, Local(Enter));
    w' := Advance(Moves(c), r, w', Local(RecvDone(w.server.posted)));
  }

  lemma CallbackInside(c: Config, r: World -> bool, w: World, m: Message) returns (w': World)
    requires Saturated(Moves(c), r) && r(w) && c.mode.Am? && w.chan == [m] && Inside(w.server)
    ensures r(w') && w' == w.(chan := [], server := Callback(c, w.server, m))
  {
    hide Callback;
    w' := Advance(Moves(c), r, w, Deliver);
  }

  /** The schedule that breaks iteration k + 1: the eager callback runs while
      message k is still being fetched, so its data lands in the buffers of
      iteration k and iteration k + 1 reads buffers nobody wrote. */
  lemma Collide(c: Config, r: World -> bool, w: World, k: nat) returns (w': World)
    requires Saturated(Moves(c), r) && r(w) && c.mode.Am? && Clean(c, w, k) && k + 1 < c.iterations == |w.msgs| && SizesAgree(c, w.msgs)
    requires c.MessageSize() > 0 && |w.server.got| == k
    requires w.msgs[k].protocol.Rndv? && w.msgs[k + 1].protocol.Eager?
    ensures r(w') && Clean(c, w', k + 2)
    ensures w'.msgs == w.msgs && |w'.server.got| == k + 2 && w'.server.got[k + 1] != w.msgs[k + 1].data
  {
    w' := PickUp(c, r, w, k);
    w' := Post(c, r, w');
    w' := FetchAndArrive(c, r, w');
    w' := Advance(Moves(c), r, w', Local(Exit));
    w' := ReadStale(c, r, w', k + 1);
  }

  /** The slot is already set when the iteration begins: its buffers are taken as they are. */
  lemma ReadStale(c: Config, r: World -> bool, w: World, k: nat) returns (w': World)
    requires Saturated(Moves(c), r) && r(w) && c.mode.Am? && k < c.iterations == |w.msgs|
    requires |w.msgs[k].data| == c.MessageSize() > 0
    requires w.server.pc.Iterate? && w.server.i == k && w.server.slot.complete && !w.server.slot.isRndv
    requires w.phase.Sending? && w.sent == k + 1 && w.chan == [] && w.fin.Unsent? && |w.server.got| == k
    ensures r(w') && Clean(c, w', k + 1)
    ensures w'.msgs == w.msgs && |w'.server.got| == k + 1 && w'.server.got[k] != w.msgs[k].data
  {
    w' := Await(c, r, w, Scatter(Flip(w.msgs[k].data), c.iovCnt, c.length));
    w' := Advance(Moves(c), r, w', Local(Exit));
  }

  /** Every run that gets to the FIN with these messages received them all. */
  ghost predicate AlwaysReceived(c: Config, msgs: seq<Message>) {
    forall events :: Exec(c, events).Some? && Exec(c, events).value.msgs == msgs && ReachedFin(c, Exec(c, events).value.server)
      ==> Matches(Exec(c, events).value.server.got, msgs, c.iterations)
  }

  lemma BrokenRun(c: Config, r: World -> bool, msgs: seq<Message>, k: nat) returns (w: World)
    requires Saturated(Moves(c), r) && r(Start0) && c.mode.Am? && |msgs| == c.iterations && SizesAgree(c, msgs) && c.MessageSize() > 0
    requires k + 1 < |msgs| && msgs[k].protocol.Rndv? && msgs[k + 1].protocol.Eager?
    ensures r(w) && w.msgs == msgs && ReachedFin(c, w.server) && !Matches(w.server.got, msgs, c.iterations)
  {
    w := Begin(c, r, msgs);
    w := ReceiveUpTo(c, r, w, 0, k);
    w := Collide(c, r, w, k);
    var got := w.server.got;
    w := ReceiveUpTo(c, r, w, k + 2, c.iterations);
    assert w.server.got[k + 1] == got[k + 1];
  }

  /** Exactly when the AM path keeps its data: for all messages of the agreed size,
      every run delivers them all intact if and only if no eager message directly
      follows a rendezvous one.  All-eager and all-rendezvous sessions are intact. */
  lemma IntegrityExactly(c: Config, msgs: seq<Message>)
    requires c.mode.Am? && |msgs| == c.iterations && SizesAgree(c, msgs) && c.MessageSize() > 0
    ensures AlwaysReceived(c, msgs) <==> NoEagerAfterRndv(msgs)
  {
    if NoEagerAfterRndv(msgs) {
      forall events | Exec(c, events).Some? && Exec(c, events).value.msgs == msgs && ReachedFin(c, Exec(c, events).value.server)
        ensures Matches(Exec(c, events).value.server.got, msgs, c.iterations)
      {
        ReceivedEverything(c, events);
      }
    } else {
      var k :| 0 < k < |msgs| && msgs[k - 1].protocol.Rndv? && !msgs[k].protocol.Rndv?;
      ReachableIsSaturated(Moves(c), Start0);
      var w := BrokenRun(c, Reachable(Moves(c), Start0), msgs, k - 1);
      var events := RunTo(Moves(c), Start0, w);
      assert Exec(c, events) == Some(w);
    }
  }

  lemma StrayRun(c: Config, r: World -> bool) returns (w: World)
    requires Saturated(Moves(c), r) && r(Start0) && c.mode.Am? && c.iterations > 0 && c.iovCnt > 0
    ensures r(w) && w.server.stray > 0
  {
    var m := Message(Eager, seq(c.MessageSize(), _ => 0));
    w := Begin(c, r, seq(c.iterations, _ => m));
    w := AbortEarly(c, r, w);
    w := CallbackInside(c, r, w, m);
  }

  /** The first message is under way when the server fails to allocate, and is in ep_close. */
  lemma AbortEarly(c: Config, r: World -> bool, w: World) returns (w': World)
    requires Saturated(Moves(c), r) && r(w) && c.mode.Am? && Clean(c, w, 0) && 0 < c.iterations == |w.msgs|
    ensures r(w') && w'.chan == [w.msgs[0]]
    ensures w'.server == w.server.(pc := Spin(ErrClosing, true))
  {
    w' := Advance(Moves(c), r, w, ClientSend);
    w' := Advance(Moves(c), r, w', Local(StartFailed));
    w' := Advance(Moves(c), r, w', Local(Enter));
  }

  /** A copy through freed or missing buffers can happen in AM mode as soon as there
      is one message to send into at least one buffer, and never otherwise: allocation fails, and ep_close on
      the error path runs the callback of a message already under way. */
  lemma StrayPossibleExactly(c: Config)
    ensures (exists events :: Exec(c, events).Some? && Exec(c, events).value.server.stray > 0)
            <==> c.mode.Am? && c.iterations > 0 && c.iovCnt > 0
  {
    if c.mode.Am? && c.iterations > 0 && c.iovCnt > 0 {
      ReachableIsSaturated(Moves(c), Start0);
      var w := StrayRun(c, Reachable(Moves(c), Start0));
      var events := RunTo(Moves(c), Start0, w);
      assert Exec(c, events) == Some(w);
    } else {
      forall events | Exec(c, events).Some? ensures Exec(c, events).value.server.stray == 0 {
        ExecKeepsInv(c, events);
        hide InOrder;
      }
    }
  }

  lemma DroppedFinRun(c: Config, r: World -> bool, msgs: seq<Message>) returns (w: World)
    requires Saturated(Moves(c), r) && r(Start0)
    requires c.mode.Am? && |msgs| == c.iterations > 0 && SizesAgree(c, msgs)
    ensures r(w) && w.msgs == msgs && w.fin.Dropped?
  {
    w := Begin(c, r, msgs);
    w := ReceiveUpTo(c, r, w, 0, c.iterations);
    w := Advance(Moves(c), r, w, Local(Start(Scatter(msgs[0].data, c.iovCnt, c.length))));
    w := Advance(Moves(c), r, w, FinArrives);
  }

  /** In AM mode the FIN can be lost exactly when there was a message before it: it
      arrives while the client still completes its last send, before
      register_am_recv_callback. */
  lemma FinDroppableExactly(c: Config, msgs: seq<Message>)
    requires c.mode.Am? && |msgs| == c.iterations && SizesAgree(c, msgs)
    ensures (exists events :: Exec(c, events).Some? && Exec(c, events).value.msgs == msgs && Exec(c, events).value.fin.Dropped?)
            <==> c.iterations > 0
  {
    if c.iterations > 0 {
      ReachableIsSaturated(Moves(c), Start0);
      var w := DroppedFinRun(c, Reachable(Moves(c), Start0), msgs);
      var events := RunTo(Moves(c), Start0, w);
      assert Exec(c, events) == Some(w);
    } else {
      forall events | Exec(c, events).Some? ensures !Exec(c, events).value.fin.Dropped? {
        ExecKeepsInv(c, events);
        hide InOrder;
      }
    }
  }

  /** Some message before the last is eager, so that the client can send the next one
      while it is still under way. */
  predicate EagerBeforeLast(msgs: seq<Message>) {
    exists k :: 0 <= k < |msgs| - 1 && msgs[k].protocol.Eager?
  }

  /** Messages k and k + 1 in one progress call: the second callback overwrites the first. */
  lemma LossRun(c: Config, r: World -> bool, msgs: seq<Message>, k: nat) returns (w: World)
    requires Saturated(Moves(c), r) && r(Start0)
    requires c.mode.Am? && |msgs| == c.iterations && SizesAgree(c, msgs)
    requires k + 1 < |msgs| && msgs[k].protocol.Eager?
    ensures r(w) && w.msgs == msgs && w.server.lost > 0
  {
    w := Begin(c, r, msgs);
    w := ReceiveUpTo(c, r, w, 0, k);
    w := SendTwo(c, r, w, k);
    w := Await(c, r, w, Scatter(msgs[0].data, c.iovCnt, c.length));
    w := Advance(Moves(c), r, w, Local(Enter));
    w := DeliverOne(c, r, w);
    w := DeliverOne(c, r, w);
  }

  lemma SendTwo(c: Config, r: World -> bool, w: World, k: nat) returns (w': World)
    requires Saturated(Moves(c), r) && r(w) && Clean(c, w, k) && k + 1 < c.iterations == |w.msgs|
    requires w.msgs[k].protocol.Eager?
    ensures r(w') && w' == w.(sent := k + 2, chan := [w.msgs[k], w.msgs[k + 1]])
  {
    w' := Advance(Moves(c), r, w, ClientSend);
    w' := Advance(Moves(c), r, w', ClientSend);
    assert w'.chan == [w.msgs[k], w.msgs[k + 1]];
  }

  /** One callback inside a progress call. */
  lemma DeliverOne(c: Config, r: World -> bool, w: World) returns (w': World)
    requires Saturated(Moves(c), r) && r(w) && c.mode.Am? && Inside(w.server)
    requires w.chan != [] && |w.chan[0].data| == c.MessageSize()
    ensures r(w') && w'.msgs == w.msgs && w'.chan == w.chan[1..]
    ensures Inside(w'.server) && w'.server.slot.complete
    ensures w'.server.lost == if w.server.slot.complete then w.server.lost + 1 else w.server.lost
  {
    w' := Advance(Moves(c), r, w, Deliver);
  }

  /** With only rendezvous messages before the last, at most one message is on its way
      to the server or waiting in the slot. */
  ghost predicate OneAtATime(c: Config, w: World) {
    SizesAgree(c, w.msgs) && !EagerBeforeLast(w.msgs) ==>
      w.server.lost == 0 && |w.chan| <= 1 && (w.chan != [] ==> !w.server.slot.complete)
  }

  /** What the server does to its slot. */
  lemma SlotStep(c: Config, s: Server, a: Act)
    requires Step(c, s, a).Some?
    ensures
      var t := Step(c, s, a).value;
      && (!a.AmCallback? ==> t.lost == s.lost && (t.slot.complete ==> s.slot.complete))
      && (a.AmCallback? && !s.slot.complete ==> t.lost == s.lost)
  {
    hide Scatter, Concat;
  }

  /** What an event does to the messages under way. */
  lemma ChanStep(c: Config, w: World, e: Event)
    requires c.mode.Am? && Next(c, w, e).Some?
    ensures
      var t := Next(c, w, e).value;
      match e
      case Connect(_) => t.chan == []
      case ClientSend => |t.chan| == |w.chan| + 1 && t.server == w.server && w.sent < |w.msgs| && LastSendDone(c, w)
      case Deliver => w.chan != [] && |t.chan| == |w.chan| - 1
      case _ => t.chan == w.chan
  {
    hide Step;
  }

  /** The client's next message follows a rendezvous one that is out of the slot. */
  lemma SendOne(c: Config, w: World)
    requires c.mode.Am? && w.sent < |w.msgs| && LastSendDone(c, w) && |w.chan| <= w.sent
    requires SizesAgree(c, w.msgs) && !EagerBeforeLast(w.msgs) && (w.sent == 0 ==> !w.server.slot.complete)
    ensures w.chan == [] && !w.server.slot.complete
  {
    if w.sent > 0 { assert w.msgs[w.sent - 1].protocol.Rndv?; }
  }

  /** Before the first message is sent the slot is clear. */
  lemma ClearAtFirst(c: Config, w: World)
    requires c.mode.Am? && WorldInv(c, w)
    ensures |w.chan| <= w.sent && (w.sent == 0 && w.server.lost == 0 ==> !w.server.slot.complete)
  {
    ServerFacts(c, w.server);
    hide Inv, InOrder;
  }

  lemma NextKeepsOne(c: Config, w: World, e: Event)
    requires c.mode.Am? && WorldInv(c, w) && OneAtATime(c, w) && Next(c, w, e).Some?
    ensures OneAtATime(c, Next(c, w, e).value)
  {
    ServerStep(c, w, e);
    ChanStep(c, w, e);
    ClearAtFirst(c, w);
    if e.Connect? { ConnectIsClean(c, w, e.msgs); } else { MsgsFixed(c, w, e); }
    var a := ServerAct(w, e);
    if a.Some? { SlotStep(c, w.server, a.value); }
    hide Next, Step, WorldInv, SizesAgree, EagerBeforeLast;
    if e.ClientSend? && SizesAgree(c, w.msgs) && !EagerBeforeLast(w.msgs) { SendOne(c, w); }
  }

  lemma ConnectIsClean(c: Config, w: World, msgs: seq<Message>)
    requires WorldInv(c, w) && Next(c, w, Connect(msgs)).Some?
    ensures w.server.lost == 0 && Next(c, w, Connect(msgs)).value.server.lost == 0
  {
    hide Inv, InOrder;
  }

  lemma NothingLostOneAtATime(c: Config, events: seq<Event>)
    requires c.mode.Am? && Exec(c, events).Some?
    ensures OneAtATime(c, Exec(c, events).value)
  {
    StartInv(c);
    assert OneAtATime(c, Start0);
    hide Run, Next, WorldInv, OneAtATime;
    var inv := (w: World) => WorldInv(c, w) && OneAtATime(c, w);
    forall w: World, e: Event | inv(w) && Moves(c)(w, e).Some? ensures inv(Moves(c)(w, e).value) {
      NextKeepsInv(c, w, e);
      NextKeepsOne(c, w, e);
    }
    Invariance(Moves(c), Start0, inv, events);
  }

  /** A message can be lost, and the server with it, exactly when some message before the
      last is eager.  After a rendezvous message the client waits until the server has
      posted its receive, so that nothing can overwrite it. */
  lemma LossPossibleExactly(c: Config, msgs: seq<Message>)
    requires c.mode.Am? && |msgs| == c.iterations && SizesAgree(c, msgs)
    ensures (exists events :: Exec(c, events).Some? && Exec(c, events).value.msgs == msgs && Exec(c, events).value.server.lost > 0)
            <==> EagerBeforeLast(msgs)
  {
    if EagerBeforeLast(msgs) {
      var k :| 0 <= k < |msgs| - 1 && msgs[k].protocol.Eager?;
      ReachableIsSaturated(Moves(c), Start0);
      var w := LossRun(c, Reachable(Moves(c), Start0), msgs, k);
      var events := RunTo(Moves(c), Start0, w);
      assert Exec(c, events) == Some(w);
    } else {
      forall events | Exec(c, events).Some? && Exec(c, events).value.msgs == msgs ensures Exec(c, events).value.server.lost == 0 {
        NothingLostOneAtATime(c, events);
      }
    }
  }

  /** The way a session is meant to go exists for every list of messages: the client
      returns 0 and the server waits for the next one. */
  lemma WholeSession(c: Config, r: World -> bool, msgs: seq<Message>) returns (w: World)
    requires Saturated(Moves(c), r) && r(Start0)
    requires |msgs| == c.iterations && SizesAgree(c, msgs)
    ensures r(w) && w.msgs == msgs && w.ok && w.server.pc.Accept?
  {
    w := Begin(c, r, msgs);
    w := ReceiveUpTo(c, r, w, 0, c.iterations);
    w := Advance(Moves(c), r, w, ClientAwaitFin);
    w := ExchangeFin(c, r, w);
    w := PartWays(c, r, w);
  }

  lemma ExchangeFin(c: Config, r: World -> bool, w: World) returns (w': World)
    requires Saturated(Moves(c), r) && r(w)
    requires w.server.pc.Iterate? && w.server.i == c.iterations && w.phase.AwaitFin?
    ensures r(w') && w'.msgs == w.msgs && w'.phase.Closed? && w'.ok
    ensures w'.server.pc == Spin(FinWait, false) && w'.server.request.Succeeded?
  {
    var junk := Scatter(seq(c.MessageSize(), _ => 0), c.iovCnt, c.length);
    w' := Advance(Moves(c), r, w, Local(Start(junk)));
    w' := Advance(Moves(c), r, w', Local(SendDone));
    w' := Advance(Moves(c), r, w', FinArrives);
    w' := Advance(Moves(c), r, w', ClientReturns);
  }

  /** The client is gone: err_cb runs, at the latest in the close wait. */
  lemma NoticeClose(c: Config, r: World -> bool, w: World) returns (w': World)
    requires Saturated(Moves(c), r) && r(w) && w.phase.Closed? && w.ok
    requires w.server.pc == Spin(CloseWait, false)
    ensures r(w') && w'.msgs == w.msgs && w'.ok && w'.server.pc == Spin(CloseWait, false) && w'.server.closed
  {
    w' := w;
    if !w.server.closed {
      w' := Advance(Moves(c), r, w', Local(Enter));
      w' := Advance(Moves(c), r, w', PeerGone);
      w' := Advance(Moves(c), r, w', Local(Leave));
    }
  }

  lemma PartWays(c: Config, r: World -> bool, w: World) returns (w': World)
    requires Saturated(Moves(c), r) && r(w) && w.phase.Closed? && w.ok
    requires w.server.pc == Spin(FinWait, false) && w.server.request.Succeeded?
    ensures r(w') && w'.msgs == w.msgs && w'.ok && w'.server.pc.Accept?
  {
    w' := Advance(Moves(c), r, w, Local(Exit));
    w' := NoticeClose(c, r, w');
    w' := Advance(Moves(c), r, w', Local(Exit));
    w' := Advance(Moves(c), r, w', Local(Exit));
  }

  /** So in all three modes there are runs to which the results about finished sessions
      apply, for any messages of the agreed size. */
  lemma SessionCanSucceed(c: Config, msgs: seq<Message>)
    requires |msgs| == c.iterations && SizesAgree(c, msgs)
    ensures exists events :: Exec(c, events).Some? && Exec(c, events).value.msgs == msgs
                             && Exec(c, events).value.ok && Exec(c, events).value.server.pc.Accept?
  {
    ReachableIsSaturated(Moves(c), Start0);
    var w := WholeSession(c, Reachable(Moves(c), Start0), msgs);
    var events := RunTo(Moves(c), Start0, w);
    assert Exec(c, events) == Some(w);
  }
}
