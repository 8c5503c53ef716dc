/** What a run of ServerMachine is in terms of Session: the server's part of a session is
    such a run, and a run that hears a client's messages in order receives them as a session
    does. */
module Served {
  import opened Bytes
  import opened Machine
  import opened ServerMachine
  import opened Session
  import opened Integrity

  /** The server's part of every run of Session is a run of the server. */
  lemma ServerPart(c: Config, events: seq<Event>)
    requires Exec(c, events).Some?
    ensures Reachable(Steps(c), Init)(Exec(c, events).value.server)
  {
    var r := Reachable(Steps(c), Init);
    ReachableIsSaturated(Steps(c), Init);
    var inv := (w: World) => r(w.server);
    hide Run, Reachable, Next, Step;
    forall w: World, e: Event | inv(w) && Moves(c)(w, e).Some? ensures inv(Moves(c)(w, e).value) {
      ServerStep(c, w, e);
      var a := ServerAct(w, e);
      if a.Some? { var s := Advance(Steps(c), r, w.server, a.value); }
    }
    Invariance(Moves(c), Start0, inv, events);
  }

  /** The messages handed to the callback. */
  function Heard(acts: seq<Act>): seq<Message> {
    if acts == [] then []
    else
      var last := acts[|acts| - 1];
      Heard(acts[..|acts| - 1]) + if last.AmCallback? then [last.m] else []
  }

  lemma {:induction false} HeardConcat(a: seq<Act>, b: seq<Act>)
    ensures Heard(a + b) == Heard(a) + Heard(b)
    decreases |b|
  {
    if b == [] {
      assert a + b == a;
    } else {
      var front := b[..|b| - 1];
      assert (a + b)[..|a + b| - 1] == a + front;
      HeardConcat(a, front);
    }
  }

  predicate NoAdmit(acts: seq<Act>) { forall k | 0 <= k < |acts| :: !acts[k].Admit? }

  /** A session has just begun, after sessions that went well. */
  ghost predicate Begins(c: Config, s: Server) {
    && Inv(c, s) && s.pc.Iterate? && s.i == 0 && s.got == [] && !s.closed
    && !s.slot.complete && s.lost == 0 && s.stray == 0
  }

  /** The session that has fed the server its messages so far, all that the callback heard. */
  ghost predicate Fed(c: Config, w: World, s: Server, msgs: seq<Message>, heard: nat) {
    && WorldInv(c, w) && AmDataInv(c, w)
    && w.server == s && w.msgs == msgs && w.sent == heard && w.chan == [] && w.phase.Closed?
  }

  lemma FeedMessage(c: Config, w: World, m: Message) returns (t: World)
    requires c.mode.Am? && Fed(c, w, w.server, w.msgs, w.sent) && NoEagerAfterRndv(w.msgs)
    requires w.sent < |w.msgs| && m == w.msgs[w.sent] && Step(c, w.server, AmCallback(m)).Some?
    ensures Fed(c, t, Step(c, w.server, AmCallback(m)).value, w.msgs, w.sent + 1)
  {
    var u := w.(sent := w.sent + 1, chan := [m]);
    PushKeepsOrder(w.msgs, w.sent, w.chan);
    assert [] + [m] == [m];
    assert WorldInv(c, u) && AmDataInv(c, u) by { hide Inv, InOrder; }
    hide Inv, InOrder, WorldInv, AmDataInv, Step;
    t := Next(c, u, Deliver).value;
    NextKeepsInv(c, u, Deliver);
    NextKeepsData(c, u, Deliver);
  }

  lemma FeedOther(c: Config, w: World, a: Act) returns (t: World)
    requires c.mode.Am? && Fed(c, w, w.server, w.msgs, w.sent) && NoEagerAfterRndv(w.msgs)
    requires !a.AmCallback? && !a.Admit? && Step(c, w.server, a).Some?
    ensures Fed(c, t, Step(c, w.server, a).value, w.msgs, w.sent)
  {
    var e := if a.ErrCallback? then PeerGone else Local(a);
    hide Inv, InOrder, WorldInv, AmDataInv, Step;
    t := Next(c, w, e).value;
    NextKeepsInv(c, w, e);
    NextKeepsData(c, w, e);
  }

  lemma BeginFed(c: Config, s: Server, msgs: seq<Message>) returns (w: World)
    requires c.mode.Am? && Begins(c, s) && |msgs| == c.iterations
    ensures Fed(c, w, s, msgs, 0)
  {
    w := World(s, msgs, 0, [], Closed, false, Unsent, s.consumed);
    NothingInOrder(msgs);
    hide InOrder;
  }

  lemma {:induction false} Feed(c: Config, s: Server, msgs: seq<Message>, acts: seq<Act>) returns (w: World)
    requires c.mode.Am? && Begins(c, s) && |msgs| == c.iterations && NoEagerAfterRndv(msgs)
    requires NoAdmit(acts) && Heard(acts) <= msgs && Run(Steps(c), s, acts).Some?
    ensures Fed(c, w, Run(Steps(c), s, acts).value, msgs, |Heard(acts)|)
    decreases |acts|
  {
    if acts == [] {
      w := BeginFed(c, s, msgs);
    } else {
      var front, a := acts[..|acts| - 1], acts[|acts| - 1];
      assert Heard(front) <= Heard(acts);
      w := Feed(c, s, msgs, front);
      hide Fed, Step, Begins, NoEagerAfterRndv;
      assert w.server == Run(Steps(c), s, front).value && w.msgs == msgs && w.sent == |Heard(front)| by { FedIs(c, w, Run(Steps(c), s, front).value, msgs, |Heard(front)|); }
      if a.AmCallback? {
        assert Heard(acts)[|Heard(front)|] == a.m;
        w := FeedMessage(c, w, a.m);
      } else {
        w := FeedOther(c, w, a);
      }
    }
  }

  lemma FedIs(c: Config, w: World, s: Server, msgs: seq<Message>, heard: nat)
    requires Fed(c, w, s, msgs, heard)
    ensures w.server == s && w.msgs == msgs && w.sent == heard
  {
  }

  /** A server that heard only a client's messages, in order, and got to the FIN has got
      every one in its own iteration, and lost none. */
  lemma HeardIsReceived(c: Config, s: Server, msgs: seq<Message>, acts: seq<Act>)
    requires c.mode.Am? && Begins(c, s) && |msgs| == c.iterations && NoEagerAfterRndv(msgs)
    requires NoAdmit(acts) && Heard(acts) <= msgs && Run(Steps(c), s, acts).Some?
    ensures
      var t := Run(Steps(c), s, acts).value;
      ReachedFin(c, t) ==> Heard(acts) == msgs && Matches(t.got, msgs, c.iterations) && t.lost == 0 && !t.slot.complete && t.stray == 0
  {
    var w := Feed(c, s, msgs, acts);
    if ReachedFin(c, w.server) {
      CountedOut(c, w);
      ServerFacts(c, w.server);
    }
    hide Inv, InOrder;
  }

  /** The same in terms of what was heard: no more messages than iterations, in an order that
      can be taken, are one for each iteration by the time the FIN is sent. */
  lemma ReceivedAsHeard(c: Config, s: Server, acts: seq<Act>)
    requires c.mode.Am? && Begins(c, s) && NoAdmit(acts) && Run(Steps(c), s, acts).Some?
    requires |Heard(acts)| <= c.iterations && NoEagerAfterRndv(Heard(acts))
    ensures
      var t, heard := Run(Steps(c), s, acts).value, Heard(acts);
      ReachedFin(c, t) ==> |heard| == c.iterations && Matches(t.got, heard, c.iterations) && t.lost == 0 && !t.slot.complete && t.stray == 0
  {
    // whatever else the client would have sent
    var rest := seq(c.iterations - |Heard(acts)|, _ => Message(Rndv, []));
    HeardIsReceived(c, s, Heard(acts) + rest, acts);
  }

  // ------------------------------------- what the callbacks and the receives leave behind

  predicate Accepted(c: Config, a: Act) { a.AmCallback? && |a.m.data| == c.MessageSize() }

  /** The last message of the right size that the callback heard. */
  function LastAccepted(c: Config, acts: seq<Act>): Option<Message> {
    if acts == [] then None
    else
      var last := acts[|acts| - 1];
      if Accepted(c, last) then Some(last.m) else LastAccepted(c, acts[..|acts| - 1])
  }

  /** The bytes that were put into the buffers last: what was in them when they were
      allocated, an eager message, or the data of a receive. */
  function LastWrite(c: Config, acts: seq<Act>): Option<seq<Byte>> {
    if acts == [] then None
    else
      var last := acts[|acts| - 1];
      if last.Start? then Some(Concat(last.junk))
      else if last.RecvDone? then Some(last.data)
      else if Accepted(c, last) && last.m.protocol.Eager? then Some(last.m.data)
      else LastWrite(c, acts[..|acts| - 1])
  }

  /** Slot and buffers show the last message and the last write. */
  ghost predicate Shows(c: Config, s: Server, accepted: Option<Message>, write: Option<seq<Byte>>) {
    && (s.slot.complete ==> accepted.Some?)
    && (accepted.Some? ==>
          && s.slot.isRndv == accepted.value.protocol.Rndv?
          && (accepted.value.protocol.Rndv? ==> s.slot.desc == accepted.value.data))
    && (Receiving(s) ==> s.iov in s.heap && write == Some(Concat(s.heap[s.iov])))
  }

  lemma CallbackShows(c: Config, s: Server, m: Message, accepted: Option<Message>, write: Option<seq<Byte>>)
    requires Inv(c, s) && Shows(c, s, accepted, write) && Step(c, s, AmCallback(m)).Some?
    ensures
      var t, ok := Step(c, s, AmCallback(m)).value, |m.data| == c.MessageSize();
      && Shows(c, t, if ok then Some(m) else accepted, if ok && m.protocol.Eager? then Some(m.data) else write)
      && (ok ==> t.slot.complete)
  {
  }

  lemma StepShows(c: Config, s: Server, a: Act, accepted: Option<Message>, write: Option<seq<Byte>>)
    requires Inv(c, s) && Shows(c, s, accepted, write) && Step(c, s, a).Some? && !a.AmCallback?
    ensures
      var t := Step(c, s, a).value;
      Shows(c, t, accepted, if a.Start? then Some(Concat(a.junk)) else if a.RecvDone? then Some(a.data) else write)
  {
  }

  /** In every run of the server, whatever the environment does: the slot shows the last
      message accepted, and the buffers of a receive under way hold what was written last. */
  lemma {:induction false} LastOneWins(c: Config, acts: seq<Act>)
    requires Serve(c, acts).Some?
    ensures Shows(c, Serve(c, acts).value, LastAccepted(c, acts), LastWrite(c, acts))
  {
    if acts != [] {
      var front, a := acts[..|acts| - 1], acts[|acts| - 1];
      LastOneWins(c, front);
      ServeKeepsInv(c, front);
      hide Inv, Step, Shows;
      var s := Serve(c, front).value;
      if a.AmCallback? {
        CallbackShows(c, s, a.m, LastAccepted(c, front), LastWrite(c, front));
      } else {
        StepShows(c, s, a, LastAccepted(c, front), LastWrite(c, front));
      }
    } else {
      assert Shows(c, Init, None, None);
    }
  }

  /** A message of the right size takes the slot, and if it is eager the buffers of the
      receive under way, also from a message that was there already. */
  lemma MessageTakesSlot(c: Config, acts: seq<Act>, m: Message)
    requires Serve(c, acts + [AmCallback(m)]).Some? && |m.data| == c.MessageSize()
    ensures
      var s := Serve(c, acts + [AmCallback(m)]).value;
      && s.slot.complete && s.slot.isRndv == m.protocol.Rndv?
      && (m.protocol.Rndv? ==> s.slot.desc == m.data)
      && (m.protocol.Eager? && Receiving(s) ==> s.iov in s.heap && Concat(s.heap[s.iov]) == m.data)
  {
    var all := acts + [AmCallback(m)];
    assert all[..|all| - 1] == acts;
    LastOneWins(c, all);
    LastOneWins(c, acts);
    ServeKeepsInv(c, acts);
    CallbackShows(c, Serve(c, acts).value, m, LastAccepted(c, acts), LastWrite(c, acts));
    hide Inv, Step;
  }

  /** What an iteration receives, in every run: the bytes written last into its buffers.
      A rendezvous receive is posted for the last message accepted.  Nothing else is ever
      counted as received. */
  lemma IterationReceives(c: Config, acts: seq<Act>, a: Act)
    requires Serve(c, acts).Some? && Serve(c, acts + [a]).Some?
    ensures
      var s, t := Serve(c, acts).value, Serve(c, acts + [a]).value;
      && (a == Exit && Receiving(s) && t.pc.Iterate? ==>
            LastWrite(c, acts).Some? && t.got == s.got + [LastWrite(c, acts).value])
      && (a == Exit && InLoop(s, AmWait) && InLoop(t, RecvWait) ==>
            LastAccepted(c, acts).Some? && LastAccepted(c, acts).value.protocol.Rndv? && t.posted == LastAccepted(c, acts).value.data)
      && (t.got != s.got ==> a.Admit? || (a == Exit && Receiving(s) && t.pc.Iterate?))
  {
    Extend(Steps(c), Init, acts, a);
    LastOneWins(c, acts);
    ServeKeepsInv(c, acts);
    var s := Serve(c, acts).value;
    ReceiveStep(c, s, a);
    hide Inv, Step, LastWrite, LastAccepted;
  }

  lemma ReceiveStep(c: Config, s: Server, a: Act)
    requires Inv(c, s) && Step(c, s, a).Some?
    ensures
      var t := Step(c, s, a).value;
      && (a == Exit && Receiving(s) && t.pc.Iterate? ==> s.iov in s.heap && t.got == s.got + [Concat(s.heap[s.iov])])
      && (a == Exit && InLoop(s, AmWait) && InLoop(t, RecvWait) ==> s.slot.complete && s.slot.isRndv && t.posted == s.slot.desc)
      && (t.got != s.got ==> a.Admit? || (a == Exit && Receiving(s) && t.pc.Iterate?))
  {
    hide Scatter, Concat;
  }
}
