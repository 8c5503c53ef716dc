/** What the server ends up with: every message, in its own iteration. */
module Integrity {
  import opened Bytes
  import opened Machine
  import opened ServerMachine
  import opened Session

  /** No eager message directly follows a rendezvous one. */
  predicate NoEagerAfterRndv(msgs: seq<Message>) {
    forall k | 0 < k < |msgs| :: msgs[k - 1].protocol.Rndv? ==> msgs[k].protocol.Rndv?
  }

  predicate SizesAgree(c: Config, msgs: seq<Message>) {
    forall k | 0 <= k < |msgs| :: |msgs[k].data| == c.MessageSize()
  }

  /** Iteration k received message k, for every k below n. */
  predicate Matches(got: seq<seq<Byte>>, msgs: seq<Message>, n: nat) {
    |got| >= n && |msgs| >= n && forall k | 0 <= k < n :: got[k] == msgs[k].data
  }

  // ------------------------------------------------------- active messages

  /** No callback of this session was ignored or overwritten so far. */
  predicate Unharmed(w: World) {
    w.server.lost == 0 && w.server.accepted - w.base == DeliveredCount(w)
  }

  /** The slot holds message k as its callback left it. */
  ghost predicate SlotHolds(w: World, k: nat)
    requires k < |w.msgs|
  {
    var s := w.server;
    && s.slot.isRndv == w.msgs[k].protocol.Rndv?
    && (s.slot.isRndv ==> s.slot.desc == w.msgs[k].data)
    && (!s.slot.isRndv ==> InLoop(s, AmWait) && s.iov in s.heap && Concat(s.heap[s.iov]) == w.msgs[k].data)
  }

  ghost predicate AmDataInv(c: Config, w: World) {
    var s := w.server;
    Active(s) && Unharmed(w) ==>
      && Matches(s.got, w.msgs, s.i)
      && (s.slot.complete ==> DeliveredCount(w) == Taken(c, s) + 1 <= |w.msgs| && SlotHolds(w, Taken(c, s)))
      && (!s.slot.complete ==> DeliveredCount(w) == Taken(c, s))
      && (InLoop(s, RecvWait) ==>
            && s.i < |w.msgs|
            && w.msgs[s.i].protocol.Rndv?
            && s.posted == w.msgs[s.i].data
            && (s.request.Succeeded? ==> s.iov in s.heap && Concat(s.heap[s.iov]) == w.msgs[s.i].data))
  }

  lemma DeliverKeepsData(c: Config, w: World)
    requires c.mode.Am? && WorldInv(c, w) && NoEagerAfterRndv(w.msgs) && AmDataInv(c, w)
    requires Next(c, w, Deliver).Some?
    ensures AmDataInv(c, Next(c, w, Deliver).value)
  {
    hide InOrder;
    PopKeepsOrder(w.msgs, w.sent, w.chan);
    var t := Next(c, w, Deliver).value;
    if Active(t.server) && Unharmed(t) {
      if ReachedFin(c, w.server) { CountedOut(c, w); }
    }
  }

  lemma LoopExitKeepsData(c: Config, w: World)
    requires c.mode.Am? && WorldInv(c, w) && AmDataInv(c, w)
    requires Next(c, w, Local(Exit)).Some?
    ensures AmDataInv(c, Next(c, w, Local(Exit)).value)
  {
    hide InOrder;
    ServerFacts(c, w.server);
    hide Inv, Concat;
  }

  lemma LocalKeepsData(c: Config, w: World, a: Act)
    requires c.mode.Am? && WorldInv(c, w) && AmDataInv(c, w) && !a.Exit?
    requires Next(c, w, Local(a)).Some?
    ensures AmDataInv(c, Next(c, w, Local(a)).value)
  {
    hide InOrder;
    ServerFacts(c, w.server);
    hide Inv, Concat;
  }

  lemma NextKeepsData(c: Config, w: World, e: Event)
    requires c.mode.Am? && WorldInv(c, w) && NoEagerAfterRndv(w.msgs) && AmDataInv(c, w)
    requires Next(c, w, e).Some?
    ensures AmDataInv(c, Next(c, w, e).value)
  {
    hide InOrder;
    match e {
      case Local(a) => if a.Exit? { LoopExitKeepsData(c, w); } else { LocalKeepsData(c, w, a); }
      case Deliver => DeliverKeepsData(c, w);
      case _ =>
    }
  }

  lemma MsgsFixed(c: Config, w: World, e: Event)
    requires Next(c, w, e).Some? && !e.Connect?
    ensures Next(c, w, e).value.msgs == w.msgs
  {
  }

  lemma ConnectStartsClean(c: Config, w: World, msgs: seq<Message>)
    requires WorldInv(c, w) && Next(c, w, Connect(msgs)).Some?
    ensures c.mode.Am? ==> AmDataInv(c, Next(c, w, Connect(msgs)).value)
    ensures !c.mode.Am? ==> FifoDataInv(c, Next(c, w, Connect(msgs)).value)
  {
    hide InOrder;
  }

  ghost predicate OrderlyData(c: Config, w: World) {
    NoEagerAfterRndv(w.msgs) ==> AmDataInv(c, w)
  }

  lemma NextKeepsDataIf(c: Config, w: World, e: Event)
    requires c.mode.Am? && WorldInv(c, w) && Next(c, w, e).Some?
    requires OrderlyData(c, w)
    ensures OrderlyData(c, Next(c, w, e).value)
  {
    if e.Connect? {
      ConnectStartsClean(c, w, e.msgs);
    } else {
      MsgsFixed(c, w, e);
      if NoEagerAfterRndv(w.msgs) { NextKeepsData(c, w, e); }
    }
  }

  lemma StartsClean(c: Config)
    ensures WorldInv(c, Start0) && OrderlyData(c, Start0) && ModeData(c, Start0) && FinData(c, Start0)
  {
    StartInv(c);
    hide WorldInv;
  }

  lemma ExecKeepsData(c: Config, events: seq<Event>)
    requires c.mode.Am? && Exec(c, events).Some?
    ensures OrderlyData(c, Exec(c, events).value)
  {
    StartsClean(c);
    hide Run, Next, WorldInv, OrderlyData;
    var inv := (w: World) => WorldInv(c, w) && OrderlyData(c, w);
    forall w: World, e: Event | inv(w) && Moves(c)(w, e).Some? ensures inv(Moves(c)(w, e).value) {
      NextKeepsInv(c, w, e);
      NextKeepsDataIf(c, w, e);
    }
    Invariance(Moves(c), Start0, inv, events);
  }

  // ------------------------------------------------------- stream and tag

  ghost predicate FifoDataInv(c: Config, w: World) {
    var s := w.server;
    Active(s) ==>
      && Matches(s.got, w.msgs, s.i)
      && (InLoop(s, RecvWait) && s.request.Succeeded? ==>
            s.i < |w.msgs| && s.iov in s.heap && Concat(s.heap[s.iov]) == w.msgs[s.i].data)
  }

  lemma NextKeepsFifoData(c: Config, w: World, e: Event)
    requires !c.mode.Am? && WorldInv(c, w) && FifoDataInv(c, w) && Next(c, w, e).Some?
    ensures FifoDataInv(c, Next(c, w, e).value)
  {
    hide InOrder;
    match e {
      case Local(a) => FifoLocal(c, w, a);
      case Receive => PopKeepsOrder(w.msgs, w.sent, w.chan);
      case _ =>
    }
  }

  lemma FifoLocal(c: Config, w: World, a: Act)
    requires !c.mode.Am? && WorldInv(c, w) && FifoDataInv(c, w) && Next(c, w, Local(a)).Some?
    ensures FifoDataInv(c, Next(c, w, Local(a)).value)
  {
    hide InOrder;
  }

  lemma ExecKeepsFifoData(c: Config, events: seq<Event>)
    requires !c.mode.Am? && Exec(c, events).Some?
    ensures FifoDataInv(c, Exec(c, events).value)
  {
    StartsClean(c);
    hide Run, Next, WorldInv, FifoDataInv;
    var inv := (w: World) => WorldInv(c, w) && FifoDataInv(c, w);
    forall w: World, e: Event | inv(w) && Moves(c)(w, e).Some? ensures inv(Moves(c)(w, e).value) {
      NextKeepsInv(c, w, e);
      NextKeepsFifoData(c, w, e);
    }
    Invariance(Moves(c), Start0, inv, events);
  }

  // ------------------------------------------------------- main results

  /** A session that gets as far as the FIN received message k in iteration k, for
      every k: in stream and tag mode always, in AM mode when no eager
      message directly follows a rendezvous one.  A callback ignored for its size would
      have left the count short. */
  lemma ReceivedEverything(c: Config, events: seq<Event>)
    requires Exec(c, events).Some? && ReachedFin(c, Exec(c, events).value.server)
    requires c.mode.Am? ==> NoEagerAfterRndv(Exec(c, events).value.msgs)
    ensures
      var w := Exec(c, events).value;
      |w.server.got| == c.iterations && |w.msgs| == c.iterations && Matches(w.server.got, w.msgs, c.iterations)
  {
    hide InOrder;
    ExecKeepsInv(c, events);
    CountedOut(c, Exec(c, events).value);
    if c.mode.Am? { ExecKeepsData(c, events); } else { ExecKeepsFifoData(c, events); }
  }

  /** The messages are in an order the mode can take. */
  predicate Orderly(c: Config, msgs: seq<Message>) {
    c.mode.Am? ==> NoEagerAfterRndv(msgs)
  }

  /** Once the FIN is posted the server has everything, and keeps it. */
  ghost predicate FinData(c: Config, w: World) {
    !w.fin.Unsent? && Orderly(c, w.msgs) ==> Matches(w.server.got, w.msgs, c.iterations)
  }

  ghost predicate ModeData(c: Config, w: World) {
    if c.mode.Am? then OrderlyData(c, w) else FifoDataInv(c, w)
  }

  /** Nothing is received once the FIN is posted. */
  lemma GotFixed(c: Config, w: World, e: Event)
    requires WorldInv(c, w) && Next(c, w, e).Some? && !e.Connect? && !w.fin.Unsent?
    ensures Next(c, w, e).value.server.got == w.server.got
  {
    hide InOrder;
    hide Inv;
  }

  /** The FIN is posted only when all messages are there. */
  lemma PostedWithAll(c: Config, w: World)
    requires WorldInv(c, w) && ModeData(c, w) && w.server.pc.Iterate? && w.server.i == c.iterations
    ensures Orderly(c, w.msgs) ==> Matches(w.server.got, w.msgs, c.iterations)
  {
    hide InOrder;
    CountedOut(c, w);
    ServerFacts(c, w.server);
    hide Inv;
  }

  lemma OnlyStartPosts(c: Config, w: World, e: Event)
    requires Next(c, w, e).Some? && !e.Connect? && w.fin.Unsent? && !Next(c, w, e).value.fin.Unsent?
    ensures w.server.pc.Iterate? && w.server.i == c.iterations && Next(c, w, e).value.server.got == w.server.got
  {
  }

  lemma NextKeepsFinData(c: Config, w: World, e: Event)
    requires WorldInv(c, w) && ModeData(c, w) && FinData(c, w) && Next(c, w, e).Some?
    ensures FinData(c, Next(c, w, e).value)
  {
    if !e.Connect? {
      var t := Next(c, w, e).value;
      MsgsFixed(c, w, e);
      if !w.fin.Unsent? {
        GotFixed(c, w, e);
      } else if !t.fin.Unsent? {
        OnlyStartPosts(c, w, e);
        PostedWithAll(c, w);
      }
      hide Next, WorldInv, ModeData;
    }
  }

  lemma NextKeepsModeData(c: Config, w: World, e: Event)
    requires WorldInv(c, w) && ModeData(c, w) && Next(c, w, e).Some?
    ensures ModeData(c, Next(c, w, e).value)
  {
    if c.mode.Am? { NextKeepsDataIf(c, w, e); } else { NextKeepsFifoData(c, w, e); }
    hide Next, WorldInv, OrderlyData, FifoDataInv;
  }

  /** What a returned 0 tells the client: not only have all its messages been received,
      message k is what iteration k got, in stream and tag mode always and in AM mode for
      every order that can be taken. */
  lemma AcknowledgedIntact(c: Config, events: seq<Event>)
    requires Exec(c, events).Some? && Exec(c, events).value.ok && Orderly(c, Exec(c, events).value.msgs)
    ensures
      var w := Exec(c, events).value;
      |w.msgs| == c.iterations && Matches(w.server.got, w.msgs, c.iterations)
  {
    StartsClean(c);
    hide Run, Next, WorldInv, ModeData, FinData, Matches;
    var inv := (w: World) => WorldInv(c, w) && ModeData(c, w) && FinData(c, w);
    forall w: World, e: Event | inv(w) && Moves(c)(w, e).Some? ensures inv(Moves(c)(w, e).value) {
      NextKeepsInv(c, w, e);
      NextKeepsModeData(c, w, e);
      NextKeepsFinData(c, w, e);
    }
    Invariance(Moves(c), Start0, inv, events);
    FinDataMeans(c, Exec(c, events).value);
  }

  lemma FinDataMeans(c: Config, w: World)
    requires WorldInv(c, w) && FinData(c, w) && w.ok && Orderly(c, w.msgs)
    ensures |w.msgs| == c.iterations && Matches(w.server.got, w.msgs, c.iterations)
  {
    hide InOrder;
  }
}
