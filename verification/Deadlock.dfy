/** When the exchange of module Exchange gets through, and when it cannot. */
module Deadlock {
  import opened Bytes
  import opened Machine
  import opened Exchange

  // ------------------------------------------------- where the peers can be

  lemma {:induction false} FramesGrow(kinds: seq<Kind>, bufs: seq<seq<Byte>>, i: nat, j: nat)
    requires |kinds| == |bufs| && i <= j
    ensures |Frames(kinds, bufs, i)| >= |Frames(kinds, bufs, j)|
    ensures i < j && i < |kinds| ==> |Frames(kinds, bufs, i)| >= |Frame(kinds[i], bufs[i])| + |Frames(kinds, bufs, j)|
    decreases j - i
  {
    if i < j { FramesGrow(kinds, bufs, i + 1, j); }
  }

  /** A receiver is at most one round ahead of its sender, and then the sender has
      sent its whole frame. */
  lemma NotFarAhead(kinds: seq<Kind>, bufs: seq<seq<Byte>>, src: Peer, way: seq<Byte>, dst: Peer)
    requires |kinds| == |bufs| && DirectionInv(kinds, bufs, src, way, dst)
    ensures dst.round <= src.round + 1
    ensures dst.round == src.round + 1 ==> src.unsent == []
  {
    if dst.round > src.round + 1 {
      FramesGrow(kinds, bufs, src.round + 1, dst.round);
    }
  }

  /** What a peer has yet to send is at most its frames from this round on. */
  lemma UnsentFits(kinds: seq<Kind>, bufs: seq<seq<Byte>>, src: Peer)
    requires |kinds| == |bufs| && |src.unsent| <= |FrameAt(kinds, bufs, src.round)|
    ensures |Rest(kinds, bufs, src)| <= |Frames(kinds, bufs, src.round)|
  {
  }

  /** A receiver that has nothing on the way to it waits for bytes not yet sent. */
  lemma StarvedIsAhead(kinds: seq<Kind>, bufs: seq<seq<Byte>>, src: Peer, dst: Peer)
    requires Payloads(kinds, bufs) && DirectionInv(kinds, bufs, src, [], dst)
    requires |src.unsent| <= |FrameAt(kinds, bufs, src.round)|
    requires dst.round < |kinds| && Need(kinds[dst.round], dst.acc) > 0
    ensures src.round < dst.round || (src.round == dst.round && src.unsent != [])
  {
    var rest := Rest(kinds, bufs, src);
    assert dst.acc + [] == dst.acc;
    assert dst.acc <= Frames(kinds, bufs, dst.round);
    ReadFrame(kinds, bufs, dst.round, dst.acc);
    assert |dst.acc| + |rest| == |Frames(kinds, bufs, dst.round)|;
    if src.round > dst.round {
      UnsentFits(kinds, bufs, src);
      FramesGrow(kinds, bufs, dst.round + 1, src.round);
    }
  }

  /** Two peers sending in the same round: the way holds the sent part of the frame. */
  lemma WayHoldsFrame(kinds: seq<Kind>, bufs: seq<seq<Byte>>, src: Peer, way: seq<Byte>, dst: Peer)
    requires |kinds| == |bufs| && DirectionInv(kinds, bufs, src, way, dst)
    requires src.round == dst.round < |kinds| && dst.acc == []
    ensures |way| + |src.unsent| == |FrameAt(kinds, bufs, src.round)|
  {
  }

  // ------------------------------------------------------------- both blocked

  predicate Finished(p: Plan, w: Link) {
    w.a.round == |p.kinds| && w.b.round == |p.kinds|
  }

  /** Nobody can move. */
  ghost predicate Stuck(p: Plan, w: Link)
    requires ValidPlan(p)
  {
    forall e :: Next(p, w, e).None?
  }

  /** The frame of neither peer fits on the way in round k. */
  predicate Oversized(p: Plan, k: nat)
    requires ValidPlan(p)
  {
    k < |p.kinds| && |Frame(p.kinds[k], p.mine[k])| > p.out && |Frame(p.kinds[k], p.theirs[k])| > p.back
  }

  /** A peer that cannot move is done, faces a full way, or has nothing to read. */
  lemma BlockedPeer(p: Plan, w: Link)
    requires ValidPlan(p) && Inv(p, w)
    requires Act(p, w, Push(1)).None? && Act(p, w, Pull(1)).None?
    ensures w.a.round == |p.kinds| || (w.a.unsent != [] && |w.ab| == p.out) || (w.a.unsent == [] && w.ba == [])
  {
  }

  lemma StuckPeers(p: Plan, w: Link)
    requires ValidPlan(p) && Inv(p, w) && Stuck(p, w)
    ensures w.a.round == |p.kinds| || (w.a.unsent != [] && |w.ab| == p.out) || (w.a.unsent == [] && w.ba == [])
    ensures w.b.round == |p.kinds| || (w.b.unsent != [] && |w.ba| == p.back) || (w.b.unsent == [] && w.ab == [])
  {
    assert Next(p, w, Event(false, Push(1))).None? && Next(p, w, Event(false, Pull(1))).None?;
    assert Next(p, w, Event(true, Push(1))).None? && Next(p, w, Event(true, Pull(1))).None?;
    BlockedPeer(p, w);
    BlockedPeer(p.Flip(), w.Flip());
  }

  /** If nobody can move before the end, both are sending, in the same round, frames
      that do not fit. */
  lemma StuckMeansOversized(p: Plan, w: Link)
    requires ValidPlan(p) && Inv(p, w) && Stuck(p, w) && !Finished(p, w)
    ensures Oversized(p, w.a.round) && w.a.round == w.b.round
  {
    StuckPeers(p, w);
    NotFarAhead(p.kinds, p.mine, w.a, w.ab, w.b);
    NotFarAhead(p.kinds, p.theirs, w.b, w.ba, w.a);
    if w.a.round < |p.kinds| && w.a.unsent == [] {
      StarvedIsAhead(p.kinds, p.theirs, w.b, w.a);
    }
    if w.b.round < |p.kinds| && w.b.unsent == [] {
      StarvedIsAhead(p.kinds, p.mine, w.a, w.b);
    }
    if w.a.round == w.b.round {
      WayHoldsFrame(p.kinds, p.mine, w.a, w.ab, w.b);
      WayHoldsFrame(p.kinds, p.theirs, w.b, w.ba, w.a);
    }
  }

  // ------------------------------------------------------- an oversized round

  /** Still at round k with the frame not wholly sent, or before it. */
  predicate Before(q: Peer, k: nat) {
    q.round < k || (q.round == k && q.unsent != [])
  }

  /** What has been received of a round is at most its frame. */
  lemma AccFits(kinds: seq<Kind>, bufs: seq<seq<Byte>>, src: Peer, way: seq<Byte>, dst: Peer)
    requires Payloads(kinds, bufs) && DirectionInv(kinds, bufs, src, way, dst)
    requires dst.round < |kinds| && Need(kinds[dst.round], dst.acc) > 0
    ensures |dst.acc| <= |FrameAt(kinds, bufs, dst.round)|
  {
    var later := way + Rest(kinds, bufs, src);
    assert dst.acc + later == dst.acc + way + Rest(kinds, bufs, src);
    assert dst.acc <= Frames(kinds, bufs, dst.round);
    ReadFrame(kinds, bufs, dst.round, dst.acc);
  }

  /** A frame wholly sent to a peer that has not begun to receive it is wholly on the way. */
  lemma FrameOnWay(kinds: seq<Kind>, bufs: seq<seq<Byte>>, src: Peer, way: seq<Byte>, dst: Peer, k: nat)
    requires Payloads(kinds, bufs) && DirectionInv(kinds, bufs, src, way, dst)
    requires dst.round < |kinds| ==> Need(kinds[dst.round], dst.acc) > 0
    requires dst.unsent != [] ==> dst.acc == []
    requires src.round == k < |kinds| && src.unsent == [] && Before(dst, k)
    ensures |way| >= |Frame(kinds[k], bufs[k])|
  {
    hide Frame, Need;
    var j := dst.round;
    assert |Rest(kinds, bufs, src)| == |Frames(kinds, bufs, k + 1)|;
    assert |dst.acc| + |way| + |Frames(kinds, bufs, k + 1)| == |Frames(kinds, bufs, j)|;
    assert |Frames(kinds, bufs, k)| == |Frame(kinds[k], bufs[k])| + |Frames(kinds, bufs, k + 1)|;
    if j < k {
      AccFits(kinds, bufs, src, way, dst);
      FramesGrow(kinds, bufs, j + 1, k);
      assert |Frames(kinds, bufs, j)| == |FrameAt(kinds, bufs, j)| + |Frames(kinds, bufs, j + 1)|;
    }
  }

  lemma PushKeepsBefore(p: Plan, w: Link, k: nat, n: nat)
    requires ValidPlan(p) && Inv(p, w) && Oversized(p, k) && Before(w.a, k) && Before(w.b, k)
    requires Act(p, w, Push(n)).Some?
    ensures Before(Act(p, w, Push(n)).value.a, k)
  {
    var t := Act(p, w, Push(n)).value;
    PushKeepsInv(p, w, n);
    if w.a.round == k && t.a.unsent == [] {
      FrameOnWay(p.kinds, p.mine, t.a, t.ab, t.b, k);
    }
  }

  lemma PullKeepsBefore(p: Plan, w: Link, k: nat, n: nat)
    requires ValidPlan(p) && k < |p.kinds| && Before(w.a, k)
    requires Act(p, w, Pull(n)).Some?
    ensures Before(Act(p, w, Pull(n)).value.a, k)
  {
  }

  lemma ActKeepsBefore(p: Plan, w: Link, k: nat, m: Move)
    requires ValidPlan(p) && Inv(p, w) && Oversized(p, k) && Before(w.a, k) && Before(w.b, k)
    requires Act(p, w, m).Some?
    ensures Before(Act(p, w, m).value.a, k) && Before(Act(p, w, m).value.b, k)
  {
    match m {
      case Push(n) => PushKeepsBefore(p, w, k, n);
      case Pull(n) => PullKeepsBefore(p, w, k, n);
    }
  }

  lemma NextKeepsBefore(p: Plan, w: Link, k: nat, e: Event)
    requires ValidPlan(p) && Inv(p, w) && Oversized(p, k) && Before(w.a, k) && Before(w.b, k)
    requires Next(p, w, e).Some?
    ensures Before(Next(p, w, e).value.a, k) && Before(Next(p, w, e).value.b, k)
  {
    if e.second {
      ActKeepsBefore(p.Flip(), w.Flip(), k, e.move);
    } else {
      ActKeepsBefore(p, w, k, e.move);
    }
  }

  /** No run gets past an oversized round. */
  lemma OversizedNeverFinishes(p: Plan, k: nat, events: seq<Event>)
    requires ValidPlan(p) && Oversized(p, k) && Exec(p, events).Some?
    ensures !Finished(p, Exec(p, events).value)
  {
    var inv := (w: Link) => Inv(p, w) && Before(w.a, k) && Before(w.b, k);
    FreshInv(p);
    forall w: Link, e: Event | inv(w) && Moves(p)(w, e).Some? ensures inv(Moves(p)(w, e).value) {
      NextKeepsInv(p, w, e);
      NextKeepsBefore(p, w, k, e);
    }
    Invariance(Moves(p), FreshLink(p), inv, events);
  }

  // ------------------------------------------------------- runs come to an end

  /** Every byte not yet sent is moved twice, every byte under way once. */
  function Work(p: Plan, w: Link): nat
    requires ValidPlan(p)
  {
    2 * |Rest(p.kinds, p.mine, w.a)| + |w.ab| + 2 * |Rest(p.kinds, p.theirs, w.b)| + |w.ba|
  }

  /** Receiving leaves what is to be sent as it is, also across the end of a round. */
  lemma RestKept(kinds: seq<Kind>, bufs: seq<seq<Byte>>, q: Peer, q': Peer)
    requires |kinds| == |bufs| && q.round < |kinds| && q.unsent == []
    requires (q'.round == q.round && q'.unsent == [])
             || (q'.round == q.round + 1 && q'.unsent == FrameAt(kinds, bufs, q.round + 1))
    ensures Rest(kinds, bufs, q') == Rest(kinds, bufs, q)
  {
    assert Rest(kinds, bufs, q) == Frames(kinds, bufs, q.round + 1);
    assert FrameAt(kinds, bufs, q.round + 1) + Frames(kinds, bufs, q.round + 2) == Frames(kinds, bufs, q.round + 1);
  }

  lemma PushDoesWork(p: Plan, w: Link, n: nat)
    requires ValidPlan(p) && Act(p, w, Push(n)).Some?
    ensures Work(p, Act(p, w, Push(n)).value) < Work(p, w)
  {
    hide Frames, Payloads;
  }

  lemma PullDoesWork(p: Plan, w: Link, n: nat)
    requires ValidPlan(p) && Act(p, w, Pull(n)).Some?
    ensures Work(p, Act(p, w, Pull(n)).value) < Work(p, w)
  {
    RestKept(p.kinds, p.mine, w.a, Act(p, w, Pull(n)).value.a);
    hide Rest, Payloads, Need;
  }

  lemma NextDoesWork(p: Plan, w: Link, e: Event)
    requires ValidPlan(p) && Next(p, w, e).Some?
    ensures Work(p, Next(p, w, e).value) < Work(p, w)
  {
    var q, v := if e.second then p.Flip() else p, if e.second then w.Flip() else w;
    match e.move {
      case Push(n) => PushDoesWork(q, v, n);
      case Pull(n) => PullDoesWork(q, v, n);
    }
    hide Rest, Act;
  }

  /** Every run can be continued to a point where nobody can move. */
  lemma {:induction false} RunOut(p: Plan, events: seq<Event>) returns (longer: seq<Event>)
    requires ValidPlan(p) && Exec(p, events).Some?
    ensures events <= longer && Exec(p, longer).Some? && Stuck(p, Exec(p, longer).value)
    decreases Work(p, Exec(p, events).value)
  {
    var w := Exec(p, events).value;
    if Stuck(p, w) {
      longer := events;
    } else {
      var e :| Next(p, w, e).Some?;
      ExecKeepsInv(p, events);
      NextDoesWork(p, w, e);
      Extend(Moves(p), FreshLink(p), events, e);
      longer := RunOut(p, events + [e]);
    }
  }

  // ------------------------------------------------------------- main results

  /** In every reachable state the peers are at most one round apart, and every
      finished round returned exactly what the other peer sent in it. */
  lemma SymmetricExchange(p: Plan, events: seq<Event>)
    requires ValidPlan(p) && Exec(p, events).Some?
    ensures
      var w := Exec(p, events).value;
      && w.a.round <= |p.kinds| && w.b.round <= |p.kinds|
      && w.a.round <= w.b.round + 1 && w.b.round <= w.a.round + 1
      && w.a.got == p.theirs[..w.a.round] && w.b.got == p.mine[..w.b.round]
      && !w.a.failed && !w.b.failed
  {
    ExecKeepsInv(p, events);
    var w := Exec(p, events).value;
    NotFarAhead(p.kinds, p.mine, w.a, w.ab, w.b);
    NotFarAhead(p.kinds, p.theirs, w.b, w.ba, w.a);
  }

  /** Exactly when sending before receiving can block both peers for good: in some
      round both frames are larger than what their direction can hold. */
  lemma DeadlockExactly(p: Plan)
    requires ValidPlan(p)
    ensures (exists events :: Exec(p, events).Some? && Stuck(p, Exec(p, events).value) && !Finished(p, Exec(p, events).value))
            <==> (exists k :: Oversized(p, k))
  {
    if k :| Oversized(p, k) {
      assert Exec(p, []) == Some(FreshLink(p));
      var events := RunOut(p, []);
      OversizedNeverFinishes(p, k, events);
    } else {
      forall events | Exec(p, events).Some? && Stuck(p, Exec(p, events).value) ensures Finished(p, Exec(p, events).value) {
        ExecKeepsInv(p, events);
        if !Finished(p, Exec(p, events).value) {
          StuckMeansOversized(p, Exec(p, events).value);
        }
      }
    }
  }

  /** If every frame of one peer fits, every run can be continued to the end of all
      rounds, and ends with everything exchanged. */
  lemma CompletesWhenItFits(p: Plan, events: seq<Event>) returns (longer: seq<Event>)
    requires ValidPlan(p) && Exec(p, events).Some? && forall k :: !Oversized(p, k)
    ensures events <= longer && Exec(p, longer).Some?
    ensures
      var w := Exec(p, longer).value;
      Finished(p, w) && w.a.got == p.theirs && w.b.got == p.mine
  {
    longer := RunOut(p, events);
    ExecKeepsInv(p, longer);
    var w := Exec(p, longer).value;
    if !Finished(p, w) { StuckMeansOversized(p, w); }
    assert p.theirs[..|p.kinds|] == p.theirs && p.mine[..|p.kinds|] == p.mine;
  }
}
