/** How the peers of 02_ucp_tag_GPUP2P_hello_world learn each other's worker address and
    part again: the server's address over TCP, the client's inside a tagged message, a
    reply, and a barrier on the same TCP connection.  Either side may fail at any point,
    also in the middle of a send.

    Assumed: TCP delivers what was sent in order, recv with MSG_WAITALL returns what it
    was asked for or fails, and UCX delivers tagged messages intact. */
module Bootstrap {
  import opened Bytes
  import opened Machine
  import opened Socket

  /** The two worker addresses and the test string. */
  datatype Setup = Setup(serverAddr: seq<Byte>, clientAddr: seq<Byte>, text: seq<Byte>)

  /** What a test message says once the length in front is skipped. */
  lemma TextArrives(text: seq<Byte>)
    ensures |Prefixed(text)| >= 8 && Prefixed(text)[8..] == text
  {
  }

  predicate ValidSetup(c: Setup) {
    |c.serverAddr| < 0x8000_0000 && |c.clientAddr| < 0x8000_0000
  }

  const WORD: seq<Byte> := [0, 0, 0, 0]

  /** All that the server writes to the socket, and all that the client writes. */
  function ServerBytes(c: Setup): seq<Byte> { Prefixed(c.serverAddr) + WORD }
  function ClientBytes(): seq<Byte> { WORD }

  /** Tested: run_test returned 0.  Waiting: the barrier word is on its way. */
  datatype Phase = Hello | Address | Test | Tested | Waiting | Passed | Lost

  /** One side: the peer address it holds, the text it was sent (to the client only),
      whether its run_test has returned 0, all it has written to the socket and how much
      of the other side's bytes it has read. */
  datatype Side = Side(phase: Phase, peer: Option<seq<Byte>>, text: Option<seq<Byte>>, tested: bool, sent: seq<Byte>, read: nat)

  /** The two sides, the tagged messages under way, and the length the client read. */
  datatype World = World(server: Side, client: Side, toServer: seq<seq<Byte>>, toClient: seq<seq<Byte>>, length: nat)

  const Start := World(Side(Hello, None, None, false, [], 0), Side(Hello, None, None, false, [], 0), [], [], 0)

  datatype Event =
    | ServerSendsLength
    | ServerSendsAddress
    | ServerTakesAddress        // probe, receive, copy the client's address
    | ServerReplies             // sends the test string, flushes; run_ucx_server returns 0
    | ServerSendsWord(k: nat)   // barrier: a send that is not negative
    | ServerReadsWord           // barrier: returns 0
    | ServerFails(k: nat)       // after k bytes of what it was sending
    | ClientReadsLength
    | ClientReadsAddress
    | ClientSendsAddress
    | ClientTakesReply          // run_ucx_client returns 0
    | ClientSendsWord(k: nat)
    | ClientReadsWord
    | ClientFails(k: nat)

  /** recv of n bytes with MSG_WAITALL by a side that has read `done` bytes. */
  function RecvAt(wire: seq<Byte>, done: nat, n: nat): Option<seq<Byte>> {
    if done + n <= |wire| then Some(wire[done..done + n]) else None
  }

  /** The data of a received struct msg: as many bytes as its length field says. */
  function MsgData(m: seq<Byte>): Option<seq<Byte>> {
    if |m| >= 8 && |m| >= 8 + FromLE(m[..8]) then Some(m[8..8 + FromLE(m[..8])]) else None
  }

  function NextServer(c: Setup, w: World, e: Event): Option<World> {
    var s := w.server;
    match e
    case ServerSendsLength =>
      if s.phase.Hello? then Some(w.(server := s.(phase := Address, sent := s.sent + LE(|c.serverAddr|, 8)))) else None
    case ServerSendsAddress =>
      if s.phase.Address? then Some(w.(server := s.(phase := Test, sent := s.sent + c.serverAddr))) else None
    case ServerTakesAddress =>
      if s.phase.Test? && s.peer.None? && w.toServer != [] && MsgData(w.toServer[0]).Some? then
        Some(w.(server := s.(peer := MsgData(w.toServer[0])), toServer := w.toServer[1..]))
      else None
    case ServerReplies =>
      if s.phase.Test? && s.peer.Some? then
        Some(w.(server := s.(phase := Tested, tested := true), toClient := w.toClient + [Prefixed(c.text)]))
      else None
    case ServerSendsWord(k) =>
      if s.phase.Tested? && k <= 4 then Some(w.(server := s.(phase := Waiting, sent := s.sent + WORD[..k]))) else None
    case ServerReadsWord =>
      if s.phase.Waiting? && RecvAt(w.client.sent, s.read, 4).Some? then
        Some(w.(server := s.(phase := Passed, read := s.read + 4)))
      else None
    case ServerFails(k) =>
      if s.phase.Passed? || s.phase.Lost? then None
      else
        var pending := if s.phase.Hello? then LE(|c.serverAddr|, 8) else if s.phase.Address? then c.serverAddr else [];
        if k <= |pending| then Some(w.(server := s.(phase := Lost, sent := s.sent + pending[..k]))) else None
    case _ => None
  }

  function NextClient(c: Setup, w: World, e: Event): Option<World> {
    var s, wire := w.client, w.server.sent;
    match e
    case ClientReadsLength =>
      if s.phase.Hello? && RecvAt(wire, s.read, 8).Some? then
        Some(w.(client := s.(phase := Address, read := s.read + 8), length := FromLE(RecvAt(wire, s.read, 8).value)))
      else None
    case ClientReadsAddress =>
      if s.phase.Address? && RecvAt(wire, s.read, w.length).Some? then
        Some(w.(client := s.(phase := Test, read := s.read + w.length, peer := RecvAt(wire, s.read, w.length))))
      else None
    case ClientSendsAddress =>
      if s.phase.Test? && w.toServer == [] && w.server.peer.None? then Some(w.(toServer := [Prefixed(c.clientAddr)])) else None
    case ClientTakesReply =>
      if s.phase.Test? && w.toClient != [] && |w.toClient[0]| >= 8 then
        Some(w.(client := s.(phase := Tested, tested := true, text := Some(w.toClient[0][8..])), toClient := w.toClient[1..]))
      else None
    case ClientSendsWord(k) =>
      if s.phase.Tested? && k <= 4 then Some(w.(client := s.(phase := Waiting, sent := s.sent + WORD[..k]))) else None
    case ClientReadsWord =>
      if s.phase.Waiting? && RecvAt(wire, s.read, 4).Some? then
        Some(w.(client := s.(phase := Passed, read := s.read + 4)))
      else None
    case ClientFails(k) =>
      if s.phase.Passed? || s.phase.Lost? then None else Some(w.(client := s.(phase := Lost)))
    case _ => None
  }

  function Next(c: Setup, w: World, e: Event): Option<World> {
    var t := NextServer(c, w, e);
    if t.Some? then t else NextClient(c, w, e)
  }

  function Moves(c: Setup): (World, Event) -> Option<World> {
    (w, e) => Next(c, w, e)
  }

  function Exec(c: Setup, events: seq<Event>): Option<World> {
    Run(Moves(c), Start, events)
  }

  // ---------------------------------------------------------------- invariant

  /** So much of the server's bytes was written. */
  predicate Written(c: Setup, sent: seq<Byte>) { sent <= ServerBytes(c) }

  ghost predicate ServerInv(c: Setup, w: World) {
    var s := w.server;
    && Written(c, s.sent)
    && (s.phase.Hello? ==> s.sent == [])
    && (s.phase.Address? ==> |s.sent| == 8)
    && (s.phase.Test? || s.phase.Tested? ==> |s.sent| == 8 + |c.serverAddr|)
    && (|s.sent| > 8 + |c.serverAddr| ==> s.tested)
    && (s.tested ==> s.peer.Some?)
    && (s.phase.Tested? || s.phase.Waiting? || s.phase.Passed? ==> s.tested)
    && (s.peer.Some? ==> s.peer == Some(c.clientAddr))
    && (s.phase.Passed? ==> |w.client.sent| >= 4 && s.read == 4)
    && (!s.phase.Passed? ==> s.read == 0)
    && (forall k | 0 <= k < |w.toServer| :: w.toServer[k] == Prefixed(c.clientAddr))
  }

  ghost predicate ClientInv(c: Setup, w: World) {
    var s := w.client;
    && (s.phase.Hello? ==> s.read == 0)
    && (s.phase.Address? ==> s.read == 8 && w.length == |c.serverAddr|)
    && (s.phase.Test? || s.phase.Tested? || s.phase.Waiting? ==> s.read == 8 + |c.serverAddr|)
    && (s.phase.Test? || s.tested ==> s.peer == Some(c.serverAddr))
    && (s.tested ==> s.text == Some(c.text))
    && (forall k | 0 <= k < |w.toClient| :: w.toClient[k] == Prefixed(c.text))
    && (s.phase.Tested? || s.phase.Waiting? || s.phase.Passed? ==> s.tested)
    && (s.phase.Hello? || s.phase.Address? || s.phase.Test? || s.phase.Tested? ==> s.sent == [])
    && (s.sent != [] ==> s.tested)
    && s.sent <= ClientBytes()
    && (s.phase.Passed? ==> |w.server.sent| >= 12 + |c.serverAddr| == s.read)
  }

  ghost predicate Inv(c: Setup, w: World) { ServerInv(c, w) && ClientInv(c, w) }

  lemma MsgRoundTrip(data: seq<Byte>)
    requires |data| < 0x8000_0000
    ensures MsgData(Prefixed(data)) == Some(data)
  {
    FieldRanges();
    FromLEofLE(|data|, 8);
    assert Prefixed(data)[..8] == LE(|data|, 8);
    assert Prefixed(data)[8..8 + |data|] == data;
  }

  /** A prefix of the right length of the server's bytes holds length and address. */
  lemma ServerPrefix(c: Setup, sent: seq<Byte>)
    requires ValidSetup(c) && Written(c, sent)
    ensures |sent| >= 8 ==> FromLE(sent[..8]) == |c.serverAddr|
    ensures |sent| >= 8 + |c.serverAddr| ==> sent[8..8 + |c.serverAddr|] == c.serverAddr
  {
    var all := ServerBytes(c);
    FieldRanges();
    FromLEofLE(|c.serverAddr|, 8);
    assert all[..8] == LE(|c.serverAddr|, 8);
    assert all[8..8 + |c.serverAddr|] == c.serverAddr;
    if |sent| >= 8 { assert sent[..8] == all[..8]; }
    if |sent| >= 8 + |c.serverAddr| { assert sent[8..8 + |c.serverAddr|] == all[8..8 + |c.serverAddr|]; }
  }

  /** Writing the next piece keeps to the server's bytes. */
  lemma ServerGrows(c: Setup, sent: seq<Byte>, k: nat)
    requires Written(c, sent)
    ensures sent == [] && k <= 8 ==> Written(c, sent + LE(|c.serverAddr|, 8)[..k])
    ensures |sent| == 8 && k <= |c.serverAddr| ==> Written(c, sent + c.serverAddr[..k])
    ensures |sent| == 8 + |c.serverAddr| && k <= 4 ==> Written(c, sent + WORD[..k])
  {
    var all := ServerBytes(c);
    assert all == LE(|c.serverAddr|, 8) + c.serverAddr + WORD;
    assert sent == all[..|sent|];
    if sent == [] && k <= 8 { assert sent + LE(|c.serverAddr|, 8)[..k] == all[..k]; }
    if |sent| == 8 && k <= |c.serverAddr| { assert sent + c.serverAddr[..k] == all[..8 + k]; }
    if |sent| == 8 + |c.serverAddr| && k <= 4 { assert sent + WORD[..k] == all[..8 + |c.serverAddr| + k]; }
  }

  lemma ServerKeepsInv(c: Setup, w: World, e: Event)
    requires ValidSetup(c) && Inv(c, w) && NextServer(c, w, e).Some?
    ensures Inv(c, NextServer(c, w, e).value)
  {
    hide Written;
    var n := |c.serverAddr|;
    MsgRoundTrip(c.clientAddr);
    assert LE(n, 8)[..8] == LE(n, 8) && c.serverAddr[..n] == c.serverAddr;
    match e {
      case ServerSendsLength => ServerGrows(c, w.server.sent, 8);
      case ServerSendsAddress => ServerGrows(c, w.server.sent, n);
      case ServerSendsWord(k) => ServerGrows(c, w.server.sent, k);
      case ServerFails(k) =>
        ServerGrows(c, w.server.sent, k);
        var none: seq<Byte> := [];
        assert w.server.sent + none[..0] == w.server.sent;
      case _ =>
    }
  }

  lemma ClientKeepsInv(c: Setup, w: World, e: Event)
    requires ValidSetup(c) && Inv(c, w) && NextClient(c, w, e).Some?
    ensures Inv(c, NextClient(c, w, e).value)
  {
    TextArrives(c.text);
    hide Written;
    ServerPrefix(c, w.server.sent);
  }

  lemma NextKeepsInv(c: Setup, w: World, e: Event)
    requires ValidSetup(c) && Inv(c, w) && Next(c, w, e).Some?
    ensures Inv(c, Next(c, w, e).value)
  {
    if NextServer(c, w, e).Some? { ServerKeepsInv(c, w, e); } else { ClientKeepsInv(c, w, e); }
  }

  lemma ExecKeepsInv(c: Setup, events: seq<Event>)
    requires ValidSetup(c) && Exec(c, events).Some?
    ensures Inv(c, Exec(c, events).value)
  {
    var inv := (w: World) => Inv(c, w);
    forall w: World, e: Event | inv(w) && Moves(c)(w, e).Some? ensures inv(Moves(c)(w, e).value) {
      NextKeepsInv(c, w, e);
    }
    Invariance(Moves(c), Start, inv, events);
  }

  // ------------------------------------------------------------- main results

  /** In every run: a side whose run_test returned 0 holds exactly the other's worker
      address, and the client the test string, and a side's barrier returns 0 only after the
      other's run_test did.  By then the side has read all that the other ever writes, so
      that no byte of the address was taken for the barrier word. */
  lemma BarrierMeansBothTested(c: Setup, events: seq<Event>)
    requires ValidSetup(c) && Exec(c, events).Some?
    ensures
      var w := Exec(c, events).value;
      && (w.server.tested ==> w.server.peer == Some(c.clientAddr))
      && (w.client.tested ==> w.client.peer == Some(c.serverAddr) && w.client.text == Some(c.text))
      && (w.server.phase.Passed? || w.client.phase.Passed? ==> w.server.tested && w.client.tested)
      && (w.server.phase.Passed? ==> w.client.sent == ClientBytes() && w.server.read == |ClientBytes()|)
      && (w.client.phase.Passed? ==> w.server.sent == ServerBytes(c) && w.client.read == |ServerBytes(c)|)
  {
    ExecKeepsInv(c, events);
  }

  /** The client has the server's address, the server waits for the client's. */
  lemma Introduce(c: Setup, r: World -> bool) returns (w: World)
    requires ValidSetup(c) && Saturated(Moves(c), r) && r(Start)
    ensures r(w) && w.toServer == [] && w.toClient == []
    ensures w.server.phase.Test? && w.server.sent == Prefixed(c.serverAddr) && w.server.read == 0 && w.server.peer.None?
    ensures w.client.phase.Test? && w.client.sent == [] && w.client.read == |Prefixed(c.serverAddr)|
  {
    var n := |c.serverAddr|;
    FieldRanges();
    FromLEofLE(n, 8);
    w := Advance(Moves(c), r, Start, ServerSendsLength);
    assert w.server.sent[0..8] == LE(n, 8) == w.server.sent;
    w := Advance(Moves(c), r, w, ClientReadsLength);
    w := Advance(Moves(c), r, w, ServerSendsAddress);
    w := Advance(Moves(c), r, w, ClientReadsAddress);
  }

  /** Both test calls return 0. */
  lemma Converse(c: Setup, r: World -> bool, w: World) returns (w': World)
    requires ValidSetup(c) && Saturated(Moves(c), r) && r(w) && w.toServer == [] && w.toClient == []
    requires w.server.phase.Test? && w.server.peer.None? && w.client.phase.Test?
    ensures r(w') && w'.server.phase.Tested? && w'.client.phase.Tested?
    ensures w'.server.sent == w.server.sent && w'.server.read == w.server.read
    ensures w'.client.sent == w.client.sent && w'.client.read == w.client.read
  {
    TextArrives(c.text);
    MsgRoundTrip(c.clientAddr);
    w' := Advance(Moves(c), r, w, ClientSendsAddress);
    w' := Advance(Moves(c), r, w', ServerTakesAddress);
    w' := Advance(Moves(c), r, w', ServerReplies);
    w' := Advance(Moves(c), r, w', ClientTakesReply);
  }

  /** The server has passed its barrier, but the client never will: it is lost, or the
      server's word did not go out whole. */
  ghost predicate ClientStranded(c: Setup, w: World) {
    w.server.phase.Passed? && !w.client.phase.Passed? && (w.client.phase.Lost? || w.server.sent != ServerBytes(c))
  }

  ghost predicate ServerStranded(c: Setup, w: World) {
    w.client.phase.Passed? && !w.server.phase.Passed? && (w.server.phase.Lost? || w.client.sent != ClientBytes())
  }

  lemma StrandedStays(c: Setup, w: World, e: Event)
    requires ValidSetup(c) && Inv(c, w) && Next(c, w, e).Some?
    ensures ClientStranded(c, w) ==> ClientStranded(c, Next(c, w, e).value)
    ensures ServerStranded(c, w) ==> ServerStranded(c, Next(c, w, e).value)
  {
  }

  lemma StrandedForever(c: Setup, events: seq<Event>, more: seq<Event>)
    requires ValidSetup(c) && Exec(c, events).Some? && Exec(c, events + more).Some?
    ensures ClientStranded(c, Exec(c, events).value) ==> ClientStranded(c, Exec(c, events + more).value)
    ensures ServerStranded(c, Exec(c, events).value) ==> ServerStranded(c, Exec(c, events + more).value)
  {
    ExecKeepsInv(c, events);
    hide Run, Inv, Next, ClientStranded, ServerStranded;
    var client := (w: World) => Inv(c, w) && ClientStranded(c, w);
    var server := (w: World) => Inv(c, w) && ServerStranded(c, w);
    forall w: World, e: Event | Inv(c, w) && Moves(c)(w, e).Some?
      ensures client(w) ==> client(Moves(c)(w, e).value)
      ensures server(w) ==> server(Moves(c)(w, e).value)
    {
      NextKeepsInv(c, w, e);
      StrandedStays(c, w, e);
    }
    if ClientStranded(c, Exec(c, events).value) { Persistence(Moves(c), Start, client, _ => true, events, more); }
    if ServerStranded(c, Exec(c, events).value) { Persistence(Moves(c), Start, server, _ => true, events, more); }
  }

  /** The run can go on so that the client's, or the server's, barrier returns 0. */
  ghost predicate ClientCanPass(c: Setup, events: seq<Event>) {
    exists more :: Exec(c, events + more).Some? && Exec(c, events + more).value.client.phase.Passed?
  }

  ghost predicate ServerCanPass(c: Setup, events: seq<Event>) {
    exists more :: Exec(c, events + more).Some? && Exec(c, events + more).value.server.phase.Passed?
  }

  /** What the barrier of one side says of the barrier of the other, exactly: once it has
      returned 0, the other one can still return 0 if and only if that side is not lost
      and the word sent to it went out whole (barrier itself looks only for a negative
      result of send). */
  lemma BarriersAgreeExactly(c: Setup, events: seq<Event>)
    requires ValidSetup(c) && Exec(c, events).Some?
    ensures
      var w := Exec(c, events).value;
      && (w.server.phase.Passed? ==>
            (ClientCanPass(c, events) <==> !w.client.phase.Lost? && w.server.sent == ServerBytes(c)))
      && (w.client.phase.Passed? ==>
            (ServerCanPass(c, events) <==> !w.server.phase.Lost? && w.client.sent == ClientBytes()))
  {
    var w := Exec(c, events).value;
    ExecKeepsInv(c, events);
    if w.server.phase.Passed? {
      if !w.client.phase.Lost? && w.server.sent == ServerBytes(c) {
        ClientGetsThere(c, events);
      } else {
        forall more | Exec(c, events + more).Some? ensures !Exec(c, events + more).value.client.phase.Passed? {
          StrandedForever(c, events, more);
        }
      }
    }
    if w.client.phase.Passed? {
      if !w.server.phase.Lost? && w.client.sent == ClientBytes() {
        ServerGetsThere(c, events);
      } else {
        forall more | Exec(c, events + more).Some? ensures !Exec(c, events + more).value.server.phase.Passed? {
          StrandedForever(c, events, more);
        }
      }
    }
  }

  lemma ClientGetsThere(c: Setup, events: seq<Event>)
    requires ValidSetup(c) && Exec(c, events).Some?
    requires
      var w := Exec(c, events).value;
      w.server.phase.Passed? && !w.client.phase.Lost? && w.server.sent == ServerBytes(c)
    ensures ClientCanPass(c, events)
  {
    ExecKeepsInv(c, events);
    var w := Exec(c, events).value;
    if w.client.phase.Passed? {
      assert events + [] == events;
    } else {
      assert Next(c, w, ClientReadsWord).Some?;
      Extend(Moves(c), Start, events, ClientReadsWord);
      assert Exec(c, events + [ClientReadsWord]) == Next(c, w, ClientReadsWord);
    }
  }

  lemma ServerGetsThere(c: Setup, events: seq<Event>)
    requires ValidSetup(c) && Exec(c, events).Some?
    requires
      var w := Exec(c, events).value;
      w.client.phase.Passed? && !w.server.phase.Lost? && w.client.sent == ClientBytes()
    ensures ServerCanPass(c, events)
  {
    ExecKeepsInv(c, events);
    var w := Exec(c, events).value;
    if w.server.phase.Passed? {
      assert events + [] == events;
    } else {
      assert Next(c, w, ServerReadsWord).Some?;
      Extend(Moves(c), Start, events, ServerReadsWord);
      assert Exec(c, events + [ServerReadsWord]) == Next(c, w, ServerReadsWord);
    }
  }

  /** Both sides are in the barrier, having sent j and k bytes of the word. */
  lemma EnterBarrier(c: Setup, r: World -> bool, j: nat, k: nat) returns (w: World)
    requires ValidSetup(c) && Saturated(Moves(c), r) && r(Start) && j <= 4 && k <= 4
    ensures r(w) && w.server.phase.Waiting? && w.client.phase.Waiting?
    ensures w.server.sent == Prefixed(c.serverAddr) + WORD[..j] && w.client.sent == WORD[..k]
    ensures w.server.read == 0 && w.client.read == |Prefixed(c.serverAddr)|
  {
    w := Introduce(c, r);
    w := Converse(c, r, w);
    w := Advance(Moves(c), r, w, ServerSendsWord(j));
    w := Advance(Moves(c), r, w, ClientSendsWord(k));
  }

  /** The barriers need not agree although nobody fails: after a send that took only
      k < 4 bytes of its word, the server passes, and the client, which is still waiting, will
      not pass however the run goes on: it waits until the server closes the socket, and then
      its barrier returns 1. */
  lemma ShortSendStrands(c: Setup, k: nat) returns (events: seq<Event>)
    requires ValidSetup(c) && k < 4
    ensures Exec(c, events).Some?
    ensures
      var w := Exec(c, events).value;
      w.server.phase.Passed? && w.client.phase.Waiting? && w.server.sent == Prefixed(c.serverAddr) + WORD[..k]
    ensures !ClientCanPass(c, events)
  {
    var r := Reachable(Moves(c), Start);
    ReachableIsSaturated(Moves(c), Start);
    var w := EnterBarrier(c, r, k, 4);
    w := Advance(Moves(c), r, w, ServerReadsWord);
    events := RunTo(Moves(c), Start, w);
    assert Exec(c, events) == Some(w);
    BarriersAgreeExactly(c, events);
  }

  lemma ClientShortSendStrands(c: Setup, k: nat) returns (events: seq<Event>)
    requires ValidSetup(c) && k < 4
    ensures Exec(c, events).Some?
    ensures
      var w := Exec(c, events).value;
      w.client.phase.Passed? && w.server.phase.Waiting? && w.client.sent == WORD[..k]
    ensures !ServerCanPass(c, events)
  {
    var r := Reachable(Moves(c), Start);
    ReachableIsSaturated(Moves(c), Start);
    var w := EnterBarrier(c, r, 4, k);
    w := Advance(Moves(c), r, w, ClientReadsWord);
    events := RunTo(Moves(c), Start, w);
    assert Exec(c, events) == Some(w);
    BarriersAgreeExactly(c, events);
  }

  /** And they do agree in some run. */
  lemma BothCanPass(c: Setup) returns (events: seq<Event>)
    requires ValidSetup(c)
    ensures Exec(c, events).Some?
    ensures Exec(c, events).value.server.phase.Passed? && Exec(c, events).value.client.phase.Passed?
  {
    var r := Reachable(Moves(c), Start);
    ReachableIsSaturated(Moves(c), Start);
    var w := EnterBarrier(c, r, 4, 4);
    w := Advance(Moves(c), r, w, ServerReadsWord);
    w := Advance(Moves(c), r, w, ClientReadsWord);
    events := RunTo(Moves(c), Start, w);
    assert Exec(c, events) == Some(w);
  }

  // ------------------------------------------------- the out-of-band part of main

  /** The server's part: length and address, each in one send that must be complete. */
  method SendAddress(sock: Connection, localAddr: seq<Byte>) returns (ok: bool)
    requires |localAddr| < 0xFFFF_FFFF
    modifies sock
    ensures exists k :: 0 <= k <= |Prefixed(localAddr)| && sock.sent == old(sock.sent) + Prefixed(localAddr)[..k]
    ensures ok ==> sock.sent == old(sock.sent) + Prefixed(localAddr)
    ensures localAddr != [] && sock.sent == old(sock.sent) + Prefixed(localAddr) ==> ok
    ensures sock.reliable ==> ok
    ensures sock.incoming == old(sock.incoming)
  {
    ghost var all := Prefixed(localAddr);
    assert old(sock.sent) + all[..0] == old(sock.sent);
    var ret := sock.SendWhole(LE(|localAddr|, 8));
    assert ret > 0 ==> LE(|localAddr|, 8)[..ret] == all[..ret];
    if ret != 8 { return false; }
    assert old(sock.sent) + LE(|localAddr|, 8) == old(sock.sent) + all[..8];
    ret := sock.SendWhole(localAddr);
    CastCheck(|localAddr|, ret);
    ok := ToInt(ret) == ToInt(|localAddr|);
    if ret > 0 {
      assert all[..8 + ret] == LE(|localAddr|, 8) + localAddr[..ret];
      assert sock.sent == old(sock.sent) + all[..8 + ret];
    }
    assert all[..|all|] == all;
  }

  /** The client's part: reads the length, then that many bytes, as far as the comparison
      as int can tell (Socket.CastCheckExactly); what follows, the server's barrier word,
      stays unread.  `memory` says whether malloc succeeds. */
  method ReceiveAddress(sock: Connection, memory: bool) returns (peerAddr: Option<seq<Byte>>)
    modifies sock
    ensures peerAddr.Some? ==> |old(sock.incoming)| >= 8 && |peerAddr.value| == FromLE(old(sock.incoming)[..8])
    ensures peerAddr.Some? && |peerAddr.value| < 0xFFFF_FFFF ==>
              MsgData(old(sock.incoming)) == peerAddr && sock.incoming == old(sock.incoming)[8 + |peerAddr.value|..]
    ensures sock.reliable && memory && MsgData(old(sock.incoming)).Some? ==> peerAddr.Some?
    ensures sock.sent == old(sock.sent)
  {
    var ret, data := sock.RecvWaitAll(8);
    if ret != 8 { return None; }
    var addrLen := FromLE(data);
    if !memory { return None; }
    ret, data := sock.RecvWaitAll(addrLen);
    if ToInt(ret) != ToInt(addrLen) { return None; }
    // the rest of the buffer is as malloc left it
    var junk: seq<Byte> := seq(addrLen - |data|, _ => 0);
    peerAddr := Some(data + junk);
    if addrLen < 0xFFFF_FFFF {
      CastCheck(addrLen, ret);
      ghost var b := old(sock.incoming);
      assert b[8..][..addrLen] == b[8..8 + addrLen] && b[8..][addrLen..] == b[8 + addrLen..];
      assert addrLen == 0 ==> b[8..8 + addrLen] == [];
      assert data + junk == data;
    }
  }

  /** barrier of either side: 0 exactly when four bytes were read, whatever part of the own
      word went out, as long as send did not fail. */
  method BarrierCall(sock: Connection) returns (ret: int)
    modifies sock
    ensures ret == 0 ==> |old(sock.incoming)| >= 4 && sock.incoming == old(sock.incoming)[4..]
    ensures exists k :: 0 <= k <= 4 && sock.sent == old(sock.sent) + WORD[..k]
    ensures ret == 0 <==> |old(sock.incoming)| - |sock.incoming| == 4
    ensures |sock.sent| > |old(sock.sent)| ==> sock.asked == old(sock.asked) + 4 && (ret == 0 || ret == 1)
    ensures sock.reliable ==> sock.sent == old(sock.sent) + WORD && (ret == 0 <==> |old(sock.incoming)| >= 4)
  {
    var n := sock.SendWhole([0, 0, 0, 0]);
    assert old(sock.sent) + WORD[..0] == old(sock.sent);
    assert n >= 0 ==> sock.sent == old(sock.sent) + WORD[..n];
    if n < 0 { return n; }
    var dummy;
    n, dummy := sock.RecvWaitAll(4);
    ret := if n == 4 then 0 else 1;
  }

  // ------------------------------------- what the calls are in the machine of the two sides

  predicate ServerEvent(e: Event) {
    e.ServerSendsLength? || e.ServerSendsAddress? || e.ServerTakesAddress? || e.ServerReplies?
    || e.ServerSendsWord? || e.ServerReadsWord? || e.ServerFails?
  }

  /** While a call of the server, or of the client, waits, the other side may go on. */
  ghost predicate ClientGoesOn(c: Setup, w: World, v: World) {
    exists events :: Run(Moves(c), w, events) == Some(v) && forall k | 0 <= k < |events| :: !ServerEvent(events[k])
  }

  ghost predicate ServerGoesOn(c: Setup, w: World, v: World) {
    exists events :: Run(Moves(c), w, events) == Some(v) && forall k | 0 <= k < |events| :: ServerEvent(events[k])
  }

  lemma OwnSide(c: Setup, w: World, e: Event)
    requires Next(c, w, e).Some?
    ensures if ServerEvent(e) then Next(c, w, e).value.client == w.client else Next(c, w, e).value.server == w.server
  {
  }

  lemma ClientGoesOnKeeps(c: Setup, r: World -> bool, w: World, v: World)
    requires Saturated(Moves(c), r) && r(w) && ClientGoesOn(c, w, v)
    ensures r(v) && v.server == w.server
  {
    var events :| Run(Moves(c), w, events) == Some(v) && forall k | 0 <= k < |events| :: !ServerEvent(events[k]);
    var inv := (x: World) => r(x) && x.server == w.server;
    forall x: World, e: Event | inv(x) && !ServerEvent(e) && Moves(c)(x, e).Some? ensures inv(Moves(c)(x, e).value) {
      OwnSide(c, x, e);
      var y := Advance(Moves(c), r, x, e);
    }
    hide Next, ServerEvent;
    assert [] + events == events;
    Persistence(Moves(c), w, inv, (e: Event) => !ServerEvent(e), [], events);
  }

  lemma ServerGoesOnKeeps(c: Setup, r: World -> bool, w: World, v: World)
    requires Saturated(Moves(c), r) && r(w) && ServerGoesOn(c, w, v)
    ensures r(v) && v.client == w.client
  {
    var events :| Run(Moves(c), w, events) == Some(v) && forall k | 0 <= k < |events| :: ServerEvent(events[k]);
    var inv := (x: World) => r(x) && x.client == w.client;
    forall x: World, e: Event | inv(x) && ServerEvent(e) && Moves(c)(x, e).Some? ensures inv(Moves(c)(x, e).value) {
      OwnSide(c, x, e);
      var y := Advance(Moves(c), r, x, e);
    }
    hide Next, ServerEvent;
    assert [] + events == events;
    Persistence(Moves(c), w, inv, (e: Event) => ServerEvent(e), [], events);
  }

  lemma ServerGoesOnInv(c: Setup, w: World, v: World)
    requires ValidSetup(c) && Inv(c, w) && ServerGoesOn(c, w, v)
    ensures Inv(c, v)
  {
    var events :| Run(Moves(c), w, events) == Some(v) && forall k | 0 <= k < |events| :: ServerEvent(events[k]);
    var inv := (x: World) => Inv(c, x);
    forall x: World, e: Event | inv(x) && Moves(c)(x, e).Some? ensures inv(Moves(c)(x, e).value) {
      NextKeepsInv(c, x, e);
    }
    hide Next, Inv;
    Invariance(Moves(c), w, inv, events);
  }

  /** A call that waits for n bytes returns once the other side has written them, or when the
      stream is at its end.  What it writes after that may follow on the socket. */
  predicate Supplied(incoming: seq<Byte>, written: seq<Byte>, read: nat, n: nat) {
    read <= |written| && written[read..] <= incoming && (read + n <= |written| || incoming == written[read..])
  }

  /** A send of the server that stopped after k bytes of length and address. */
  lemma PartlySent(c: Setup, r: World -> bool, w: World, k: nat) returns (w': World)
    requires Saturated(Moves(c), r) && r(w) && w.server.phase.Hello? && k <= |Prefixed(c.serverAddr)|
    ensures r(w') && w'.server.phase.Lost? && w' == w.(server := w'.server)
    ensures w'.server.sent == w.server.sent + Prefixed(c.serverAddr)[..k] && w'.server.read == w.server.read
  {
    if k <= 8 {
      w' := Advance(Moves(c), r, w, ServerFails(k));
      assert Prefixed(c.serverAddr)[..k] == LE(|c.serverAddr|, 8)[..k];
    } else {
      w' := Advance(Moves(c), r, w, ServerSendsLength);
      w' := Advance(Moves(c), r, w', ServerFails(k - 8));
      assert Prefixed(c.serverAddr)[..k] == LE(|c.serverAddr|, 8) + c.serverAddr[..k - 8];
    }
  }

  /** The server's call is a move of the machine to the test, or to its failure. */
  method ServerIntroduces(c: Setup, sock: Connection, ghost r: World -> bool, ghost w: World)
    returns (ok: bool, ghost w': World)
    requires ValidSetup(c) && Saturated(Moves(c), r) && r(w) && w.server.phase.Hello? && sock.sent == w.server.sent
    modifies sock
    ensures r(w') && sock.sent == w'.server.sent && sock.incoming == old(sock.incoming) && w' == w.(server := w'.server)
    ensures w'.server.phase == if ok then Test else Lost
  {
    ok := SendAddress(sock, c.serverAddr);
    if ok {
      w' := Advance(Moves(c), r, w, ServerSendsLength);
      w' := Advance(Moves(c), r, w', ServerSendsAddress);
    } else {
      ghost var k :| 0 <= k <= |Prefixed(c.serverAddr)| && sock.sent == old(sock.sent) + Prefixed(c.serverAddr)[..k];
      w' := PartlySent(c, r, w, k);
    }
  }

  /** What the client reads of a stream that supplies it. */
  lemma SuppliedAddress(c: Setup, v: World, incoming: seq<Byte>)
    requires ValidSetup(c) && Inv(c, v) && v.client.phase.Hello?
    requires Supplied(incoming, v.server.sent, 0, |Prefixed(c.serverAddr)|)
    ensures |incoming| >= 8 ==> |v.server.sent| >= 8 && incoming[..8] == v.server.sent[..8] && FromLE(incoming[..8]) == |c.serverAddr|
    ensures MsgData(incoming).Some? ==>
              |v.server.sent| >= |Prefixed(c.serverAddr)| && MsgData(incoming) == Some(c.serverAddr)
    ensures |v.server.sent| >= |Prefixed(c.serverAddr)| ==> MsgData(incoming).Some?
  {
    ServerPrefix(c, v.server.sent);
    hide Written;
    var n := |c.serverAddr|;
    assert v.server.sent[0..] == v.server.sent == incoming[..|v.server.sent|];
    if |v.server.sent| >= 8 + n { assert incoming[8..8 + n] == v.server.sent[8..8 + n]; }
  }

  /** The client's call, while the server goes on from w to v, is a move of the machine to
      the test, with the address that the machine's client holds, or to its failure. */
  method ClientListens(c: Setup, sock: Connection, memory: bool, ghost r: World -> bool, ghost w: World, ghost v: World)
    returns (peerAddr: Option<seq<Byte>>, ghost w': World)
    requires ValidSetup(c) && Saturated(Moves(c), r) && r(w) && Inv(c, w)
    requires w.client.phase.Hello? && sock.sent == w.client.sent && ServerGoesOn(c, w, v)
    requires Supplied(sock.incoming, v.server.sent, 0, |Prefixed(c.serverAddr)|)
    modifies sock
    ensures r(w') && sock.sent == w'.client.sent && w'.server == v.server
    ensures peerAddr.Some? ==> w'.client.phase.Test? && w'.client.peer == peerAddr == Some(c.serverAddr)
    ensures peerAddr.None? ==> w'.client.phase.Lost?
    ensures sock.reliable && memory && |v.server.sent| >= |Prefixed(c.serverAddr)| ==> peerAddr.Some?
  {
    hide Inv, Supplied, ServerGoesOn, Saturated;
    ServerGoesOnKeeps(c, r, w, v);
    ServerGoesOnInv(c, w, v);
    SuppliedAddress(c, v, sock.incoming);
    peerAddr := ReceiveAddress(sock, memory);
    hide MsgData;
    if peerAddr.Some? {
      w' := ReadsAddress(c, r, v);
    } else {
      w' := GivesUp(c, r, v);
    }
  }

  lemma GivesUp(c: Setup, r: World -> bool, v: World) returns (w': World)
    requires Saturated(Moves(c), r) && r(v) && v.client.phase.Hello?
    ensures r(w') && w'.server == v.server && w'.client.sent == v.client.sent && w'.client.phase.Lost?
  {
    w' := Advance(Moves(c), r, v, ClientFails(0));
  }

  lemma ReadsAddress(c: Setup, r: World -> bool, v: World) returns (w': World)
    requires ValidSetup(c) && Saturated(Moves(c), r) && r(v) && Inv(c, v) && v.client.phase.Hello?
    requires |v.server.sent| >= |Prefixed(c.serverAddr)|
    ensures r(w') && w'.server == v.server && w'.client.sent == v.client.sent
    ensures w'.client.phase.Test? && w'.client.peer == Some(c.serverAddr)
  {
    ServerPrefix(c, v.server.sent);
    hide Written;
    assert v.server.sent[0..8] == v.server.sent[..8];
    w' := Advance(Moves(c), r, v, ClientReadsLength);
    w' := Advance(Moves(c), r, w', ClientReadsAddress);
  }

  /** The server's word goes out, the client goes on, and the server's recv returns. */
  lemma ServerThroughBarrier(c: Setup, r: World -> bool, w: World, k: nat, v: World, incoming: seq<Byte>, passes: bool)
    returns (w': World)
    requires Saturated(Moves(c), r) && r(w) && w.server.phase.Tested? && k <= 4
    requires ClientGoesOn(c, w.(server := w.server.(phase := Waiting, sent := w.server.sent + WORD[..k])), v)
    requires Supplied(incoming, v.client.sent, w.server.read, 4) && (passes ==> |incoming| >= 4)
    ensures r(w') && w'.server.sent == w.server.sent + WORD[..k]
    ensures w'.server.phase == if passes then Passed else Lost
  {
    var x := Advance(Moves(c), r, w, ServerSendsWord(k));
    ClientGoesOnKeeps(c, r, x, v);
    hide ClientGoesOn;
    if passes {
      w' := Advance(Moves(c), r, v, ServerReadsWord);
    } else {
      var none: seq<Byte> := [];
      assert v.server.sent + none[..0] == v.server.sent;
      w' := Advance(Moves(c), r, v, ServerFails(0));
    }
  }

  lemma ClientThroughBarrier(c: Setup, r: World -> bool, w: World, k: nat, v: World, incoming: seq<Byte>, passes: bool)
    returns (w': World)
    requires Saturated(Moves(c), r) && r(w) && w.client.phase.Tested? && k <= 4
    requires ServerGoesOn(c, w.(client := w.client.(phase := Waiting, sent := w.client.sent + WORD[..k])), v)
    requires Supplied(incoming, v.server.sent, w.client.read, 4) && (passes ==> |incoming| >= 4)
    ensures r(w') && w'.client.sent == w.client.sent + WORD[..k]
    ensures w'.client.phase == if passes then Passed else Lost
  {
    var x := Advance(Moves(c), r, w, ClientSendsWord(k));
    ServerGoesOnKeeps(c, r, x, v);
    hide ServerGoesOn;
    if passes {
      w' := Advance(Moves(c), r, v, ClientReadsWord);
    } else {
      w' := Advance(Moves(c), r, v, ClientFails(0));
    }
  }

  /** The server's barrier call: its word goes out, and while it waits, the client goes on as
      `others` says.  It returns 0 exactly when the machine's server passes. */
  method ServerBarrier(c: Setup, sock: Connection, ghost r: World -> bool, ghost w: World, ghost others: World -> World)
    returns (ret: int, ghost w': World)
    requires Saturated(Moves(c), r) && r(w) && w.server.phase.Tested? && sock.sent == w.server.sent
    requires forall k: nat {:trigger WORD[..k]} | k <= 4 ::
               var x := w.(server := w.server.(phase := Waiting, sent := w.server.sent + WORD[..k]));
               ClientGoesOn(c, x, others(x)) && Supplied(sock.incoming, others(x).client.sent, w.server.read, 4)
    modifies sock
    ensures r(w') && sock.sent == w'.server.sent
    ensures w'.server.phase == if ret == 0 then Passed else Lost
  {
    hide Saturated, ClientGoesOn, Supplied;
    ret := BarrierCall(sock);
    ghost var k: nat :| k <= 4 && sock.sent == old(sock.sent) + WORD[..k];
    ghost var x := w.(server := w.server.(phase := Waiting, sent := w.server.sent + WORD[..k]));
    w' := ServerThroughBarrier(c, r, w, k, others(x), old(sock.incoming), ret == 0);
  }

  /** The same for the client. */
  method ClientBarrier(c: Setup, sock: Connection, ghost r: World -> bool, ghost w: World, ghost others: World -> World)
    returns (ret: int, ghost w': World)
    requires Saturated(Moves(c), r) && r(w) && w.client.phase.Tested? && sock.sent == w.client.sent
    requires forall k: nat {:trigger WORD[..k]} | k <= 4 ::
               var x := w.(client := w.client.(phase := Waiting, sent := w.client.sent + WORD[..k]));
               ServerGoesOn(c, x, others(x)) && Supplied(sock.incoming, others(x).server.sent, w.client.read, 4)
    modifies sock
    ensures r(w') && sock.sent == w'.client.sent
    ensures w'.client.phase == if ret == 0 then Passed else Lost
  {
    hide Saturated, ServerGoesOn, Supplied;
    ret := BarrierCall(sock);
    ghost var k: nat :| k <= 4 && sock.sent == old(sock.sent) + WORD[..k];
    ghost var x := w.(client := w.client.(phase := Waiting, sent := w.client.sent + WORD[..k]));
    w' := ClientThroughBarrier(c, r, w, k, others(x), old(sock.incoming), ret == 0);
  }
}
