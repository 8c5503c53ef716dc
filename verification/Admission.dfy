/** Which clients the server of 03_ucp_am_stream_tag_client_server takes: the listener's
    callback server_conn_handle_cb and the accept loop of run_server.  The callback runs
    only while the accept loop progresses the listener's worker, any number of times in
    one call. */
module Admission {
  import opened Bytes

  /** How a session ends: the endpoint could not be created, the work failed, or it was done. */
  datatype Session = NoEndpoint | Failed | Done

  /** Of the requests reported by one progress call the first is admitted. */
  function Admitted(batches: seq<seq<nat>>): seq<nat> {
    if batches == [] then []
    else
      var last := batches[|batches| - 1];
      Admitted(batches[..|batches| - 1]) + if last == [] then [] else [last[0]]
  }

  /** All others are rejected. */
  function Rejected(batches: seq<seq<nat>>): seq<nat> {
    if batches == [] then []
    else
      var last := batches[|batches| - 1];
      Rejected(batches[..|batches| - 1]) + if last == [] then [] else last[1..]
  }

  function Reported(batches: seq<seq<nat>>): seq<nat> {
    if batches == [] then [] else Reported(batches[..|batches| - 1]) + batches[|batches| - 1]
  }

  /** Every request reported is admitted or rejected, once. */
  lemma {:induction false} EachRequestOnce(batches: seq<seq<nat>>)
    ensures multiset(Reported(batches)) == multiset(Admitted(batches)) + multiset(Rejected(batches))
  {
    if batches != [] {
      var last := batches[|batches| - 1];
      EachRequestOnce(batches[..|batches| - 1]);
      if last != [] { assert last == [last[0]] + last[1..]; }
    }
  }

  /** A session took place after progress call j, and how it ended. */
  predicate Served(batches: seq<seq<nat>>, sessions: seq<Session>, j: nat, outcome: Session)
    requires j < |batches| <= |sessions|
  {
    batches[j] != [] && sessions[j] == outcome
  }

  /** How many of the first n progress calls led to a session that was done. */
  function DoneSessions(batches: seq<seq<nat>>, sessions: seq<Session>, n: nat): nat
    requires n <= |batches| <= |sessions|
  {
    if n == 0 then 0
    else DoneSessions(batches, sessions, n - 1) + if Served(batches, sessions, n - 1, Done) then 1 else 0
  }

  class Server {
    /** ucx_server_ctx_t.conn_request. */
    var connRequest: Option<nat>
    /** Requests seen, those ucp_listener_reject was called for, those an endpoint was
        asked for, and the number of sessions finished. */
    var seen: nat
    var rejected: seq<nat>
    var served: seq<nat>
    var finished: nat

    ghost predicate Balanced()
      reads this
    {
      seen == finished + |rejected| + if connRequest.Some? then 1 else 0
    }

    constructor ()
      ensures Balanced() && connRequest == None && seen == 0 && rejected == [] && served == [] && finished == 0
    {
      connRequest, seen, rejected, served, finished := None, 0, [], [], 0;
    }

    /** server_conn_handle_cb. */
    method ConnHandleCb(request: nat)
      modifies this`connRequest, this`seen, this`rejected
      ensures seen == old(seen) + 1
      ensures old(connRequest).None? ==> connRequest == Some(request) && rejected == old(rejected)
      ensures old(connRequest).Some? ==> connRequest == old(connRequest) && rejected == old(rejected) + [request]
    {
      seen := seen + 1;
      if connRequest == None {
        connRequest := Some(request);
      } else {
        rejected := rejected + [request];
      }
    }

    /** One progress call on the listener's worker while the slot is free. */
    method Progress(batch: seq<nat>)
      requires Balanced() && connRequest == None
      modifies this`connRequest, this`seen, this`rejected
      ensures Balanced() && seen == old(seen) + |batch|
      ensures connRequest == (if batch == [] then None else Some(batch[0]))
      ensures rejected == old(rejected) + (if batch == [] then [] else batch[1..])
    {
      for k := 0 to |batch|
        invariant Balanced() && seen == old(seen) + k
        invariant connRequest == (if k == 0 then None else Some(batch[0]))
        invariant rejected == old(rejected) + (if k == 0 then [] else batch[1..k])
      {
        ConnHandleCb(batch[k]);
      }
    }

    /** The accept loop of run_server over the given reports and session outcomes, until
        the reports run out or a session does not end well: that one is the last, and
        leaves the slot occupied.  Every request reported is in the end
        either served or rejected, and only once.  Sessions never overlap: the slot is
        taken from the admission to the end of the session, and the endpoints asked for
        are exactly the admitted requests, in order. */
    method Run(batches: seq<seq<nat>>, sessions: seq<Session>) returns (used: nat)
      requires Balanced() && connRequest == None && seen == 0 && served == [] && rejected == [] && finished == 0
      requires |batches| <= |sessions|
      modifies this
      ensures used <= |batches|
      ensures Balanced() && seen == |Reported(batches[..used])|
      ensures served == Admitted(batches[..used]) && rejected == Rejected(batches[..used])
      ensures multiset(Reported(batches[..used])) == multiset(served) + multiset(rejected)
      ensures |served| == finished + if connRequest.Some? then 1 else 0
      ensures connRequest.Some? ==> served != [] && connRequest.value == served[|served| - 1]
      ensures connRequest.None? ==> used == |batches|
      ensures connRequest.Some? <==> used > 0 && batches[used - 1] != [] && sessions[used - 1] != Done
      ensures forall j | 0 <= j < used - 1 :: batches[j] != [] ==> sessions[j] == Done
      ensures finished == DoneSessions(batches, sessions, used)
    {
      used := 0;
      while used < |batches|
        invariant used <= |batches| && connRequest == None && Balanced()
        invariant seen == |Reported(batches[..used])|
        invariant served == Admitted(batches[..used]) && rejected == Rejected(batches[..used])
        invariant |served| == finished == DoneSessions(batches, sessions, used)
        invariant forall j | 0 <= j < used :: batches[j] != [] ==> sessions[j] == Done
      {
        Progress(batches[used]);
        assert batches[..used + 1][..used] == batches[..used];
        used := used + 1;
        if connRequest.Some? {
          served := served + [connRequest.value];
          if sessions[used - 1] != Done { break; }
          finished := finished + 1;
          connRequest := None;
        }
      }
      EachRequestOnce(batches[..used]);
    }
  }
}
