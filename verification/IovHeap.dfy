/** The buffers of one send_recv call in 03_ucp_am_stream_tag_client_server: an iov list
    on the heap and one buffer per entry.  Any allocation after the list itself may
    fail, and so may filling the buffers and the request. */
module IovHeap {
  import opened Bytes

  class Heap {
    var live: set<nat>
    var next: nat

    ghost predicate Valid()
      reads this
    {
      forall p | p in live :: p < next
    }

    constructor ()
      ensures Valid() && live == {}
    {
      live, next := {}, 0;
    }

    /** malloc that succeeds. */
    method Take() returns (p: nat)
      requires Valid()
      modifies this
      ensures Valid() && p !in old(live) && live == old(live) + {p} && p >= old(next) && next == p + 1
    {
      p := next;
      live, next := live + {p}, next + 1;
    }

    /** malloc: NULL is None, when there is no memory. */
    method Malloc(memory: bool) returns (p: Option<nat>)
      requires Valid()
      modifies this
      ensures Valid() && next >= old(next)
      ensures p.Some? == memory
      ensures p.None? ==> live == old(live)
      ensures p.Some? ==> p.value !in old(live) && live == old(live) + {p.value} && p.value >= old(next)
    {
      if memory {
        var q := Take();
        p := Some(q);
      } else {
        p := None;
      }
    }

    /** free: nothing for NULL; what is freed must be live, so nothing is freed twice. */
    method Free(p: Option<nat>)
      requires Valid() && (p.Some? ==> p.value in live)
      modifies this`live
      ensures Valid() && live == (if p.Some? then old(live) - {p.value} else old(live))
    {
      if p.Some? { live := live - {p.value}; }
    }
  }

  /** The buffers an iov list points to. */
  function Buffers(iov: seq<Option<nat>>): set<nat> {
    set k | 0 <= k < |iov| && iov[k].Some? :: iov[k].value
  }

  /** No two entries share a buffer. */
  predicate Distinct(iov: seq<Option<nat>>) {
    forall i, j | 0 <= i < j < |iov| && iov[i].Some? && iov[j].Some? :: iov[i] != iov[j]
  }

  lemma BuffersSnoc(iov: seq<Option<nat>>, p: Option<nat>)
    ensures Buffers(iov + [p]) == Buffers(iov) + if p.Some? then {p.value} else {}
  {
    var all := iov + [p];
    forall x | x in Buffers(iov) ensures x in Buffers(all) {
      var k :| 0 <= k < |iov| && iov[k].Some? && iov[k].value == x;
      assert all[k].Some? && all[k].value == x;
    }
    if p.Some? { assert all[|iov|].Some? && all[|iov|].value == p.value; }
  }

  /** buffer_free: every buffer of the list, then the list. */
  method BufferFree(h: Heap, iov: array<Option<nat>>, list: nat)
    requires h.Valid() && Distinct(iov[..]) && Buffers(iov[..]) <= h.live && list in h.live && list !in Buffers(iov[..])
    modifies h
    ensures h.Valid() && h.live == old(h.live) - Buffers(iov[..]) - {list}
  {
    var idx := 0;
    while idx < iov.Length
      invariant 0 <= idx <= iov.Length && h.Valid()
      invariant h.live == old(h.live) - Buffers(iov[..idx])
    {
      BuffersSnoc(iov[..idx], iov[idx]);
      assert iov[..idx] + [iov[idx]] == iov[..idx + 1];
      if iov[idx].Some? {
        assert iov[..][idx].value in Buffers(iov[..]);
        assert iov[idx].value !in Buffers(iov[..idx]);
      }
      h.Free(iov[idx]);
      idx := idx + 1;
    }
    assert iov[..idx] == iov[..];
    h.Free(Some(list));
  }

  lemma DistinctSnoc(iov: seq<Option<nat>>, p: Option<nat>)
    requires Distinct(iov) && (p.Some? ==> p.value !in Buffers(iov))
    ensures Distinct(iov + [p])
  {
    forall k | 0 <= k < |iov| && iov[k].Some? ensures iov[k].value in Buffers(iov) {}
  }

  lemma {:induction false} NullTail(iov: seq<Option<nat>>, n: nat)
    requires n <= |iov| && forall k | n <= k < |iov| :: iov[k] == None
    ensures Buffers(iov) == Buffers(iov[..n]) && (Distinct(iov[..n]) ==> Distinct(iov))
  {
    forall x | x in Buffers(iov) ensures x in Buffers(iov[..n]) {
      var k :| 0 <= k < |iov| && iov[k].Some? && iov[k].value == x;
      assert iov[..n][k].value == x;
    }
    forall x | x in Buffers(iov[..n]) ensures x in Buffers(iov) {
      var k :| 0 <= k < n && iov[..n][k].Some? && iov[..n][k].value == x;
      assert iov[k].value == x;
    }
    if Distinct(iov[..n]) {
      forall i, j | 0 <= i < j < |iov| && iov[i].Some? && iov[j].Some? ensures iov[i] != iov[j] {
        assert iov[..n][i] == iov[i] && iov[..n][j] == iov[j];
      }
    }
  }

  /** All entries point to buffers of their own: then there are as many as entries. */
  lemma {:induction false} AsManyBuffers(iov: seq<Option<nat>>)
    requires Distinct(iov) && forall k | 0 <= k < |iov| :: iov[k].Some?
    ensures |Buffers(iov)| == |iov|
    decreases |iov|
  {
    if iov != [] {
      var front, last := iov[..|iov| - 1], iov[|iov| - 1];
      assert forall k | 0 <= k < |front| :: front[k] == iov[k];
      AsManyBuffers(front);
      BuffersSnoc(front, last);
      assert iov == front + [last];
      assert last.value !in Buffers(front);
    }
  }

  /** The answers of malloc for the buffers, in order. */
  predicate Enough(memory: seq<bool>, n: nat)
    requires n <= |memory|
  {
    forall k | 0 <= k < n :: memory[k]
  }

  /** buffer_malloc on a zeroed list: a buffer of its own for every entry if malloc gave
      each of them, else nothing and the list gone too. */
  method BufferMalloc(h: Heap, iov: array<Option<nat>>, list: nat, memory: seq<bool>, ghost outer: set<nat>) returns (ret: int)
    requires h.Valid() && h.live == outer + {list} && list !in outer && |memory| == iov.Length
    requires forall k | 0 <= k < iov.Length :: iov[k] == None
    modifies h, iov
    ensures h.Valid() && ret == if Enough(memory, iov.Length) then 0 else -1
    ensures ret == -1 ==> h.live == outer
    ensures ret == 0 ==> Distinct(iov[..]) && h.live == outer + {list} + Buffers(iov[..])
    ensures ret == 0 ==> Buffers(iov[..]) !! outer + {list}
    ensures ret == 0 ==> (forall k | 0 <= k < iov.Length :: iov[k].Some?) && |Buffers(iov[..])| == iov.Length
  {
    var idx := 0;
    while idx < iov.Length
      invariant 0 <= idx <= iov.Length && h.Valid() && Enough(memory, idx)
      invariant forall k | 0 <= k < idx :: iov[k].Some?
      invariant forall k | idx <= k < iov.Length :: iov[k] == None
      invariant Distinct(iov[..idx]) && Buffers(iov[..idx]) !! outer + {list}
      invariant h.live == outer + {list} + Buffers(iov[..idx])
    {
      var p := h.Malloc(memory[idx]);
      ghost var before := iov[..idx];
      iov[idx] := p;
      assert iov[..idx] == before && iov[..idx + 1] == before + [p];
      BuffersSnoc(before, p);
      DistinctSnoc(before, p);
      if p.None? {
        NullTail(iov[..], idx);
        assert iov[..][..idx] == before;
        BufferFree(h, iov, list);
        return -1;
      }
      idx := idx + 1;
    }
    assert iov[..idx] == iov[..];
    AsManyBuffers(iov[..]);
    ret := 0;
  }

  /** One send_recv_stream, send_recv_tag or send_recv_am call that returns: it is 0 exactly
      if there was memory for all buffers, the sender could fill them, and the request
      went well; and whatever fails on the way, the heap is left as it was found. */
  method SendRecv(h: Heap, iovCnt: nat, isServer: bool, memory: seq<bool>, filled: bool, requestOk: bool) returns (ret: int)
    requires h.Valid() && |memory| == iovCnt
    modifies h
    ensures h.Valid() && h.live == old(h.live)
    ensures ret == if Enough(memory, iovCnt) && (isServer || filled) && requestOk then 0 else -1
  {
    var list := h.Take();
    var iov := new Option<nat>[iovCnt](_ => None);
    ret := BufferMalloc(h, iov, list, memory, old(h.live));
    if ret != 0 { return; }
    if !isServer && !filled {
      BufferFree(h, iov, list);
      return -1;
    }
    ret := if requestOk then 0 else -1;
    BufferFree(h, iov, list);
  }
}
