/** Who owns a UCX handle: UcxMem and UcxEndpoint of 04_ucp_rma_client_server, which
    hold one handle each, can be moved and release it when they are destroyed. */
module Handles {
  import opened Bytes
  import opened Machine

  /** The wrapper objects in scope and the handle each holds; all handles created so
      far are numbered 0..created.  `released` and `dropped` list, in order, the
      handles given back to UCX and those overwritten by a move. */
  datatype World = World(objects: map<nat, Option<nat>>, created: nat, released: seq<nat>, dropped: seq<nat>)

  const Empty := World(map[], 0, [], [])

  datatype Event =
    | Default(o: nat)
    | Construct(o: nat)                // ucp_mem_map or ucp_ep_create succeeded
    | ConstructFails(o: nat)           // it did not: the constructor throws
    | MoveConstruct(o: nat, from: nat)
    | MoveAssign(o: nat, from: nat)
    | Destroy(o: nat)

  /** operator=(&&): nothing for a self-move; else the handle goes over and what the
      target held before is forgotten. */
  function Assign(w: World, o: nat, from: nat): World
    requires o in w.objects && from in w.objects
  {
    if o == from then w
    else
      var lost := w.objects[o];
      w.(objects := w.objects[o := w.objects[from]][from := None],
         dropped := if lost.Some? then w.dropped + [lost.value] else w.dropped)
  }

  function Next(w: World, e: Event): Option<World> {
    match e
    case Default(o) => if o in w.objects then None else Some(w.(objects := w.objects[o := None]))
    case Construct(o) =>
      if o in w.objects then None
      else Some(w.(objects := w.objects[o := Some(w.created)], created := w.created + 1))
    case ConstructFails(o) => if o in w.objects then None else Some(w)
    case MoveConstruct(o, from) =>
      if o in w.objects || from !in w.objects then None
      else Some(Assign(w.(objects := w.objects[o := None]), o, from))
    case MoveAssign(o, from) =>
      if o !in w.objects || from !in w.objects then None else Some(Assign(w, o, from))
    case Destroy(o) =>
      if o !in w.objects then None
      else
        var h := w.objects[o];
        Some(w.(objects := w.objects - {o}, released := if h.Some? then w.released + [h.value] else w.released))
  }

  function Moves(): (World, Event) -> Option<World> {
    (w, e) => Next(w, e)
  }

  function Exec(events: seq<Event>): Option<World> {
    Run(Moves(), Empty, events)
  }

  // ---------------------------------------------------------------- invariant

  predicate Owns(w: World, o: nat, h: nat) { o in w.objects && w.objects[o] == Some(h) }

  function Owners(w: World): set<nat> { set o | o in w.objects && w.objects[o].Some? }

  predicate NoRepeats(s: seq<nat>) { forall i, j | 0 <= i < j < |s| :: s[i] != s[j] }

  ghost predicate Inv(w: World) {
    && (forall o: nat, p: nat, h: nat :: Owns(w, o, h) && Owns(w, p, h) ==> o == p)
    && (forall o: nat, h: nat :: Owns(w, o, h) ==> h < w.created && h !in w.released && h !in w.dropped)
    && NoRepeats(w.released) && NoRepeats(w.dropped)
    && (forall h | h in w.released :: h < w.created && h !in w.dropped)
    && (forall h | h in w.dropped :: h < w.created)
    && w.created == |Owners(w)| + |w.released| + |w.dropped|
  }

  lemma ConstructKeepsInv(w: World, o: nat)
    requires Inv(w) && o !in w.objects
    ensures Inv(Next(w, Construct(o)).value)
  {
    var t := Next(w, Construct(o)).value;
    forall p, h | Owns(t, p, h) ensures (p == o && h == w.created) || Owns(w, p, h) {}
    assert Owners(t) == Owners(w) + {o};
  }

  lemma DestroyKeepsInv(w: World, o: nat)
    requires Inv(w) && o in w.objects
    ensures Inv(Next(w, Destroy(o)).value)
  {
    var t := Next(w, Destroy(o)).value;
    forall p, h | Owns(t, p, h) ensures Owns(w, p, h) && p != o {}
    assert Owners(t) == Owners(w) - {o};
    if w.objects[o].Some? { assert Owns(w, o, w.objects[o].value); }
  }

  lemma AssignMovesOwner(w: World, o: nat, from: nat)
    requires o in w.objects && from in w.objects && o != from
    ensures |Owners(Assign(w, o, from))| + |Assign(w, o, from).dropped| == |Owners(w)| + |w.dropped|
    ensures forall p: nat, h: nat | Owns(Assign(w, o, from), p, h) ::
              if p == o then Owns(w, from, h) else Owns(w, p, h) && p != from
  {
    var t := Assign(w, o, from);
    if w.objects[from].Some? {
      assert Owners(t) == Owners(w) - {from} + {o};
    } else {
      assert Owners(t) == Owners(w) - {o};
    }
  }

  lemma AssignKeepsInv(w: World, o: nat, from: nat)
    requires Inv(w) && o in w.objects && from in w.objects
    ensures Inv(Assign(w, o, from))
  {
    if o != from {
      AssignMovesOwner(w, o, from);
      if w.objects[o].Some? { assert Owns(w, o, w.objects[o].value); }
    }
  }

  lemma DefaultKeepsInv(w: World, o: nat)
    requires Inv(w) && o !in w.objects
    ensures Inv(w.(objects := w.objects[o := None]))
  {
    var t := w.(objects := w.objects[o := None]);
    forall p, h | Owns(t, p, h) ensures Owns(w, p, h) {}
    assert Owners(t) == Owners(w);
  }

  lemma NextKeepsInv(w: World, e: Event)
    requires Inv(w) && Next(w, e).Some?
    ensures Inv(Next(w, e).value)
  {
    match e {
      case Default(o) => DefaultKeepsInv(w, o);
      case Construct(o) => ConstructKeepsInv(w, o);
      case ConstructFails(o) =>
      case MoveConstruct(o, from) =>
        DefaultKeepsInv(w, o);
        AssignKeepsInv(w.(objects := w.objects[o := None]), o, from);
      case MoveAssign(o, from) => AssignKeepsInv(w, o, from);
      case Destroy(o) => DestroyKeepsInv(w, o);
    }
  }

  lemma ExecKeepsInv(events: seq<Event>)
    requires Exec(events).Some?
    ensures Inv(Exec(events).value)
  {
    var inv := (w: World) => Inv(w);
    assert Owners(Empty) == {};
    forall w: World, e: Event | inv(w) && Moves()(w, e).Some? ensures inv(Moves()(w, e).value) {
      NextKeepsInv(w, e);
    }
    Invariance(Moves(), Empty, inv, events);
  }

  // ------------------------------------------------------------- main results

  /** Over any sequence of constructions, moves and destructions no handle has two
      owners, none is released twice or while owned, and every handle ever created is
      owned, released or was overwritten by a move. */
  lemma Ownership(events: seq<Event>)
    requires Exec(events).Some?
    ensures
      var w := Exec(events).value;
      && (forall o: nat, p: nat, h: nat :: Owns(w, o, h) && Owns(w, p, h) ==> o == p)
      && (forall o: nat, h: nat :: Owns(w, o, h) ==> h !in w.released && h !in w.dropped)
      && NoRepeats(w.released) && (forall h | h in w.released :: h !in w.dropped)
      && w.created == |Owners(w)| + |w.released| + |w.dropped|
  {
    ExecKeepsInv(events);
  }

  /** A move onto another object that still holds a handle. */
  predicate Overwrites(w: World, e: Event) {
    e.MoveAssign? && e.o != e.from && e.o in w.objects && w.objects[e.o].Some?
  }

  /** The run never does that. */
  ghost predicate Careful(events: seq<Event>) {
    forall k | 0 <= k < |events| :: Exec(events[..k]).Some? ==> !Overwrites(Exec(events[..k]).value, events[k])
  }

  lemma DropsExactly(w: World, e: Event)
    requires Next(w, e).Some?
    ensures Next(w, e).value.dropped == [] <==> w.dropped == [] && !Overwrites(w, e)
  {
  }

  lemma {:induction false} DroppedExactly(events: seq<Event>)
    requires Exec(events).Some?
    ensures Exec(events).value.dropped == [] <==> Careful(events)
  {
    if events != [] {
      var n := |events| - 1;
      var front := events[..n];
      DroppedExactly(front);
      assert forall k | 0 <= k < n :: front[..k] == events[..k] && front[k] == events[k];
      DropsExactly(Exec(front).value, events[n]);
      hide Next, Overwrites;
    }
  }

  /** Exactly when all handles are given back: once every object is destroyed, each
      handle created was released if and only if no move hit a live object. */
  lemma ReleasedExactly(events: seq<Event>)
    requires Exec(events).Some? && Owners(Exec(events).value) == {}
    ensures |Exec(events).value.released| == Exec(events).value.created <==> Careful(events)
  {
    ExecKeepsInv(events);
    DroppedExactly(events);
  }

  // ---------------------------------------------------------------- the class

  /** What a move between two objects, or onto a new one, does in the machine. */
  lemma AssignStep(w: World, o: nat, from: nat)
    requires o in w.objects && from in w.objects && o != from
    ensures
      var t := Next(w, MoveAssign(o, from));
      t.Some? && t.value.objects == w.objects[o := w.objects[from]][from := None]
      && t.value.created == w.created && t.value.released == w.released
  {
  }

  lemma MoveStep(w: World, o: nat, from: nat)
    requires o !in w.objects && from in w.objects
    ensures
      var t := Next(w, MoveConstruct(o, from));
      t.Some? && t.value.objects == w.objects[o := w.objects[from]][from := None]
      && t.value.created == w.created && t.value.released == w.released
  {
    var x := w.(objects := w.objects[o := None]);
    assert Assign(x, o, from).objects == w.objects[o := w.objects[from]][from := None];
  }

  /** The live handles are those created and not released. */
  ghost predicate Outstanding(live: set<nat>, created: nat, released: seq<nat>) {
    forall h: nat :: h in live <==> h < created && h !in released
  }

  /** The memory handles UCX has given out and not got back, and the run of the machine
      that the objects have made. */
  class Ucx {
    var live: set<nat>
    var created: nat
    ghost var events: seq<Event>
    ghost var w: World
    ghost var objects: map<nat, UcxMem>

    ghost predicate Valid()
      reads this, objects.Values
    {
      && Exec(events) == Some(w)
      && created == w.created && Outstanding(live, created, w.released)
      && objects.Keys == w.objects.Keys
      && forall o | o in objects :: objects[o].id == o && objects[o].memh == w.objects[o]
    }

    constructor ()
      ensures Valid() && live == {} && created == 0 && events == [] && objects == map[]
    {
      live, created := {}, 0;
      events, w, objects := [], Empty, map[];
    }

    /** Record what an object has just done. */
    ghost method Follow(e: Event, objects': map<nat, UcxMem>)
      requires Exec(events) == Some(w) && Next(w, e).Some?
      modifies this`events, this`w, this`objects
      ensures events == old(events) + [e] && Some(w) == Next(old(w), e) == Exec(events) && objects == objects'
    {
      Extend(Moves(), Empty, events, e);
      events, w, objects := events + [e], Next(w, e).value, objects';
    }
  }

  class UcxMem {
    ghost const id: nat
    var base: nat
    var len: nat
    var memh: Option<nat>
    var ctx: Option<nat>

    /** The object is one of those in scope. */
    ghost predicate InScope(u: Ucx)
      reads u
    {
      id in u.objects && u.objects[id] == this
    }

    constructor Default(u: Ucx, ghost id: nat)
      requires u.Valid() && id !in u.objects
      modifies u
      ensures u.Valid() && u.events == old(u.events) + [Event.Default(id)] && u.objects == old(u.objects)[id := this] && this.id == id
      ensures base == 0 && len == 0 && memh == None && ctx == None && u.live == old(u.live)
    {
      this.id := id;
      base, len, memh, ctx := 0, 0, None, None;
      new;
      u.Follow(Event.Default(id), u.objects[id := this]);
    }

    /** The mapping constructor, where ucp_mem_map succeeds. */
    constructor Mapped(u: Ucx, ctx: nat, base: nat, len: nat, ghost id: nat)
      requires u.Valid() && id !in u.objects
      modifies u
      ensures u.Valid() && u.events == old(u.events) + [Construct(id)] && u.objects == old(u.objects)[id := this] && this.id == id
      ensures memh == Some(old(u.created)) && this.base == base && this.len == len && this.ctx == Some(ctx)
      ensures u.live == old(u.live) + {old(u.created)} && old(u.created) !in old(u.live)
    {
      this.id := id;
      this.base, this.len, this.ctx := base, len, Some(ctx);
      memh := Some(u.created);
      new;
      ExecKeepsInv(u.events);
      hide Exec;
      u.live, u.created := u.live + {u.created}, u.created + 1;
      u.Follow(Construct(id), u.objects[id := this]);
    }

    /** The mapping constructor, `mapped` telling whether ucp_mem_map succeeds: null stands
        for the exception, which leaves nothing. */
    static method Map(u: Ucx, ctx: nat, base: nat, len: nat, mapped: bool, ghost id: nat) returns (mem: UcxMem?)
      requires u.Valid() && id !in u.objects
      modifies u
      ensures u.Valid()
      ensures mem != null <==> mapped
      ensures mem == null ==> u.events == old(u.events) + [ConstructFails(id)] && u.live == old(u.live) && u.objects == old(u.objects)
      ensures mem != null ==> fresh(mem) && u.events == old(u.events) + [Construct(id)] && mem.InScope(u)
                              && mem.memh.Some? && mem.base == base && mem.len == len && mem.ctx == Some(ctx) && u.live == old(u.live) + {mem.memh.value} && mem.memh.value !in old(u.live)
    {
      if mapped {
        mem := new UcxMem.Mapped(u, ctx, base, len, id);
      } else {
        mem := null;
        u.Follow(ConstructFails(id), u.objects);
      }
    }

    /** UcxMem(UcxMem&&). */
    constructor Move(u: Ucx, other: UcxMem, ghost id: nat)
      requires u.Valid() && id !in u.objects && other.InScope(u)
      modifies u, other
      ensures u.Valid() && u.events == old(u.events) + [MoveConstruct(id, other.id)] && u.objects == old(u.objects)[id := this] && this.id == id
      ensures memh == old(other.memh) && base == old(other.base) && len == old(other.len) && ctx == old(other.ctx)
      ensures other.memh == None && other.base == 0 && other.len == 0 && other.ctx == None
      ensures u.live == old(u.live)
    {
      hide Exec, Outstanding, Next;
      this.id := id;
      base, len, memh, ctx := 0, 0, None, None;
      new;
      MoveStep(u.w, id, other.id);
      TakeOver(other);
      u.Follow(MoveConstruct(id, other.id), u.objects[id := this]);
    }

    /** The four fields go over. */
    method TakeOver(other: UcxMem)
      requires this != other
      modifies this, other
      ensures memh == old(other.memh) && base == old(other.base) && len == old(other.len) && ctx == old(other.ctx)
      ensures other.memh == None && other.base == 0 && other.len == 0 && other.ctx == None
    {
      base, len, memh, ctx := other.base, other.len, other.memh, other.ctx;
      other.base, other.len, other.memh, other.ctx := 0, 0, None, None;
    }

    /** operator=(UcxMem&&). */
    method MoveAssign(u: Ucx, other: UcxMem)
      requires u.Valid() && InScope(u) && other.InScope(u)
      modifies u, this, other
      ensures u.Valid() && u.events == old(u.events) + [Event.MoveAssign(id, other.id)] && u.objects == old(u.objects)
      ensures this == other ==> memh == old(memh) && base == old(base) && len == old(len) && ctx == old(ctx)
      ensures this != other ==>
                && memh == old(other.memh) && base == old(other.base) && len == old(other.len) && ctx == old(other.ctx)
                && other.memh == None && other.base == 0 && other.len == 0 && other.ctx == None
      ensures u.live == old(u.live)
    {
      if this == other {
        u.Follow(Event.MoveAssign(id, other.id), u.objects);
      } else {
        hide Exec, Outstanding, Next;
        AssignStep(u.w, id, other.id);
        TakeOver(other);
        u.Follow(Event.MoveAssign(id, other.id), u.objects);
      }
    }

    /** The destructor: unmaps a handle that is still held.  It is always one that UCX has
        given out and not got back. */
    method Destroy(u: Ucx)
      requires u.Valid() && InScope(u)
      modifies u
      ensures u.Valid() && u.events == old(u.events) + [Event.Destroy(id)] && u.objects == old(u.objects) - {id}
      ensures memh.Some? ==> memh.value in old(u.live)
      ensures u.live == (if memh.Some? then old(u.live) - {memh.value} else old(u.live))
    {
      ExecKeepsInv(u.events);
      assert memh.Some? ==> Owns(u.w, id, memh.value);
      hide Exec;
      if memh.Some? {
        u.live := u.live - {memh.value};
      }
      u.Follow(Event.Destroy(id), u.objects - {id});
    }
  }
}
