/** The search for a device and transport in 01_uct_am_hello_world: dev_tl_lookup and
    init_iface, with every answer of UCT as an input and every handle accounted for. */
module Lookup {
  import opened Bytes

  datatype AmKind = ShortCopy | BufferedCopy | ZeroCopy

  datatype Status = Ok | Unsupported | Failure

  /** A transport resource and how opening it goes. */
  datatype Transport = Transport(dev: string, name: string, config: bool, opens: bool, query: bool, caps: set<AmKind>)

  /** A memory domain: which of its calls succeed, whether it can register the memory
      type under test, and its transports. */
  datatype Domain = Domain(config: bool, opens: bool, query: bool, lists: bool, registers: bool, transports: seq<Transport>)

  /** A component: whether its two attribute queries succeed, and its memory domains. */
  datatype Component = Component(counts: bool, names: bool, domains: seq<Domain>)

  datatype System = System(lists: bool, components: seq<Component>)

  datatype Args = Args(dev: string, tl: string, kind: AmKind, cuda: bool)

  // ------------------------------------------------------ what is looked for

  predicate Named(a: Args, t: Transport) { t.dev == a.dev && t.name == a.tl }

  /** The transport opens and carries the kind of message asked for. */
  predicate Works(a: Args, t: Transport) {
    t.config && t.opens && t.query && a.kind in t.caps && (a.kind.ShortCopy? ==> !a.cuda)
  }

  predicate FirstNamed(a: Args, d: Domain, k: nat) {
    k < |d.transports| && Named(a, d.transports[k]) && forall j | 0 <= j < k :: !Named(a, d.transports[j])
  }

  /** The first transport of the right name can be used. */
  ghost predicate Hit(a: Args, d: Domain) {
    (a.kind.ZeroCopy? ==> d.registers) && exists k: nat :: FirstNamed(a, d, k) && Works(a, d.transports[k])
  }

  predicate Healthy(d: Domain) { d.config && d.opens && d.query && d.lists }

  ghost predicate Passed(a: Args, d: Domain) { Healthy(d) && !Hit(a, d) }

  /** The scan goes through the whole component without an error and without a hit. */
  ghost predicate PassedWhole(a: Args, c: Component) {
    c.counts && c.names && forall m | 0 <= m < |c.domains| :: Passed(a, c.domains[m])
  }

  /** The scan gets as far as domain m of component c. */
  ghost predicate Reached(s: System, a: Args, c: nat, m: nat) {
    && s.lists && c < |s.components| && m < |s.components[c].domains|
    && (forall i | 0 <= i < c :: PassedWhole(a, s.components[i]))
    && s.components[c].counts && s.components[c].names
    && (forall j | 0 <= j < m :: Passed(a, s.components[c].domains[j]))
  }

  ghost predicate Found(s: System, a: Args, c: nat, m: nat) {
    Reached(s, a, c, m) && Healthy(s.components[c].domains[m]) && Hit(a, s.components[c].domains[m])
  }

  /** The domains of the first n components. */
  function DomainsBefore(components: seq<Component>, n: nat): nat
    requires n <= |components|
  {
    if n == 0 then 0 else DomainsBefore(components, n - 1) + |components[n - 1].domains|
  }

  // ------------------------------------------------------------- the handles

  type DomainId = (nat, nat)
  type IfaceId = (nat, nat, nat)

  /** What UCT has handed out and not yet got back. */
  class Uct {
    var componentList: bool
    var domains: set<DomainId>
    var lists: set<DomainId>
    var ifaces: set<IfaceId>
    var obtained: nat
    var released: nat
    /** How many component lists were queried. */
    var queried: nat

    constructor ()
      ensures Idle() && obtained == 0 && released == 0 && queried == 0
    {
      componentList, domains, lists, ifaces, obtained, released, queried := false, {}, {}, {}, 0, 0, 0;
    }

    predicate Idle()
      reads this
    {
      !componentList && domains == {} && lists == {} && ifaces == {}
    }

    method QueryComponents()
      requires !componentList
      modifies this`componentList, this`queried
      ensures componentList && queried == old(queried) + 1
    {
      componentList, queried := true, queried + 1;
    }

    method ReleaseComponents()
      requires componentList
      modifies this`componentList
      ensures !componentList
    {
      componentList := false;
    }

    method CloseDomain(d: DomainId)
      requires d in domains
      modifies this`domains
      ensures domains == old(domains) - {d}
    {
      domains := domains - {d};
    }

    method ListTransports(d: DomainId)
      requires d !in lists
      modifies this`lists, this`obtained
      ensures lists == old(lists) + {d} && obtained == old(obtained) + 1
    {
      lists, obtained := lists + {d}, obtained + 1;
    }

    method ReleaseTransports(d: DomainId)
      requires d in lists
      modifies this`lists, this`released
      ensures lists == old(lists) - {d} && released == old(released) + 1
    {
      lists, released := lists - {d}, released + 1;
    }

    method CloseIface(i: IfaceId)
      requires i in ifaces
      modifies this`ifaces
      ensures ifaces == old(ifaces) - {i}
    {
      ifaces := ifaces - {i};
    }
  }

  /** init_iface: leaves the interface open exactly when it returns Ok. */
  method InitIface(u: Uct, a: Args, t: Transport, id: IfaceId, iface: Option<IfaceId>) returns (status: Status, iface': Option<IfaceId>)
    requires iface == None
    requires id !in u.ifaces
    modifies u`ifaces
    ensures status == if Works(a, t) then Ok else Unsupported
    ensures Works(a, t) ==> u.ifaces == old(u.ifaces) + {id} && iface' == Some(id)
    ensures !Works(a, t) ==> u.ifaces == old(u.ifaces) && iface' == None
  {
    iface' := iface;
    if !t.config { return Unsupported, iface'; }
    assert iface' == None;
    if !t.opens { return Unsupported, iface'; }
    u.ifaces, iface' := u.ifaces + {id}, Some(id);
    if t.query {
      if a.kind.ShortCopy? && ShortCopy in t.caps && !a.cuda { return Ok, iface'; }
      if a.kind.BufferedCopy? && BufferedCopy in t.caps { return Ok, iface'; }
      if a.kind.ZeroCopy? && ZeroCopy in t.caps { return Ok, iface'; }
    }
    u.CloseIface(id);
    iface' := None;
    status := Unsupported;
  }

  /** The innermost loop: `tlIndex` stops at the first transport of the right name. */
  method FindTransport(u: Uct, a: Args, d: Domain, id: DomainId, iface: Option<IfaceId>)
    returns (status: Status, tlIndex: nat, iface': Option<IfaceId>)
    requires iface == None && u.ifaces == {}
    modifies u`ifaces
    ensures tlIndex <= |d.transports|
    ensures status == Ok && tlIndex < |d.transports| <==> Hit(a, d)
    ensures Hit(a, d) ==> FirstNamed(a, d, tlIndex) && u.ifaces == {(id.0, id.1, tlIndex)} && iface' == Some((id.0, id.1, tlIndex))
    ensures !Hit(a, d) ==> u.ifaces == {} && iface' == None
  {
    status, tlIndex, iface' := Ok, 0, iface;
    while tlIndex < |d.transports|
      invariant 0 <= tlIndex <= |d.transports| && status == Ok && u.ifaces == {} && iface' == None
      invariant forall j | 0 <= j < tlIndex :: !Named(a, d.transports[j])
    {
      if d.transports[tlIndex].dev == a.dev && d.transports[tlIndex].name == a.tl {
        assert FirstNamed(a, d, tlIndex);
        assert forall k: nat | FirstNamed(a, d, k) :: k == tlIndex;
        if a.kind.ZeroCopy? && !d.registers {
          status := Unsupported;
          return;
        }
        status, iface' := InitIface(u, a, d.transports[tlIndex], (id.0, id.1, tlIndex), iface');
        return;
      }
      tlIndex := tlIndex + 1;
    }
  }

  /** The body of the loop over memory domains: opens the domain, queries it, lists its
      transports and looks for the one asked for.  Nothing but a hit is left open. */
  method ScanDomain(u: Uct, a: Args, d: Domain, id: DomainId, md: Option<DomainId>, iface: Option<IfaceId>)
    returns (status: Status, md': Option<DomainId>, iface': Option<IfaceId>)
    requires iface == None && u.domains == {} && u.lists == {} && u.ifaces == {} && u.obtained == u.released
    modifies u`domains, u`lists, u`ifaces, u`obtained, u`released
    ensures u.lists == {} && u.obtained == u.released == old(u.obtained) + if Healthy(d) then 1 else 0
    ensures status == if !Healthy(d) then Failure else if Hit(a, d) then Ok else Unsupported
    ensures status == Ok ==>
              && md' == Some(id) && u.domains == {id}
              && iface'.Some? && u.ifaces == {iface'.value} && iface'.value.0 == id.0 && iface'.value.1 == id.1
              && FirstNamed(a, d, iface'.value.2)
    ensures status != Ok ==> u.domains == {} && u.ifaces == {} && iface' == None
  {
    md', iface' := md, iface;
    if !d.config || !d.opens { return Failure, md', None; }
    u.domains, md' := u.domains + {id}, Some(id);
    if !d.query || !d.lists {
      u.CloseDomain(id);
      return Failure, md', None;
    }
    u.ListTransports(id);
    var tlIndex;
    status, tlIndex, iface' := FindTransport(u, a, d, id, iface);
    u.ReleaseTransports(id);
    if status == Ok && tlIndex < |d.transports| { return; }
    u.CloseDomain(id);
    status := Unsupported;
  }

  /** dev_tl_lookup.  Ok exactly when the scan finds a hit before any error; then that
      domain and one interface are open.  Otherwise nothing is.  The transport list of every
      domain scanned was obtained and released once, and the component list is released. */
  method DevTlLookup(u: Uct, s: System, a: Args) returns (status: Status, md: Option<DomainId>, iface: Option<IfaceId>)
    requires u.Idle() && u.obtained == u.released
    modifies u
    ensures !u.componentList && u.lists == {} && u.obtained == u.released
    ensures u.queried == old(u.queried) + if s.lists then 1 else 0
    ensures status == Ok <==> exists c, m :: Found(s, a, c, m)
    ensures status == Ok ==>
              && md.Some? && iface.Some? && Found(s, a, md.value.0, md.value.1)
              && u.domains == {md.value} && u.ifaces == {iface.value}
              && iface.value.0 == md.value.0 && iface.value.1 == md.value.1
              && FirstNamed(a, s.components[md.value.0].domains[md.value.1], iface.value.2)
    ensures status != Ok ==> u.Idle()
    ensures status == Ok ==>
              u.obtained == old(u.obtained) + DomainsBefore(s.components, md.value.0) + md.value.1 + 1
    ensures status == Unsupported ==> u.obtained == old(u.obtained) + DomainsBefore(s.components, |s.components|)
    ensures status == Unsupported <==> s.lists && forall i | 0 <= i < |s.components| :: PassedWhole(a, s.components[i])
  {
    md, iface := None, None;
    if !s.lists { return Failure, None, None; }
    u.QueryComponents();
    var cmpt := 0;
    while cmpt < |s.components|
      invariant 0 <= cmpt <= |s.components|
      invariant u.queried == old(u.queried) + 1
      invariant u.componentList && u.domains == {} && u.lists == {} && u.ifaces == {} && u.obtained == u.released
      invariant forall i | 0 <= i < cmpt :: PassedWhole(a, s.components[i])
      invariant u.obtained == old(u.obtained) + DomainsBefore(s.components, cmpt)
      invariant iface == None
    {
      var comp := s.components[cmpt];
      if !comp.counts || !comp.names {
        u.ReleaseComponents();
        return Failure, None, None;
      }
      iface := None;
      var mdIndex := 0;
      while mdIndex < |comp.domains|
        invariant 0 <= mdIndex <= |comp.domains|
        invariant u.queried == old(u.queried) + 1
        invariant u.componentList && u.domains == {} && u.lists == {} && u.ifaces == {} && u.obtained == u.released
        invariant forall j | 0 <= j < mdIndex :: Passed(a, comp.domains[j])
        invariant u.obtained == old(u.obtained) + DomainsBefore(s.components, cmpt) + mdIndex
        invariant iface == None
      {
        var d, id := comp.domains[mdIndex], (cmpt, mdIndex);
        assert Reached(s, a, cmpt, mdIndex);
        status, md, iface := ScanDomain(u, a, d, id, md, iface);
        if status == Failure {
          u.ReleaseComponents();
          return Failure, md, None;
        }
        if status == Ok {
          u.ReleaseComponents();
          assert Found(s, a, cmpt, mdIndex);
          return;
        }
        mdIndex := mdIndex + 1;
      }
      cmpt := cmpt + 1;
    }
    u.ReleaseComponents();
    status := Unsupported;
  }
}
