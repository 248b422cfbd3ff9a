/** Host ports and container slots are never given out twice. */
module Exclusive {
  import opened Options
  import opened Containers
  import opened Nodes
  import opened Filters
  import opened Arithmetic
  import opened Strategy
  import opened Schedulers
  import opened Placement

  /** A container an engine holds: registered, or reserved and in flight. */
  datatype Tenant = Here(key: string) | Coming(swarmID: string)

  ghost predicate Lives(s: State, e: string, t: Tenant)
    requires e in s.engines
  {
    match t
    case Here(k) => k in s.engines[e].containers
    case Coming(w) => w in InFlight(s, e)
  }

  ghost function Bindings(s: State, e: string, t: Tenant): PortMap
    requires e in s.engines && Lives(s, e, t)
  {
    match t
    case Here(k) => s.engines[e].containers[k].info.portBindings
    case Coming(w) => s.pending[w].config.portBindings
  }

  ghost function Mode(s: State, e: string, t: Tenant): string
    requires e in s.engines && Lives(s, e, t)
  {
    match t
    case Here(k) => s.engines[e].containers[k].info.networkMode
    case Coming(w) => s.pending[w].config.networkMode
  }

  ghost function Exposed(s: State, e: string, t: Tenant): set<string>
    requires e in s.engines && Lives(s, e, t)
  {
    match t
    case Here(k) => s.engines[e].containers[k].info.exposedPorts
    case Coming(w) => s.pending[w].config.exposedPorts
  }

  /** Bindings of both maps listen on one host port at one address. */
  ghost predicate Overlap(a: PortMap, b: PortMap) {
    exists ip, port :: port != "" && ListensOn(a, ip, port) && ListensOn(b, ip, port)
  }

  /** They do exactly when some binding of the one clashes with those of the other. */
  lemma OverlapIff(a: PortMap, b: PortMap)
    ensures Overlap(a, b) <==> exists k, x :: k in a && x in a[k] && Clashes(x, b)
  {
    if ip, port :| port != "" && ListensOn(a, ip, port) && ListensOn(b, ip, port) {
      var k, x :| k in a && x in a[k] && x.hostPort == port && Listens(x, ip);
      ClashesIff(x, b);
      assert Clashes(x, b);
    }
    if k, x :| k in a && x in a[k] && Clashes(x, b) {
      ClashesIff(x, b);
      var ip :| Listens(x, ip) && ListensOn(b, ip, x.hostPort);
      assert ListensOn(a, ip, x.hostPort);
    }
  }

  /** At no address and on no host port two bridge-mode tenants of one engine listen. */
  ghost predicate PortSafe(s: State) {
    forall e, t, u | e in s.engines && Lives(s, e, t) && Lives(s, e, u) && t != u
                     && Mode(s, e, t) != "host" && Mode(s, e, u) != "host" ::
      !Overlap(Bindings(s, e, t), Bindings(s, e, u))
  }

  /** Where tenant `t` of the state after a step was before it. */
  ghost function Origin(s: State, step: Step, e: string, t: Tenant): Tenant
    requires Sound(s) && e in s.engines
  {
    match step
    case Register(w, c) => if w in s.pending && s.pending[w].engine == e && t == Here(c.id) then Coming(w) else t
    case Remove(f, k) =>
      if f == e && OnEngine(s, e, k) && t == Coming(At(s, e, k).config.swarmID) then Here(k) else t
    case _ => t
  }

  ghost predicate IsNew(step: Step, e: string, t: Tenant) {
    step.Begin? && step.chosen.id == e && t == Coming(step.w)
  }

  /** Tenant `t` of engine `e` in `s'` is tenant `u` of it in `s`, with the same ports and network mode. */
  ghost predicate Stays(s': State, t: Tenant, s: State, u: Tenant, e: string)
    requires e in s'.engines && Lives(s', e, t) && e in s.engines
  {
    && Lives(s, e, u) && Mode(s', e, t) == Mode(s, e, u)
    && Bindings(s', e, t) == Bindings(s, e, u) && Exposed(s', e, t) == Exposed(s, e, u)
  }

  lemma ReserveStays(s: State, w: string, p: Pending, e: string, t: Tenant)
    requires Sound(s) && Reservable(s, w, p) && e in s.engines && Lives(Reserve(s, w, p), e, t)
    requires !(p.engine == e && t == Coming(w))
    ensures Stays(Reserve(s, w, p), t, s, t, e)
  {
    InFlightReserve(s, w, p, e);
  }

  lemma UnreserveStays(s: State, w: string, e: string, t: Tenant)
    requires Sound(s) && e in s.engines && Lives(Unreserve(s, w), e, t)
    ensures Stays(Unreserve(s, w), t, s, t, e)
  {
    InFlightUnreserve(s, w, e);
  }

  lemma RegisterOrigin(s: State, w: string, c: Container, e: string, t: Tenant)
    requires Sound(s) && Registers(s, w, c) && s.pending[w].engine == e && t == Here(c.id)
    ensures Lives(s, e, Coming(w))
  {
    assert !Present(s, e, w);
  }

  lemma AddStays(s: State, w: string, c: Container, e: string, t: Tenant)
    requires Sound(s) && Registers(s, w, c) && e in s.engines && Lives(AddContainer(s, s.pending[w].engine, c), e, t)
    ensures Stays(AddContainer(s, s.pending[w].engine, c), t, s,
                  if s.pending[w].engine == e && t == Here(c.id) then Coming(w) else t, e)
  {
    InFlightAdd(s, w, c, e);
    if s.pending[w].engine == e && t == Here(c.id) {
      RegisterOrigin(s, w, c, e, t);
    }
  }

  lemma DropStays(s: State, f: string, k: string, e: string, t: Tenant)
    requires Sound(s) && OnEngine(s, f, k) && e in s.engines && Lives(DropContainer(s, f, k), e, t)
    ensures Stays(DropContainer(s, f, k), t, s,
                  if f == e && t == Coming(At(s, e, k).config.swarmID) then Here(k) else t, e)
  {
    InFlightDrop(s, f, k, e);
    if f == e && t == Coming(At(s, e, k).config.swarmID) {
      assert Carries(s, e, k, t.swarmID) && CopySound(s, t.swarmID, e, k);
    }
  }

  /** A tenant is either new or was there already with the same bindings; two tenants have two origins. */
  lemma OriginRight(sch: Scheduler, s: State, step: Step, s': State, e: string, t: Tenant)
    requires Sound(s) && Next(sch, s, step, s') && e in s.engines && e in s'.engines && Lives(s', e, t)
    requires !IsNew(step, e, t)
    ensures Stays(s', t, s, Origin(s, step, e, t), e)
  {
    match step
    case Begin(w, config, image, name, n) =>
      BeginsReservable(sch, s, w, config, image, name, n);
      ReserveStays(s, w, Pending(config, name, n.id), e, t);
    case Register(w, c) => AddStays(s, w, c, e, t);
    case End(w) => UnreserveStays(s, w, e, t);
    case Remove(f, k) => DropStays(s, f, k, e, t);
    case Observe(_, _, _) => InFlightNext(sch, s, step, s', e);
  }

  lemma OriginsDiffer(sch: Scheduler, s: State, step: Step, s': State, e: string, t: Tenant, u: Tenant)
    requires Sound(s) && Next(sch, s, step, s') && e in s.engines && e in s'.engines
    requires Lives(s', e, t) && Lives(s', e, u) && t != u
    ensures Origin(s, step, e, t) != Origin(s, step, e, u)
  {
    InFlightNext(sch, s, step, s', e);
  }

  /** The chosen node has all the ports free that a bridge-mode container binds. */
  lemma BeginsFree(sch: Scheduler, s: State, w: string, config: Config, image: Option<Expr>, name: string, n: Node,
                   t: Tenant)
    requires Sound(s) && Begins(sch, s, w, config, image, name, n) && Port in sch.filters
    requires Lives(s, n.id, t) && config.networkMode != "host"
    ensures !Overlap(config.portBindings, Bindings(s, n.id, t))
  {
    var c := match t case Here(k) => s.engines[n.id].containers[k] case Coming(v) => ToContainer(s.pending[v], n.name);
    assert c in n.containers;
    assert t.Here? ==> OnEngine(s, n.id, t.key) && Keyed(s, n.id, t.key);
    var i :| 0 <= i < |n.containers| && n.containers[i] == c;
    forall k, x | k in config.portBindings && x in config.portBindings[k] ensures !Clashes(x, Bindings(s, n.id, t)) {
      FreePort(sch, config, image, n, k, x);
      assert !Occupies(n.containers[i], x);
    }
    OverlapIff(config.portBindings, Bindings(s, n.id, t));
  }

  lemma FreePort(sch: Scheduler, config: Config, image: Option<Expr>, n: Node, k: string, x: PortBinding)
    requires Suits(sch, n, WithImage(config, image), false) && Port in sch.filters && config.networkMode != "host"
    requires k in config.portBindings && x in config.portBindings[k]
    ensures !PortAlreadyInUse(n, x)
  {
    var want := WithImage(config, image);
    assert HaveFree(x) in BindingDemands(want.portBindings[k]);
    assert HaveFree(x) in Demands(Port, want, false);
    assert HaveFree(x) in AllDemands(sch.filters, want, false);
    assert Meets(n, HaveFree(x));
  }

  lemma NextPortSafe(sch: Scheduler, s: State, step: Step, s': State)
    requires Sound(s) && Next(sch, s, step, s') && PortSafe(s) && Port in sch.filters
    ensures PortSafe(s')
  {
    forall e, t, u | e in s'.engines && Lives(s', e, t) && Lives(s', e, u) && t != u
                     && Mode(s', e, t) != "host" && Mode(s', e, u) != "host"
      ensures !Overlap(Bindings(s', e, t), Bindings(s', e, u))
    {
      if IsNew(step, e, t) {
        NewcomerFree(sch, s, step, s', e, t, u);
      } else if IsNew(step, e, u) {
        NewcomerFree(sch, s, step, s', e, u, t);
      } else {
        OriginRight(sch, s, step, s', e, t);
        OriginRight(sch, s, step, s', e, u);
        OriginsDiffer(sch, s, step, s', e, t, u);
      }
    }
  }

  lemma NewcomerFree(sch: Scheduler, s: State, step: Step, s': State, e: string, t: Tenant, u: Tenant)
    requires Sound(s) && Next(sch, s, step, s') && Port in sch.filters
    requires e in s.engines && e in s'.engines && Lives(s', e, t) && Lives(s', e, u) && t != u
    requires IsNew(step, e, t) && Mode(s', e, t) != "host"
    ensures !Overlap(Bindings(s', e, t), Bindings(s', e, u))
  {
    OriginRight(sch, s, step, s', e, u);
    BeginsFree(sch, s, step.w, step.config, step.image, step.name, step.chosen, u);
  }

  /** An engine with a legible slot limit never holds more containers than that. */
  ghost predicate SlotSafe(s: State) {
    forall e | e in s.engines && SlotLimit(s.engines[e].machine.labels).Some? ::
      Count(s, e) <= Max(0, SlotLimit(s.engines[e].machine.labels).value)
  }

  lemma NextSlotSafe(sch: Scheduler, s: State, step: Step, s': State)
    requires Sound(s) && Next(sch, s, step, s') && SlotSafe(s) && Slots in sch.filters
    ensures SlotSafe(s')
  {
    forall e | e in s'.engines && SlotLimit(s'.engines[e].machine.labels).Some?
      ensures Count(s', e) <= Max(0, SlotLimit(s'.engines[e].machine.labels).value)
    {
      InFlightNext(sch, s, step, s', e);
      assert Count(s, e) <= Max(0, SlotLimit(s.engines[e].machine.labels).value);
      NextCount(sch, s, step, s', e);
    }
  }

  lemma NextCount(sch: Scheduler, s: State, step: Step, s': State, e: string)
    requires Sound(s) && Next(sch, s, step, s') && Slots in sch.filters && e in s.engines && e in s'.engines
    requires SlotLimit(s.engines[e].machine.labels).Some?
    ensures Count(s', e) <= Count(s, e) || Count(s', e) <= SlotLimit(s.engines[e].machine.labels).value
  {
    InFlightNext(sch, s, step, s', e);
    match step
    case Begin(w, config, image, name, n) =>
      if n.id == e {
        OpenSlot(sch, WithImage(config, image), n);
        assert |InFlight(s, e) + {w}| <= |InFlight(s, e)| + 1;
      }
    case Register(w, c) => CountAdd(s, w, c, e);
    case Remove(f, k) => CountDrop(s, f, k, e);
    case _ =>
  }

  lemma CountAdd(s: State, w: string, c: Container, e: string)
    requires Sound(s) && Registers(s, w, c) && e in s.engines
    ensures Count(AddContainer(s, s.pending[w].engine, c), e) == Count(s, e)
  {
    InFlightAdd(s, w, c, e);
    if s.pending[w].engine == e {
      RegisterOrigin(s, w, c, e, Here(c.id));
      assert s.engines[e].containers[c.id := c].Keys == s.engines[e].containers.Keys + {c.id};
    } else {
      assert InFlight(s, e) - {w} == InFlight(s, e);
    }
  }

  lemma CountDrop(s: State, f: string, k: string, e: string)
    requires Sound(s) && OnEngine(s, f, k) && e in s.engines
    ensures Count(DropContainer(s, f, k), e) <= Count(s, e)
  {
    InFlightDrop(s, f, k, e);
    if f == e {
      assert (s.engines[e].containers - {k}).Keys == s.engines[e].containers.Keys - {k};
    }
  }

  lemma OpenSlot(sch: Scheduler, config: Config, n: Node)
    requires Suits(sch, n, config, false) && Slots in sch.filters
    ensures HasOpenSlot(n)
  {
    assert HaveOpenSlot in Demands(Slots, config, false);
    assert HaveOpenSlot in AllDemands(sch.filters, config, false);
    assert Meets(n, HaveOpenSlot);
  }
}
