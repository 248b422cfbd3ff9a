/** Host-mode ports: exclusive against registered containers, not against those in flight. */
module HostPorts {
  import opened Options
  import opened Containers
  import opened Nodes
  import opened Filters
  import opened Arithmetic
  import opened Strategy
  import opened Schedulers
  import opened Sums
  import opened Placement
  import opened Exclusive
  import opened Safety
  import opened PlainRuns

  /** The port filter sees the ports of registered host-mode containers and of no other. */
  lemma ExposedIff(n: Node, s: State, e: string, port: string)
    requires Shows(n, s, e)
    ensures PortAlreadyExposed(n, port) <==>
            exists k :: k in s.engines[e].containers && s.engines[e].containers[k].info.networkMode == "host"
                        && port in s.engines[e].containers[k].info.exposedPorts
  {
    if PortAlreadyExposed(n, port) {
      var i :| 0 <= i < |n.containers| && n.containers[i].info.networkMode == "host"
               && port in n.containers[i].info.exposedPorts;
      assert n.containers[i] in n.containers;
      assert Accounted(s, e, n.containers[i]);
    }
    if k :| k in s.engines[e].containers && s.engines[e].containers[k].info.networkMode == "host"
            && port in s.engines[e].containers[k].info.exposedPorts {
      assert s.engines[e].containers[k] in n.containers;
    }
  }

  /** No two host-mode tenants of an engine, registered or in flight, expose the same port. */
  ghost predicate HostSafe(s: State) {
    forall e, t, u | e in s.engines && Lives(s, e, t) && Lives(s, e, u) && t != u
                     && Mode(s, e, t) == "host" && Mode(s, e, u) == "host" ::
      Exposed(s, e, t) !! Exposed(s, e, u)
  }

  /** No host-mode reservation in flight to the engine exposes a port of these. */
  ghost predicate Clear(s: State, e: string, ports: set<string>)
    requires e in s.engines
  {
    forall v | v in InFlight(s, e) && s.pending[v].config.networkMode == "host" ::
      s.pending[v].config.exposedPorts !! ports
  }

  /** The chosen node has all the ports free that a host-mode container exposes, as far as it is registered. */
  lemma BeginsUnexposed(sch: Scheduler, s: State, w: string, config: Config, image: Option<Expr>, name: string, n: Node,
                        k: string)
    requires Begins(sch, s, w, config, image, name, n) && Port in sch.filters && config.networkMode == "host"
    requires k in s.engines[n.id].containers && s.engines[n.id].containers[k].info.networkMode == "host"
    ensures s.engines[n.id].containers[k].info.exposedPorts !! config.exposedPorts
  {
    var want := WithImage(config, image);
    forall port | port in config.exposedPorts ensures port !in s.engines[n.id].containers[k].info.exposedPorts {
      assert NotExpose(port) in Demands(Port, want, false);
      assert NotExpose(port) in AllDemands(sch.filters, want, false);
      assert Meets(n, NotExpose(port));
      ExposedIff(n, s, n.id, port);
    }
  }

  /** A host-mode reservation keeps the ports of its engine exclusive exactly when no host-mode reservation in
      flight to that engine exposes one of its ports: that is what the filter does not look at. */
  lemma BeginHostSafeIff(sch: Scheduler, s: State, w: string, config: Config, image: Option<Expr>, name: string,
                         n: Node)
    requires Sound(s) && HostSafe(s) && Begins(sch, s, w, config, image, name, n)
    requires Port in sch.filters && config.networkMode == "host"
    ensures HostSafe(Reserve(s, w, Pending(config, name, n.id))) <==> Clear(s, n.id, config.exposedPorts)
  {
    var e, p := n.id, Pending(config, name, n.id);
    var s' := Reserve(s, w, p);
    BeginsReservable(sch, s, w, config, image, name, n);
    InFlightReserve(s, w, p, e);
    if HostSafe(s') {
      forall v | v in InFlight(s, e) && s.pending[v].config.networkMode == "host"
        ensures s.pending[v].config.exposedPorts !! config.exposedPorts
      {
        assert Lives(s', e, Coming(v)) && Lives(s', e, Coming(w));
        assert Exposed(s', e, Coming(v)) !! Exposed(s', e, Coming(w));
      }
    }
    if Clear(s, e, config.exposedPorts) {
      forall f, t, u | f in s'.engines && Lives(s', f, t) && Lives(s', f, u) && t != u
                       && Mode(s', f, t) == "host" && Mode(s', f, u) == "host"
        ensures Exposed(s', f, t) !! Exposed(s', f, u)
      {
        if f == e && t == Coming(w) {
          NewHostFree(sch, s, w, config, image, name, n, u);
        } else if f == e && u == Coming(w) {
          NewHostFree(sch, s, w, config, image, name, n, t);
        } else {
          ReserveStays(s, w, p, f, t);
          ReserveStays(s, w, p, f, u);
        }
      }
    }
  }

  lemma NewHostFree(sch: Scheduler, s: State, w: string, config: Config, image: Option<Expr>, name: string, n: Node,
                    u: Tenant)
    requires Sound(s) && Begins(sch, s, w, config, image, name, n)
    requires Port in sch.filters && config.networkMode == "host"
    requires Clear(s, n.id, config.exposedPorts) && u != Coming(w)
    requires var s' := Reserve(s, w, Pending(config, name, n.id));
             Lives(s', n.id, u) && Mode(s', n.id, u) == "host"
    ensures Exposed(Reserve(s, w, Pending(config, name, n.id)), n.id, u) !! config.exposedPorts
  {
    BeginsReservable(sch, s, w, config, image, name, n);
    ReserveStays(s, w, Pending(config, name, n.id), n.id, u);
    match u
    case Here(k) => BeginsUnexposed(sch, s, w, config, image, name, n, k);
    case Coming(v) => assert v in InFlight(s, n.id);
  }

  /** What a client of the manager would have to check before a host-mode creation begins. */
  ghost predicate Guarded(s: State, step: Step) {
    step.Begin? && step.config.networkMode == "host" && step.chosen.id in s.engines ==>
      Clear(s, step.chosen.id, step.config.exposedPorts)
  }

  /** Every other step keeps host-mode ports exclusive by itself. */
  lemma NextHostSafeIff(sch: Scheduler, s: State, step: Step, s': State)
    requires Sound(s) && Next(sch, s, step, s') && HostSafe(s) && Port in sch.filters
    ensures HostSafe(s') <==> Guarded(s, step)
  {
    if step.Begin? && step.config.networkMode == "host" {
      BeginHostSafeIff(sch, s, step.w, step.config, step.image, step.name, step.chosen);
    } else {
      forall e, t, u | e in s'.engines && Lives(s', e, t) && Lives(s', e, u) && t != u
                       && Mode(s', e, t) == "host" && Mode(s', e, u) == "host"
        ensures Exposed(s', e, t) !! Exposed(s', e, u)
      {
        InFlightNext(sch, s, step, s', e);
        assert !IsNew(step, e, t) && !IsNew(step, e, u);
        OriginRight(sch, s, step, s', e, t);
        OriginRight(sch, s, step, s', e, u);
        OriginsDiffer(sch, s, step, s', e, t, u);
      }
    }
  }

  /** Over a whole run: host-mode ports are exclusive in all states exactly when every host-mode creation began
      while no host-mode reservation with one of its ports was in flight to its engine. */
  lemma HostSafeThroughoutIff(sch: Scheduler, states: seq<State>, steps: seq<Step>)
    requires IsRun(sch, states, steps) && Sound(states[0]) && HostSafe(states[0]) && Port in sch.filters
    ensures (forall i | 0 <= i < |states| :: HostSafe(states[i]))
            <==> forall i | 0 <= i < |steps| :: Guarded(states[i], steps[i])
  {
    SoundThroughout(sch, states, steps);
    forall i | 0 <= i < |steps| && HostSafe(states[i])
      ensures HostSafe(states[i + 1]) <==> Guarded(states[i], steps[i])
    {
      NextHostSafeIff(sch, states[i], steps[i], states[i + 1]);
    }
    if forall i | 0 <= i < |steps| :: Guarded(states[i], steps[i]) {
      for k := 0 to |steps|
        invariant forall i | 0 <= i <= k :: HostSafe(states[i])
      {
        assert HostSafe(states[k]) && Guarded(states[k], steps[k]);
        assert HostSafe(states[k + 1]);
      }
    }
    if forall i | 0 <= i < |states| :: HostSafe(states[i]) {
      forall i | 0 <= i < |steps| ensures Guarded(states[i], steps[i]) {
        assert HostSafe(states[i]) && HostSafe(states[i + 1]);
      }
    }
  }

  /** A host-mode container that asks for nothing but its exposed ports. */
  ghost predicate PlainHost(config: Config) {
    Weightless(config) && config.networkMode == "host"
  }

  /** Both containers are in flight to the engine. */
  ghost predicate BothComing(s: State, e: string, a: Config, b: Config) {
    && e in s.engines && a.swarmID in InFlight(s, e) && b.swarmID in InFlight(s, e) && a.swarmID != b.swarmID
    && s.pending[a.swarmID].config == a && s.pending[b.swarmID].config == b
  }

  lemma Shared(s: State, e: string, a: Config, b: Config)
    requires BothComing(s, e, a, b) && a.networkMode == "host" == b.networkMode
    requires !(a.exposedPorts !! b.exposedPorts)
    ensures !HostSafe(s)
  {
    assert Lives(s, e, Coming(a.swarmID)) && Lives(s, e, Coming(b.swarmID));
    assert !(Exposed(s, e, Coming(a.swarmID)) !! Exposed(s, e, Coming(b.swarmID)));
  }

  lemma Mixed(s: State, e: string, a: Config, b: Config)
    requires BothComing(s, e, a, b) && a.networkMode == "host" != b.networkMode
    requires Meet(a.exposedPorts, b.portBindings)
    ensures !MixedSafe(s)
  {
    assert Lives(s, e, Coming(a.swarmID)) && Lives(s, e, Coming(b.swarmID));
    assert Meet(Exposed(s, e, Coming(a.swarmID)), Bindings(s, e, Coming(b.swarmID)));
  }

  /** From an empty cluster, two host-mode containers are reserved on the same engine one after the other, whatever
      ports they expose and whatever filters are configured: the in-flight one is not seen. When they expose the same
      port, host-mode ports are not exclusive then. */
  lemma HostPortsCanClash(sch: Scheduler, s0: State, e: string, a: Config, b: Config) returns (m: Node, n: Node)
    requires Empty(s0) && Ready(s0, e)
    requires PlainHost(a) && PlainHost(b) && a.swarmID != b.swarmID
    ensures var s1 := Reserve(s0, a.swarmID, Pending(a, "", e));
            var s2 := Reserve(s1, b.swarmID, Pending(b, "", e));
            && Next(sch, s0, Begin(a.swarmID, a, None, "", m), s1)
            && Sane(s1) && Next(sch, s1, Begin(b.swarmID, b, None, "", n), s2)
            && (!(a.exposedPorts !! b.exposedPorts) ==> !HostSafe(s2))
  {
    m, n := TwoBegin(sch, s0, e, a, b);
    if !(a.exposedPorts !! b.exposedPorts) {
      Shared(Reserve(Reserve(s0, a.swarmID, Pending(a, "", e)), b.swarmID, Pending(b, "", e)), e, a, b);
    }
  }

  // ---- Host mode against bindings ----

  /** The protocol part of a port, with its slash. */
  function Protocol(port: string): string {
    BeforeLength(port, '/');
    port[|Before(port, '/')|..]
  }

  /** An exposed port, in host mode, is the host port of a binding for `key`. */
  predicate SamePort(port: string, key: string, x: PortBinding) {
    x.hostPort == Before(port, '/') && Protocol(port) == Protocol(key)
  }

  ghost predicate Meet(ports: set<string>, bindings: PortMap) {
    exists port, k, x :: port in ports && k in bindings && x in bindings[k] && SamePort(port, k, x)
  }

  /** No host-mode tenant of an engine exposes a port to which a bridge-mode tenant of it is bound. */
  ghost predicate MixedSafe(s: State) {
    forall e, t, u | e in s.engines && Lives(s, e, t) && Lives(s, e, u)
                     && Mode(s, e, t) == "host" && Mode(s, e, u) != "host" ::
      !Meet(Exposed(s, e, t), Bindings(s, e, u))
  }

  /** No tenant of the engine, registered or in flight, that is in the other mode has a port of the new one. */
  ghost predicate Apart(s: State, e: string, config: Config)
    requires e in s.engines
  {
    forall t | Lives(s, e, t) ::
      if config.networkMode == "host" then Mode(s, e, t) != "host" ==> !Meet(config.exposedPorts, Bindings(s, e, t))
      else Mode(s, e, t) == "host" ==> !Meet(Exposed(s, e, t), config.portBindings)
  }

  lemma BeginMixedSafeIff(sch: Scheduler, s: State, w: string, config: Config, image: Option<Expr>, name: string,
                          n: Node)
    requires Sound(s) && MixedSafe(s) && Begins(sch, s, w, config, image, name, n)
    ensures MixedSafe(Reserve(s, w, Pending(config, name, n.id))) <==> Apart(s, n.id, config)
  {
    var e, p, mine := n.id, Pending(config, name, n.id), Coming(w);
    var s' := Reserve(s, w, p);
    BeginsReservable(sch, s, w, config, image, name, n);
    InFlightReserve(s, w, p, e);
    assert Lives(s', e, mine) && Mode(s', e, mine) == config.networkMode;
    assert Exposed(s', e, mine) == config.exposedPorts && Bindings(s', e, mine) == config.portBindings;
    forall t | Lives(s, e, t) ensures t != mine && Lives(s', e, t) && Stays(s', t, s, t, e) {
      ReserveStays(s, w, p, e, t);
    }
    if Apart(s, e, config) {
      forall f, t, u | f in s'.engines && Lives(s', f, t) && Lives(s', f, u)
                       && Mode(s', f, t) == "host" && Mode(s', f, u) != "host"
        ensures !Meet(Exposed(s', f, t), Bindings(s', f, u))
      {
        if !(f == e && t == mine) {
          ReserveStays(s, w, p, f, t);
        }
        if !(f == e && u == mine) {
          ReserveStays(s, w, p, f, u);
        }
      }
    }
  }

  ghost predicate ApartGuarded(s: State, step: Step) {
    step.Begin? && step.chosen.id in s.engines ==> Apart(s, step.chosen.id, step.config)
  }

  /** Under any filters, a step keeps host-mode ports apart from bindings exactly when it does not begin a creation on
      an engine with a tenant in the other mode that has one of its ports: no filter looks at that. */
  lemma NextMixedSafeIff(sch: Scheduler, s: State, step: Step, s': State)
    requires Sound(s) && Next(sch, s, step, s') && MixedSafe(s)
    ensures MixedSafe(s') <==> ApartGuarded(s, step)
  {
    if step.Begin? {
      BeginMixedSafeIff(sch, s, step.w, step.config, step.image, step.name, step.chosen);
    } else {
      forall e, t, u | e in s'.engines && Lives(s', e, t) && Lives(s', e, u)
                       && Mode(s', e, t) == "host" && Mode(s', e, u) != "host"
        ensures !Meet(Exposed(s', e, t), Bindings(s', e, u))
      {
        InFlightNext(sch, s, step, s', e);
        OriginRight(sch, s, step, s', e, t);
        OriginRight(sch, s, step, s', e, u);
      }
    }
  }

  /** Over a whole run. */
  lemma MixedSafeThroughoutIff(sch: Scheduler, states: seq<State>, steps: seq<Step>)
    requires IsRun(sch, states, steps) && Sound(states[0]) && MixedSafe(states[0])
    ensures (forall i | 0 <= i < |states| :: MixedSafe(states[i]))
            <==> forall i | 0 <= i < |steps| :: ApartGuarded(states[i], steps[i])
  {
    SoundThroughout(sch, states, steps);
    forall i | 0 <= i < |steps| && MixedSafe(states[i])
      ensures MixedSafe(states[i + 1]) <==> ApartGuarded(states[i], steps[i])
    {
      NextMixedSafeIff(sch, states[i], steps[i], states[i + 1]);
    }
    if forall i | 0 <= i < |steps| :: ApartGuarded(states[i], steps[i]) {
      for k := 0 to |steps|
        invariant forall i | 0 <= i <= k :: MixedSafe(states[i])
      {
        assert MixedSafe(states[k]) && ApartGuarded(states[k], steps[k]);
        assert MixedSafe(states[k + 1]);
      }
    }
    if forall i | 0 <= i < |states| :: MixedSafe(states[i]) {
      forall i | 0 <= i < |steps| ensures ApartGuarded(states[i], steps[i]) {
        assert MixedSafe(states[i]) && MixedSafe(states[i + 1]);
      }
    }
  }

  /** So from an empty cluster a host-mode container and one that is bound to a port of it are reserved on one
      engine. */
  lemma MixedPortsCanClash(sch: Scheduler, s0: State, e: string, a: Config, b: Config) returns (m: Node, n: Node)
    requires Empty(s0) && Ready(s0, e) && PlainHost(a) && a.portBindings == map[]
    requires Weightless(b) && b.networkMode != "host" && a.swarmID != b.swarmID
    ensures var s1 := Reserve(s0, a.swarmID, Pending(a, "", e));
            var s2 := Reserve(s1, b.swarmID, Pending(b, "", e));
            && Next(sch, s0, Begin(a.swarmID, a, None, "", m), s1)
            && Sane(s1) && Next(sch, s1, Begin(b.swarmID, b, None, "", n), s2)
            && (Meet(a.exposedPorts, b.portBindings) ==> !MixedSafe(s2))
  {
    m, n := TwoBegin(sch, s0, e, a, b);
    if Meet(a.exposedPorts, b.portBindings) {
      Mixed(Reserve(Reserve(s0, a.swarmID, Pending(a, "", e)), b.swarmID, Pending(b, "", e)), e, a, b);
    }
  }
}
