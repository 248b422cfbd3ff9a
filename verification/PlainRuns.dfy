/** Containers that ask for little, and engines on which they can always be reserved. */
module PlainRuns {
  import opened Options
  import opened Containers
  import opened Nodes
  import opened Filters
  import opened Arithmetic
  import opened Strategy
  import opened Schedulers
  import opened Sums
  import opened Placement
  import opened Capacity
  import opened Safety

  /** It depends on no other container and states no affinities and no constraints. */
  ghost predicate Plain(config: Config) {
    && config.swarmID != "" && Dependencies(config) == [] && Natural(config)
    && config.affinities == Exprs([]) && config.constraints == Exprs([]) && config.whitelists == Exprs([])
  }

  /** A healthy engine without registered containers and without a slot limit. */
  ghost predicate Ready(s: State, e: string) {
    && e in s.engines && s.engines[e].containers == map[] && s.engines[e].health > 0
    && SlotLimit(s.engines[e].machine.labels).None? && Usable(s.engines[e].machine)
  }

  /** Such an engine with the in-flight containers `cs`, as the scheduler sees it. */
  ghost function Idle(s: State, e: string, cs: seq<Container>): Node
    requires e in s.engines
  {
    var g := s.engines[e];
    Node(e, g.machine.name, g.machine.labels, cs, g.images, Used(s, e, Memory), Used(s, e, Cpus),
         TotalMemory(g.machine), TotalCpus(g.machine), g.health)
  }

  /** The engine has as much left as is asked for. */
  ghost predicate HasLeft(s: State, e: string, config: Config, r: Resource)
    requires e in s.engines
  {
    var total := Total(s.engines[e].machine, r);
    Amount(config, r) <= total && (Amount(config, r) > 0 ==> Used(s, e, r) + Amount(config, r) <= Limit(total))
  }

  /** No bridge-mode binding conflicts with one that is in flight to the engine. */
  ghost predicate Unbound(s: State, e: string, config: Config)
    requires e in s.engines
  {
    config.networkMode != "host" ==>
      forall w | w in InFlight(s, e) :: NoneClashes(config.portBindings, s.pending[w].config.portBindings)
  }

  ghost predicate NoneClashes(a: PortMap, b: PortMap) {
    forall k, x | k in a && x in a[k] :: !Clashes(x, b)
  }

  lemma {:induction false} ListInFlight(s: State, e: string, ws: set<string>) returns (cs: seq<Container>)
    requires e in s.engines && ws <= s.pending.Keys
    ensures |cs| == |ws|
    ensures forall w | w in ws :: ToContainer(s.pending[w], s.engines[e].machine.name) in cs
    ensures forall c | c in cs :: exists w :: w in ws && ToContainer(s.pending[w], s.engines[e].machine.name) == c
    decreases |ws|
  {
    cs := [];
    if ws != {} {
      var w :| w in ws;
      var rest := ListInFlight(s, e, ws - {w});
      cs := [ToContainer(s.pending[w], s.engines[e].machine.name)] + rest;
    }
  }

  lemma IdleMeets(n: Node, s: State, e: string, config: Config, f: Filter, d: Demand)
    requires Ready(s, e) && Plain(config) && Unbound(s, e, config)
    requires n == Idle(s, e, n.containers) && d in Demands(f, config, false)
    requires forall c | c in n.containers ::
               exists w :: w in InFlight(s, e) && ToContainer(s.pending[w], s.engines[e].machine.name) == c
    ensures Meets(n, d)
  {
    assert ExprDemands(f, [], false) == iset{};
    forall i | 0 <= i < |n.containers| ensures n.containers[i].info == NO_INFO {
      assert n.containers[i] in n.containers;
    }
    if f.Port? && config.networkMode != "host" {
      var k :| k in config.portBindings && d in BindingDemands(config.portBindings[k]);
      forall i | 0 <= i < |n.containers| ensures !Occupies(n.containers[i], d.binding) {
        assert n.containers[i] in n.containers;
        var w :| w in InFlight(s, e) && ToContainer(s.pending[w], s.engines[e].machine.name) == n.containers[i];
        assert NoneClashes(config.portBindings, s.pending[w].config.portBindings);
      }
    }
  }

  lemma IdleSuits(sch: Scheduler, n: Node, s: State, e: string, config: Config)
    requires AllNatural(s) && Ready(s, e) && Plain(config) && Unbound(s, e, config)
    requires n == Idle(s, e, n.containers) && HasLeft(s, e, config, Cpus) && HasLeft(s, e, config, Memory)
    requires forall c | c in n.containers ::
               exists w :: w in InFlight(s, e) && ToContainer(s.pending[w], s.engines[e].machine.name) == c
    ensures Suits(sch, n, config, false)
  {
    forall f, d | d in Demands(f, config, false) ensures Meets(n, d) {
      IdleMeets(n, s, e, config, f, d);
    }
    UsedNatural(s, e, Cpus);
    UsedNatural(s, e, Memory);
    EligibleIsRoom(n, config);
  }

  lemma IdleShows(s: State, e: string, cs: seq<Container>)
    requires Ready(s, e) && |cs| == |InFlight(s, e)|
    requires forall w | w in InFlight(s, e) :: ToContainer(s.pending[w], s.engines[e].machine.name) in cs
    requires forall c | c in cs :: Accounted(s, e, c)
    ensures Shows(Idle(s, e, cs), s, e)
  {
  }

  lemma NamelessBegins(sch: Scheduler, s: State, config: Config, n: Node)
    requires Sane(s) && Shows(n, s, n.id) && Suits(sch, n, config, false)
    requires config.swarmID != "" && config.swarmID !in s.pending && !Registered(s, config.swarmID)
    ensures Next(sch, s, Begin(config.swarmID, config, None, "", n),
                 Reserve(s, config.swarmID, Pending(config, "", n.id)))
  {
  }

  /** Under any filters a plain container can be reserved on a ready engine that has enough left for it. */
  lemma PlainBegins(sch: Scheduler, s: State, e: string, config: Config) returns (n: Node)
    requires Sane(s) && AllNatural(s) && Ready(s, e) && Plain(config) && Unbound(s, e, config)
    requires HasLeft(s, e, config, Cpus) && HasLeft(s, e, config, Memory)
    requires config.swarmID !in s.pending && !Registered(s, config.swarmID)
    ensures n.id == e
    ensures Next(sch, s, Begin(config.swarmID, config, None, "", n),
                 Reserve(s, config.swarmID, Pending(config, "", e)))
  {
    var cs := ListInFlight(s, e, InFlight(s, e));
    n := Idle(s, e, cs);
    IdleSuits(sch, n, s, e, config);
    IdleShows(s, e, cs);
    NamelessBegins(sch, s, config, n);
  }

  /** The same can be said of the state after that. */
  lemma StillReady(s: State, e: string, config: Config)
    requires Sound(s) && AllNatural(s) && Ready(s, e) && Plain(config)
    requires HasLeft(s, e, config, Cpus) && HasLeft(s, e, config, Memory)
    requires config.swarmID !in s.pending && !Registered(s, config.swarmID)
    ensures var s' := Reserve(s, config.swarmID, Pending(config, "", e));
      && Sound(s') && AllNatural(s') && Ready(s', e)
      && (forall r :: Used(s', e, r) == Used(s, e, r) + Amount(config, r))
      && InFlight(s', e) == InFlight(s, e) + {config.swarmID}
      && (forall v :: Registered(s', v) <==> Registered(s, v))
  {
    var w, p := config.swarmID, Pending(config, "", e);
    var s' := Reserve(s, w, p);
    assert Reservable(s, w, p);
    ReserveSound(s, w, p);
    InFlightReserve(s, w, p, e);
    forall r ensures Used(s', e, r) == Used(s, e, r) + Amount(config, r) {
      UsedReserve(s, w, p, e, r);
    }
    SameRegistered(s, w, p);
  }

  lemma SameRegistered(s: State, w: string, p: Pending)
    requires AllNatural(s) && Natural(p.config)
    ensures AllNatural(Reserve(s, w, p))
    ensures forall v :: Registered(Reserve(s, w, p), v) <==> Registered(s, v)
  {
    var s' := Reserve(s, w, p);
    assert forall e, k :: OnEngine(s', e, k) <==> OnEngine(s, e, k);
    assert forall e, k, v :: Carries(s', e, k, v) <==> Carries(s, e, k, v);
  }

  lemma EmptyIsReady(s: State, e: string)
    requires Empty(s) && Ready(s, e)
    ensures Sound(s) && AllNatural(s) && InFlight(s, e) == {}
    ensures forall r :: Used(s, e, r) == 0 && Total(s.engines[e].machine, r) > 0
    ensures forall v :: !Registered(s, v)
  {
    EmptyIsSafe(s);
    assert forall f, k, v :: !Carries(s, f, k, v);
    TotalPositive(s.engines[e].machine.cpus, s.engines[e].machine.overcommit);
    TotalPositive(s.engines[e].machine.memory, s.engines[e].machine.overcommit);
    forall r ensures Used(s, e, r) == 0 {
      assert Held(s.engines[e].containers, r) == map[];
      assert Asked(s.pending, InFlight(s, e), r) == map[];
    }
  }

  /** It asks for no CPUs and no memory. */
  ghost predicate Weightless(config: Config) {
    Plain(config) && config.memory == 0 && config.cpuShares == 0
  }

  lemma WeightlessFits(s: State, e: string, config: Config)
    requires AllNatural(s) && Ready(s, e) && Weightless(config)
    ensures HasLeft(s, e, config, Cpus) && HasLeft(s, e, config, Memory)
  {
    TotalPositive(s.engines[e].machine.cpus, s.engines[e].machine.overcommit);
    TotalPositive(s.engines[e].machine.memory, s.engines[e].machine.overcommit);
  }

  lemma WeightlessBegins(sch: Scheduler, s: State, e: string, config: Config) returns (n: Node)
    requires Sound(s) && AllNatural(s) && Ready(s, e) && Weightless(config) && Unbound(s, e, config)
    requires config.swarmID !in s.pending && !Registered(s, config.swarmID)
    ensures n.id == e
    ensures var s' := Reserve(s, config.swarmID, Pending(config, "", e));
      && Next(sch, s, Begin(config.swarmID, config, None, "", n), s')
      && Sound(s') && AllNatural(s') && Ready(s', e) && InFlight(s', e) == InFlight(s, e) + {config.swarmID}
      && (forall v :: Registered(s', v) <==> Registered(s, v))
  {
    WeightlessFits(s, e, config);
    n := PlainBegins(sch, s, e, config);
    StillReady(s, e, config);
  }

  /** From an empty cluster two such containers are reserved on one engine one after the other, if the bindings that
      the second one states, in bridge mode, do not conflict with those that the first one states. */
  lemma TwoBegin(sch: Scheduler, s0: State, e: string, a: Config, b: Config) returns (m: Node, n: Node)
    requires Empty(s0) && Ready(s0, e) && Weightless(a) && Weightless(b) && a.swarmID != b.swarmID
    requires b.networkMode != "host" ==> NoneClashes(b.portBindings, a.portBindings)
    ensures m.id == e == n.id
    ensures var s1 := Reserve(s0, a.swarmID, Pending(a, "", e));
            var s2 := Reserve(s1, b.swarmID, Pending(b, "", e));
            && Next(sch, s0, Begin(a.swarmID, a, None, "", m), s1)
            && Sane(s1) && Next(sch, s1, Begin(b.swarmID, b, None, "", n), s2)
            && Sound(s2) && InFlight(s2, e) == {a.swarmID, b.swarmID}
  {
    EmptyIsReady(s0, e);
    m := WeightlessBegins(sch, s0, e, a);
    n := WeightlessBegins(sch, Reserve(s0, a.swarmID, Pending(a, "", e)), e, b);
  }
}
