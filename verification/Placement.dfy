/** Sums and cardinalities over maps. */
module Sums {
  /** The sum of a map's values. */
  ghost function Sum(m: map<string, int>): int {
    if m == map[] then 0
    else
      var k :| k in m;
      m[k] + Sum(m - {k})
  }

  /** Any key may be taken out first. */
  lemma {:induction false} SumWithout(m: map<string, int>, k: string)
    requires k in m
    ensures Sum(m) == m[k] + Sum(m - {k})
    decreases |m|
  {
    var j :| j in m && Sum(m) == m[j] + Sum(m - {j});
    if j != k {
      SumWithout(m - {j}, k);
      SumWithout(m - {k}, j);
      assert m - {j} - {k} == m - {k} - {j};
    }
  }

  lemma SumAdd(m: map<string, int>, k: string, v: int)
    requires k !in m
    ensures Sum(m[k := v]) == Sum(m) + v
  {
    SumWithout(m[k := v], k);
    assert m[k := v] - {k} == m;
  }

  lemma {:induction false} SumNatural(m: map<string, int>)
    requires forall k | k in m :: m[k] >= 0
    ensures Sum(m) >= 0
    decreases |m|
  {
    if m != map[] {
      var k :| k in m && Sum(m) == m[k] + Sum(m - {k});
      SumNatural(m - {k});
    }
  }
}

/** The placement protocol: containers are reserved under the scheduler's lock, registered by
    their engine while the lock is free, and unreserved under the lock again. */
module Placement {
  import opened Options
  import opened Containers
  import opened Nodes
  import opened Filters
  import opened Arithmetic
  import opened Strategy
  import opened Schedulers
  import opened CpuShares
  import opened Sums

  /** What does not change about an engine. */
  datatype Machine = Machine(name: string, labels: map<string, string>, cpus: int, memory: int, overcommit: int)

  datatype Engine = Engine(machine: Machine, health: int, images: seq<string>, containers: map<string, Container>)

  /** An amount with a percentage of it on top. */
  function Overcommitted(amount: int, percent: int): int {
    amount + Quotient(amount * percent, 100)
  }

  /** Exactly that percentage of the amount comes on top, rounded toward zero. */
  lemma OvercommittedIs(amount: nat, percent: int)
    ensures var top := (Overcommitted(amount, percent) - amount) * 100;
      if percent >= 0 then amount * percent - 100 < top <= amount * percent
      else amount * percent <= top < amount * percent + 100
  {
    var x := amount * percent;
    if percent < 0 {
      assert x <= 0;
      assert -x == (-x) / 100 * 100 + (-x) % 100;
    }
  }

  function TotalCpus(m: Machine): int {
    Overcommitted(m.cpus, m.overcommit)
  }

  function TotalMemory(m: Machine): int {
    Overcommitted(m.memory, m.overcommit)
  }

  /** A container that is being created on an engine. */
  datatype Pending = Pending(config: Config, name: string, engine: string)

  function ToContainer(p: Pending, engineName: string): Container {
    Container("", if p.name != "" then ["/" + p.name] else [], p.config.labels, p.config, NO_INFO, p.engine, engineName)
  }

  /** `asked` remembers the name each creation asked for, by swarm ID. */
  datatype State = State(engines: map<string, Engine>, pending: map<string, Pending>, asked: map<string, string>)

  predicate OnEngine(s: State, e: string, k: string) {
    e in s.engines && k in s.engines[e].containers
  }

  function At(s: State, e: string, k: string): Container
    requires OnEngine(s, e, k)
  {
    s.engines[e].containers[k]
  }

  /** Container `k` of engine `e` is the one with swarm ID `w`. */
  predicate Carries(s: State, e: string, k: string, w: string) {
    OnEngine(s, e, k) && At(s, e, k).config.swarmID == w
  }

  ghost predicate Registered(s: State, w: string) {
    exists e, k :: Carries(s, e, k, w)
  }

  ghost predicate Present(s: State, e: string, w: string) {
    exists k :: Carries(s, e, k, w)
  }

  /** The reservations on engine `e` that are not among its containers yet. */
  ghost function InFlight(s: State, e: string): set<string>
    requires e in s.engines
  {
    set w | w in s.pending && s.pending[w].engine == e && !Present(s, e, w)
  }

  datatype Resource = Cpus | Memory

  function Amount(config: Config, r: Resource): int {
    if r.Cpus? then config.cpuShares else config.memory
  }

  function Total(m: Machine, r: Resource): int {
    if r.Cpus? then TotalCpus(m) else TotalMemory(m)
  }

  ghost function Held(cs: map<string, Container>, r: Resource): map<string, int> {
    map k | k in cs :: Amount(cs[k].config, r)
  }

  ghost function Asked(ps: map<string, Pending>, ws: set<string>, r: Resource): map<string, int> {
    map w | w in ws && w in ps :: Amount(ps[w].config, r)
  }

  /** What registered and in-flight containers hold of an engine's resource, each counted once. */
  ghost function Used(s: State, e: string, r: Resource): int
    requires e in s.engines
  {
    Sum(Held(s.engines[e].containers, r)) + Sum(Asked(s.pending, InFlight(s, e), r))
  }

  ghost function Count(s: State, e: string): nat
    requires e in s.engines
  {
    |s.engines[e].containers| + |InFlight(s, e)|
  }

  /** `n` shows engine `e` with every registered and in-flight container exactly once. */
  ghost predicate Shows(n: Node, s: State, e: string) {
    && e in s.engines
    && n.id == e
    && n.name == s.engines[e].machine.name
    && n.labels == s.engines[e].machine.labels
    && n.images == s.engines[e].images
    && n.health == s.engines[e].health
    && n.totalCpus == TotalCpus(s.engines[e].machine)
    && n.totalMemory == TotalMemory(s.engines[e].machine)
    && n.usedCpus == Used(s, e, Cpus)
    && n.usedMemory == Used(s, e, Memory)
    && |n.containers| == Count(s, e)
    && (forall k | k in s.engines[e].containers :: s.engines[e].containers[k] in n.containers)
    && (forall w | w in InFlight(s, e) :: ToContainer(s.pending[w], n.name) in n.containers)
    && (forall c | c in n.containers :: Accounted(s, e, c))
  }

  /** `c` stands for a container of the engine or for one in flight to it. */
  ghost predicate Accounted(s: State, e: string, c: Container)
    requires e in s.engines
  {
    || (exists k :: k in s.engines[e].containers && s.engines[e].containers[k] == c)
    || (exists w :: w in InFlight(s, e) && ToContainer(s.pending[w], s.engines[e].machine.name) == c)
  }

  /** No container of an engine and no reservation uses the name. */
  ghost predicate NameFree(s: State, name: string) {
    name != "" ==>
      && (forall e, k :: OnEngine(s, e, k) ==> !Named(At(s, e, k), name))
      && (forall w :: w in s.pending ==> s.pending[w].name != name)
  }

  predicate Named(c: Container, name: string) {
    name in c.names || "/" + name in c.names
  }

  /** What engine `cpus` reports of a container created for reservation `p`. */
  ghost predicate Reports(c: Container, p: Pending, cpus: int)
    requires cpus > 0
  {
    && c.config == p.config.(cpuShares := Booked(p.config.cpuShares, cpus))
    && c.info.networkMode == p.config.networkMode
    && c.info.exposedPorts == p.config.exposedPorts
    && c.info.portBindings == p.config.portBindings
    && (p.name != "" ==> Named(c, p.name))
  }

  datatype Step =
    | Begin(w: string, config: Config, image: Option<Expr>, name: string, chosen: Node)
    | Register(reserved: string, container: Container)
    | End(ended: string)
    | Remove(engine: string, key: string)
    | Observe(observed: string, health: int, images: seq<string>)

  /** The configuration the scheduler decides on: a retry adds an affinity to the image. */
  function WithImage(config: Config, image: Option<Expr>): Config {
    if image.Some? && config.affinities.Exprs?
    then config.(affinities := Exprs(config.affinities.exprs + [image.value]))
    else config
  }

  ghost predicate Begins(sch: Scheduler, s: State, w: string, config: Config, image: Option<Expr>, name: string,
                         n: Node)
  {
    && w != "" && config.swarmID == w && w !in s.pending && !Registered(s, w)
    && NameFree(s, name)
    && Shows(n, s, n.id)
    && Suits(sch, n, WithImage(config, image), false)
  }

  function SetContainers(s: State, e: string, cs: map<string, Container>): State
    requires e in s.engines
  {
    s.(engines := s.engines[e := s.engines[e].(containers := cs)])
  }

  function Reserve(s: State, w: string, p: Pending): State {
    s.(pending := s.pending[w := p], asked := s.asked[w := p.name])
  }

  function Unreserve(s: State, w: string): State {
    s.(pending := s.pending - {w})
  }

  function AddContainer(s: State, e: string, c: Container): State
    requires e in s.engines
  {
    SetContainers(s, e, s.engines[e].containers[c.id := c])
  }

  function DropContainer(s: State, e: string, k: string): State
    requires e in s.engines
  {
    SetContainers(s, e, s.engines[e].containers - {k})
  }

  ghost predicate Sane(s: State) {
    forall e | e in s.engines :: s.engines[e].machine.cpus > 0
  }

  /** Engine of reservation `w` reports `c` as the container created for it. */
  ghost predicate Registers(s: State, w: string, c: Container)
    requires Sane(s)
  {
    && w in s.pending && s.pending[w].engine in s.engines && !Registered(s, w)
    && c.id != "" && c.id !in s.engines[s.pending[w].engine].containers
    && Reports(c, s.pending[w], s.engines[s.pending[w].engine].machine.cpus)
  }

  /** One step of one client, of an engine, or of the network. */
  ghost predicate Next(sch: Scheduler, s: State, step: Step, s': State)
    requires Sane(s)
  {
    match step
    case Begin(w, config, image, name, n) =>
      Begins(sch, s, w, config, image, name, n) && s' == Reserve(s, w, Pending(config, name, n.id))
    case Register(w, c) =>
      Registers(s, w, c) && s' == AddContainer(s, s.pending[w].engine, c)
    case End(w) =>
      w in s.pending && s' == Unreserve(s, w)
    case Remove(e, k) =>
      OnEngine(s, e, k) && s' == DropContainer(s, e, k)
    case Observe(e, health, images) =>
      e in s.engines && s' == s.(engines := s.engines[e := s.engines[e].(health := health, images := images)])
  }

  /** What every step keeps about the identities of containers and reservations. */
  ghost predicate Sound(s: State) {
    && Sane(s)
    && (forall w {:trigger ReservationSound(s, w)} | w in s.pending :: ReservationSound(s, w))
    && (forall e, k {:trigger Keyed(s, e, k)} | OnEngine(s, e, k) :: Keyed(s, e, k))
    && (forall w {:trigger Unique(s, w)} | w != "" :: Unique(s, w))
    && (forall w, e, k {:trigger CopySound(s, w, e, k)} | w in s.pending && Carries(s, e, k, w) ::
          CopySound(s, w, e, k))
  }

  ghost predicate Keyed(s: State, e: string, k: string)
    requires OnEngine(s, e, k)
  {
    At(s, e, k).id == k != ""
  }

  /** No two containers carry the swarm ID. */
  ghost predicate Unique(s: State, w: string) {
    forall e, k, f, j | Carries(s, e, k, w) && Carries(s, f, j, w) :: e == f && k == j
  }

  ghost predicate ReservationSound(s: State, w: string)
    requires w in s.pending
  {
    var p := s.pending[w];
    && w != "" && p.config.swarmID == w && p.engine in s.engines
    && p.config.cpuShares <= TotalCpus(s.engines[p.engine].machine)
    && p.config.memory <= TotalMemory(s.engines[p.engine].machine)
  }

  /** A registered container whose reservation still stands is where and what was reserved. */
  ghost predicate CopySound(s: State, w: string, e: string, k: string)
    requires Sane(s) && w in s.pending && OnEngine(s, e, k)
  {
    e == s.pending[w].engine && Reports(At(s, e, k), s.pending[w], s.engines[e].machine.cpus)
  }

  /** What the manager makes sure of before it reserves. */
  ghost predicate Reservable(s: State, w: string, p: Pending) {
    && w != "" && p.config.swarmID == w && w !in s.pending && !Registered(s, w)
    && p.engine in s.engines
    && p.config.cpuShares <= TotalCpus(s.engines[p.engine].machine)
    && p.config.memory <= TotalMemory(s.engines[p.engine].machine)
  }

  lemma BeginsReservable(sch: Scheduler, s: State, w: string, config: Config, image: Option<Expr>, name: string,
                         n: Node)
    requires Begins(sch, s, w, config, image, name, n)
    ensures Reservable(s, w, Pending(config, name, n.id))
  {
  }

  lemma ReserveSound(s: State, w: string, p: Pending)
    requires Sound(s) && Reservable(s, w, p)
    ensures Sound(Reserve(s, w, p))
  {
    var s' := Reserve(s, w, p);
    SameContainersSound(s', s);
    forall v, e, k | v in s'.pending && Carries(s', e, k, v) ensures CopySound(s', v, e, k) {
      assert Carries(s, e, k, v) && v != w;
      assert CopySound(s, v, e, k);
    }
    forall v | v in s'.pending ensures ReservationSound(s', v) {
      assert v != w ==> ReservationSound(s, v);
    }
  }

  /** What concerns containers alone survives a step that brings no new one. */
  lemma SameContainersSound(s': State, s: State)
    requires Sound(s)
    requires forall e, k | OnEngine(s', e, k) :: OnEngine(s, e, k) && At(s', e, k) == At(s, e, k)
    ensures forall e, k | OnEngine(s', e, k) :: Keyed(s', e, k)
    ensures forall w | w != "" :: Unique(s', w)
  {
    forall e, k | OnEngine(s', e, k) ensures Keyed(s', e, k) {
      assert Keyed(s, e, k);
    }
    forall w | w != "" ensures Unique(s', w) {
      assert Unique(s, w);
      forall e, k, f, j | Carries(s', e, k, w) && Carries(s', f, j, w) ensures e == f && k == j {
        assert Carries(s, e, k, w) && Carries(s, f, j, w);
      }
    }
  }

  lemma RegisterSound(s: State, w: string, c: Container)
    requires Sound(s) && Registers(s, w, c)
    ensures Sound(AddContainer(s, s.pending[w].engine, c))
  {
    var e0 := s.pending[w].engine;
    var s' := AddContainer(s, e0, c);
    assert ReservationSound(s, w);
    forall e, k, v | Carries(s', e, k, v) ensures (e == e0 && k == c.id && v == w) || (v != w && Carries(s, e, k, v)) {
      if e != e0 || k != c.id {
        assert Carries(s, e, k, v);
      }
    }
    forall e, k | OnEngine(s', e, k) ensures Keyed(s', e, k) {
      if e != e0 || k != c.id {
        assert OnEngine(s, e, k) && Keyed(s, e, k);
      }
    }
    forall v | v != "" ensures Unique(s', v) {
      assert Unique(s, v);
    }
    forall v, e, k | v in s'.pending && Carries(s', e, k, v) ensures CopySound(s', v, e, k) {
      if v != w {
        assert CopySound(s, v, e, k);
      }
    }
    forall v | v in s'.pending ensures ReservationSound(s', v) {
      assert ReservationSound(s, v);
    }
  }

  /** `s'` has no container and no reservation that `s` lacks. */
  ghost predicate Within(s': State, s: State) {
    && s'.engines.Keys == s.engines.Keys
    && (forall e | e in s.engines :: s'.engines[e].machine == s.engines[e].machine)
    && (forall e, k | OnEngine(s', e, k) :: OnEngine(s, e, k) && At(s', e, k) == At(s, e, k))
    && (forall w | w in s'.pending :: w in s.pending && s'.pending[w] == s.pending[w])
  }

  lemma WithinSound(s': State, s: State)
    requires Sound(s) && Within(s', s)
    ensures Sound(s')
  {
    SameContainersSound(s', s);
    forall v, e, k | v in s'.pending && Carries(s', e, k, v) ensures CopySound(s', v, e, k) {
      assert Carries(s, e, k, v) && CopySound(s, v, e, k);
    }
    forall v | v in s'.pending ensures ReservationSound(s', v) {
      assert ReservationSound(s, v);
    }
  }

  lemma NextSound(sch: Scheduler, s: State, step: Step, s': State)
    requires Sound(s) && Next(sch, s, step, s')
    ensures Sound(s')
  {
    match step
    case Begin(w, config, image, name, n) =>
      BeginsReservable(sch, s, w, config, image, name, n);
      ReserveSound(s, w, Pending(config, name, n.id));
    case Register(w, c) =>
      RegisterSound(s, w, c);
    case _ =>
      WithinSound(s', s);
  }

  lemma InFlightReserve(s: State, w: string, p: Pending, e: string)
    requires Sound(s) && Reservable(s, w, p) && e in s.engines
    ensures InFlight(Reserve(s, w, p), e) == InFlight(s, e) + if p.engine == e then {w} else {}
  {
    var s' := Reserve(s, w, p);
    assert forall k, v :: Carries(s', e, k, v) <==> Carries(s, e, k, v);
    assert forall v :: Present(s', e, v) <==> Present(s, e, v);
    assert !Present(s, e, w);
  }

  lemma InFlightAdd(s: State, w: string, c: Container, e: string)
    requires Sound(s) && Registers(s, w, c) && e in s.engines
    ensures InFlight(AddContainer(s, s.pending[w].engine, c), e) == InFlight(s, e) - {w}
  {
    var s' := AddContainer(s, s.pending[w].engine, c);
    assert ReservationSound(s, w);
    assert s.pending[w].engine == e ==> Carries(s', e, c.id, w);
    assert forall k, v | v != w :: Carries(s', e, k, v) <==> Carries(s, e, k, v);
    assert forall v | v != w :: Present(s', e, v) <==> Present(s, e, v);
  }

  lemma InFlightUnreserve(s: State, w: string, e: string)
    requires Sound(s) && e in s.engines
    ensures InFlight(Unreserve(s, w), e) == InFlight(s, e) - {w}
  {
    var s' := Unreserve(s, w);
    assert forall k, v :: Carries(s', e, k, v) <==> Carries(s, e, k, v);
    assert forall v :: Present(s', e, v) <==> Present(s, e, v);
  }

  /** Removing a container whose creation has not ended puts its reservation in flight again. */
  lemma InFlightDrop(s: State, f: string, k0: string, e: string)
    requires Sound(s) && OnEngine(s, f, k0) && e in s.engines
    ensures var w := At(s, f, k0).config.swarmID;
            InFlight(DropContainer(s, f, k0), e) == InFlight(s, e) + if f == e && w in s.pending then {w} else {}
    ensures At(s, f, k0).config.swarmID !in InFlight(s, f)
  {
    var s', w0 := DropContainer(s, f, k0), At(s, f, k0).config.swarmID;
    assert Carries(s, f, k0, w0);
    assert forall k, v :: Carries(s', e, k, v) <==> Carries(s, e, k, v) && !(e == f && k == k0);
    if w0 in s.pending {
      assert CopySound(s, w0, f, k0) && ReservationSound(s, w0) && Unique(s, w0);
      assert forall k :: !Carries(s', e, k, w0);
    }
    forall v | v != w0 ensures Present(s', e, v) <==> Present(s, e, v) {
      if Present(s, e, v) {
        var k :| Carries(s, e, k, v);
        assert Carries(s', e, k, v);
      }
    }
  }

  /** How a step changes the in-flight containers of an engine. */
  ghost function InFlightAfter(s: State, e: string, step: Step): set<string>
    requires e in s.engines
  {
    match step
    case Begin(w, _, _, _, n) => InFlight(s, e) + if n.id == e then {w} else {}
    case Register(w, _) => InFlight(s, e) - {w}
    case End(w) => InFlight(s, e) - {w}
    case Remove(f, k) =>
      InFlight(s, e) + if f == e && OnEngine(s, e, k) && At(s, e, k).config.swarmID in s.pending
                       then {At(s, e, k).config.swarmID} else {}
    case Observe(_, _, _) => InFlight(s, e)
  }

  lemma InFlightNext(sch: Scheduler, s: State, step: Step, s': State, e: string)
    requires Sound(s) && Next(sch, s, step, s') && e in s.engines
    ensures e in s'.engines && InFlight(s', e) == InFlightAfter(s, e, step)
  {
    match step
    case Begin(w, config, image, name, n) =>
      BeginsReservable(sch, s, w, config, image, name, n);
      InFlightReserve(s, w, Pending(config, name, n.id), e);
    case Register(w, c) => InFlightAdd(s, w, c, e);
    case End(w) => InFlightUnreserve(s, w, e);
    case Remove(f, k) => InFlightDrop(s, f, k, e);
    case Observe(_, _, _) => assert forall k, v :: Carries(s', e, k, v) <==> Carries(s, e, k, v);
  }

  lemma HeldPut(cs: map<string, Container>, k: string, c: Container, r: Resource)
    requires k !in cs
    ensures Sum(Held(cs[k := c], r)) == Sum(Held(cs, r)) + Amount(c.config, r)
  {
    assert Held(cs[k := c], r) == Held(cs, r)[k := Amount(c.config, r)];
    SumAdd(Held(cs, r), k, Amount(c.config, r));
  }

  lemma HeldDrop(cs: map<string, Container>, k: string, r: Resource)
    requires k in cs
    ensures Sum(Held(cs, r)) == Sum(Held(cs - {k}, r)) + Amount(cs[k].config, r)
  {
    HeldPut(cs - {k}, k, cs[k], r);
    assert (cs - {k})[k := cs[k]] == cs;
  }

  lemma AskedPut(ps: map<string, Pending>, ws: set<string>, w: string, r: Resource)
    requires w in ps && w !in ws
    ensures Sum(Asked(ps, ws + {w}, r)) == Sum(Asked(ps, ws, r)) + Amount(ps[w].config, r)
  {
    assert Asked(ps, ws + {w}, r) == Asked(ps, ws, r)[w := Amount(ps[w].config, r)];
    SumAdd(Asked(ps, ws, r), w, Amount(ps[w].config, r));
  }

  lemma AskedDrop(ps: map<string, Pending>, ws: set<string>, w: string, r: Resource)
    requires w in ps && w in ws
    ensures Sum(Asked(ps, ws, r)) == Sum(Asked(ps, ws - {w}, r)) + Amount(ps[w].config, r)
  {
    AskedPut(ps, ws - {w}, w, r);
    assert ws - {w} + {w} == ws;
  }
}
