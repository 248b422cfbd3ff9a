/** The manager's cluster object: what its critical sections read and write. */
module Clusters {
  import opened Options
  import opened Containers
  import opened Nodes
  import opened Filters
  import opened Strategy
  import opened Schedulers
  import opened Sums
  import opened Placement
  import Capacity

  function WithSwarmID(config: Config, generated: string): Config {
    if config.swarmID == "" then config.(swarmID := generated) else config
  }

  datatype Creation = NameTaken | NotPlaced(why: Refusal) | Reserved(swarmID: string, engine: string)

  /** No container could be mistaken for one in flight when that one's swarm ID is looked up. */
  ghost predicate NoCollisions(s: State) {
    forall w | w in s.pending ::
      && (forall e, k | OnEngine(s, e, k) :: !Mistakable(At(s, e, k), w))
      && (forall v, name | v in s.pending :: !Mistakable(ToContainer(s.pending[v], name), w))
  }

  /** Engine.Containers: the values of the map, in some order. */
  method ListContainers(cs: map<string, Container>) returns (out: seq<Container>)
    ensures |out| == |cs|
    ensures forall k | k in cs :: cs[k] in out
    ensures forall c | c in out :: exists k :: k in cs && cs[k] == c
  {
    out := [];
    var todo := cs.Keys;
    while todo != {}
      invariant todo <= cs.Keys && |out| + |todo| == |cs|
      invariant forall k | k in cs && k !in todo :: cs[k] in out
      invariant forall c | c in out :: exists k :: k in cs && cs[k] == c
    {
      var k :| k in todo;
      ghost var before := out;
      out, todo := out + [cs[k]], todo - {k};
      assert forall c | c in before :: c in out;
      assert cs[k] in out;
    }
  }

  /** Engine.UsedCpus and Engine.UsedMemory. */
  method SumContainers(cs: map<string, Container>, r: Resource) returns (total: int)
    ensures total == Sum(Held(cs, r))
  {
    total := 0;
    var todo := cs.Keys;
    ghost var done: map<string, Container> := map[];
    while todo != {}
      invariant todo <= cs.Keys
      invariant done == map k | k in cs && k !in todo :: cs[k]
      invariant total == Sum(Held(done, r))
    {
      var k :| k in todo;
      HeldPut(done, k, cs[k], r);
      total, todo, done := total + Amount(cs[k].config, r), todo - {k}, done[k := cs[k]];
    }
    assert done == cs;
  }

  method NewNode(e: string, g: Engine) returns (n: Node)
    ensures n.id == e && n.name == g.machine.name && n.labels == g.machine.labels && n.images == g.images
    ensures n.health == g.health && n.totalCpus == TotalCpus(g.machine) && n.totalMemory == TotalMemory(g.machine)
    ensures n.usedCpus == Sum(Held(g.containers, Cpus)) && n.usedMemory == Sum(Held(g.containers, Memory))
    ensures |n.containers| == |g.containers|
    ensures forall k | k in g.containers :: g.containers[k] in n.containers
    ensures forall c | c in n.containers :: exists k :: k in g.containers && g.containers[k] == c
  {
    var cs := ListContainers(g.containers);
    var memory := SumContainers(g.containers, Memory);
    var cpus := SumContainers(g.containers, Cpus);
    n := Node(e, g.machine.name, g.machine.labels, cs, g.images, memory, cpus,
              TotalMemory(g.machine), TotalCpus(g.machine), g.health);
  }

  /** `n` shows engine `e` with the in-flight containers of `ws` and no other. */
  ghost predicate ShowsSome(n: Node, s: State, e: string, ws: set<string>)
    requires e in s.engines && ws <= s.pending.Keys
  {
    var g := s.engines[e];
    && n.id == e && n.name == g.machine.name && n.labels == g.machine.labels && n.images == g.images
    && n.health == g.health && n.totalCpus == TotalCpus(g.machine) && n.totalMemory == TotalMemory(g.machine)
    && n.usedCpus == Sum(Held(g.containers, Cpus)) + Sum(Asked(s.pending, ws, Cpus))
    && n.usedMemory == Sum(Held(g.containers, Memory)) + Sum(Asked(s.pending, ws, Memory))
    && |n.containers| == |g.containers| + |ws|
    && (forall k | k in g.containers :: g.containers[k] in n.containers)
    && (forall w | w in ws :: ToContainer(s.pending[w], g.machine.name) in n.containers)
    && (forall c | c in n.containers :: Seen(c, s, e, ws))
  }

  ghost predicate Seen(c: Container, s: State, e: string, ws: set<string>)
    requires e in s.engines && ws <= s.pending.Keys
  {
    || (exists k :: k in s.engines[e].containers && s.engines[e].containers[k] == c)
    || (exists w :: w in ws && ToContainer(s.pending[w], s.engines[e].machine.name) == c)
  }

  /** Looking up the swarm ID of a reservation tells whether its container is registered. */
  lemma LookupTells(n: Node, s: State, e: string, ws: set<string>, w: string)
    requires Sound(s) && NoCollisions(s) && e in s.engines && ws <= s.pending.Keys
    requires ShowsSome(n, s, e, ws) && w in s.pending && w !in ws
    ensures Contains(n, w) <==> Present(s, e, w)
  {
    assert ReservationSound(s, w);
    forall c | c in n.containers ensures !Mistakable(c, w) {
      assert Seen(c, s, e, ws);
      if k :| k in s.engines[e].containers && s.engines[e].containers[k] == c {
        assert OnEngine(s, e, k);
      }
    }
    GetBySwarmID(n.containers, w);
    if HasSwarmID(n.containers, w) {
      var c :| c in n.containers && c.config.swarmID == w;
      assert Seen(c, s, e, ws);
      forall v | v in ws ensures ToContainer(s.pending[v], s.engines[e].machine.name) != c {
        assert ReservationSound(s, v);
      }
      var k :| k in s.engines[e].containers && s.engines[e].containers[k] == c;
      assert Carries(s, e, k, w);
    }
    if Present(s, e, w) {
      var k :| Carries(s, e, k, w);
      assert s.engines[e].containers[k] in n.containers;
    }
  }

  /** Laying one more in-flight container over the node. */
  lemma InjectShows(n: Node, s: State, e: string, ws: set<string>, w: string)
    requires Sound(s) && e in s.engines && ws <= s.pending.Keys && ShowsSome(n, s, e, ws)
    requires w in s.pending && w !in ws && s.pending[w].engine == e
    ensures ShowsSome(Inject(n, ToContainer(s.pending[w], s.engines[e].machine.name)), s, e, ws + {w})
  {
    assert ReservationSound(s, w);
    AskedPut(s.pending, ws, w, Cpus);
    AskedPut(s.pending, ws, w, Memory);
    var c := ToContainer(s.pending[w], s.engines[e].machine.name);
    forall d | d in n.containers + [c] ensures Seen(d, s, e, ws + {w}) {
      if d in n.containers {
        assert Seen(d, s, e, ws);
      } else {
        assert w in ws + {w} && ToContainer(s.pending[w], s.engines[e].machine.name) == d;
      }
    }
  }

  lemma ShowsAll(n: Node, s: State, e: string)
    requires e in s.engines && ShowsSome(n, s, e, InFlight(s, e))
    ensures Shows(n, s, e)
  {
    forall c | c in n.containers ensures Accounted(s, e, c) {
      assert Seen(c, s, e, InFlight(s, e));
    }
  }

  /** The node of engine `e` once the reservations outside `todo` are laid over it. */
  ghost predicate Overlaid(n: Node, s: State, e: string, todo: set<string>) {
    e in s.engines && ShowsSome(n, s, e, InFlight(s, e) - todo)
  }

  function OverlayOne(n: Node, e: string, p: Pending, engineName: string, found: bool): Node {
    if p.engine == e && !found then Inject(n, ToContainer(p, engineName)) else n
  }

  lemma OverlayStep(n: Node, s: State, e: string, todo: set<string>, w: string, found: bool)
    requires Sound(s) && Overlaid(n, s, e, todo) && todo <= s.pending.Keys && w in todo
    requires found <==> Present(s, e, w)
    ensures Overlaid(OverlayOne(n, e, s.pending[w], s.engines[e].machine.name, found), s, e, todo - {w})
  {
    var ws := InFlight(s, e) - todo;
    if w in InFlight(s, e) {
      InjectShows(n, s, e, ws, w);
      assert InFlight(s, e) - (todo - {w}) == ws + {w};
    } else {
      assert InFlight(s, e) - (todo - {w}) == ws;
    }
  }

  /** Without any assumption about names and IDs: looking at a reservation leaves the node right exactly when its
      container is registered there, or nothing on the node is found under its swarm ID. */
  lemma ReservationShownIff(n: Node, s: State, e: string, todo: set<string>, w: string)
    requires Sound(s) && Overlaid(n, s, e, todo) && todo <= s.pending.Keys && w in todo && s.pending[w].engine == e
    ensures Overlaid(OverlayOne(n, e, s.pending[w], s.engines[e].machine.name, Contains(n, w)), s, e, todo - {w})
            <==> Present(s, e, w) || !Contains(n, w)
  {
    assert ReservationSound(s, w);
    var ws := InFlight(s, e) - todo;
    if k :| Carries(s, e, k, w) {
      assert s.engines[e].containers[k] in n.containers;
      CarrierFound(n.containers, w);
      assert Present(s, e, w);
      OverlayStep(n, s, e, todo, w, true);
    } else {
      assert !Present(s, e, w) && w in InFlight(s, e);
      if Contains(n, w) {
        assert InFlight(s, e) - (todo - {w}) == ws + {w};
        assert |ws + {w}| == |ws| + 1;
      } else {
        OverlayStep(n, s, e, todo, w, false);
      }
    }
  }

  /** A container whose labels map is shared with a copy that is being created: it goes by the copy's swarm ID. */
  function Relabelled(c: Container, w: string): Container {
    c.(config := c.config.(swarmID := w))
  }

  /** When a running container of the engine is copied to the engine it runs on, with the labels map it shares, the
      reservation of the copy is not shown: the node that otherwise shows everything lacks one container and what the
      copy asks for. */
  lemma TemplateHidesReservation(n: Node, s: State, e: string, k: string, w: string, p: Pending)
    requires Sound(s) && OnEngine(s, e, k) && Reservable(s, w, p) && p.engine == e
    requires Relabelled(At(s, e, k), w) in n.containers && |n.containers| == Count(s, e)
    requires n.usedCpus == Used(s, e, Cpus) && n.usedMemory == Used(s, e, Memory)
    ensures var m, s' := OverlayOne(n, e, p, s.engines[e].machine.name, Contains(n, w)), Reserve(s, w, p);
      && |m.containers| + 1 == Count(s', e)
      && m.usedCpus + p.config.cpuShares == Used(s', e, Cpus)
      && m.usedMemory + p.config.memory == Used(s', e, Memory)
  {
    assert Relabelled(At(s, e, k), w).config.swarmID == w;
    CarrierFound(n.containers, w);
    InFlightReserve(s, w, p, e);
    Capacity.UsedReserve(s, w, p, e, Cpus);
    Capacity.UsedReserve(s, w, p, e, Memory);
    assert w !in InFlight(s, e);
  }

  lemma OverlayStart(n: Node, s: State, e: string)
    requires Sound(s) && e in s.engines && ShowsSome(n, s, e, {})
    ensures Overlaid(n, s, e, s.pending.Keys)
  {
    assert InFlight(s, e) - s.pending.Keys == {};
  }

  lemma OverlayEnd(n: Node, s: State, e: string)
    requires Overlaid(n, s, e, {})
    ensures Shows(n, s, e)
  {
    assert InFlight(s, e) - {} == InFlight(s, e);
    ShowsAll(n, s, e);
  }

  /** The nodes are the cluster's engines, each exactly once, in some order. */
  ghost predicate Lists(nodes: seq<Node>, s: State) {
    && |nodes| == |s.engines|
    && (forall n {:trigger Shown(n, s)} | n in nodes :: Shown(n, s))
    && (forall e | e in s.engines :: exists n :: n in nodes && n.id == e)
  }

  ghost predicate Shown(n: Node, s: State) {
    Shows(n, s, n.id)
  }

  /** The engines outside `todo` are listed. */
  ghost predicate ListsBut(nodes: seq<Node>, s: State, todo: set<string>) {
    && todo <= s.engines.Keys && |nodes| + |todo| == |s.engines|
    && (forall n {:trigger Shown(n, s)} | n in nodes :: Shown(n, s))
    && (forall e | e in s.engines && e !in todo :: exists n :: n in nodes && n.id == e)
  }

  lemma ListsNone(s: State)
    ensures ListsBut([], s, s.engines.Keys)
  {
  }

  lemma ListsDone(nodes: seq<Node>, s: State)
    requires ListsBut(nodes, s, {})
    ensures Lists(nodes, s)
  {
  }

  lemma ListsMore(nodes: seq<Node>, s: State, todo: set<string>, n: Node)
    requires ListsBut(nodes, s, todo) && Shown(n, s) && n.id in todo
    ensures ListsBut(nodes + [n], s, todo - {n.id})
  {
    forall m | m in nodes + [n] ensures Shown(m, s) {
      assert m in nodes ==> Shown(m, s);
    }
    forall e | e in s.engines && e !in todo - {n.id} ensures exists m :: m in nodes + [n] && m.id == e {
      if e == n.id {
        assert n in nodes + [n];
      } else {
        var m :| m in nodes && m.id == e;
        assert m in nodes + [n];
      }
    }
  }

  lemma BareShows(n: Node, s: State, e: string)
    requires e in s.engines
    requires var g := s.engines[e];
      && n.id == e && n.name == g.machine.name && n.labels == g.machine.labels && n.images == g.images
      && n.health == g.health && n.totalCpus == TotalCpus(g.machine) && n.totalMemory == TotalMemory(g.machine)
      && n.usedCpus == Sum(Held(g.containers, Cpus)) && n.usedMemory == Sum(Held(g.containers, Memory))
      && |n.containers| == |g.containers|
      && (forall k | k in g.containers :: g.containers[k] in n.containers)
      && (forall c | c in n.containers :: exists k :: k in g.containers && g.containers[k] == c)
    ensures ShowsSome(n, s, e, {})
  {
    assert Asked(s.pending, {}, Cpus) == map[] && Asked(s.pending, {}, Memory) == map[];
  }

  /** The node a successful selection puts first may be reserved on. */
  lemma ChosenBegins(sch: Scheduler, s: State, nodes: seq<Node>, w: string, config: Config, image: Option<Expr>,
                     name: string, n: Node)
    requires Sane(s) && Lists(nodes, s) && n in nodes && Suits(sch, n, WithImage(config, image), false)
    requires w != "" && config.swarmID == w && w !in s.pending && !Registered(s, w) && NameFree(s, name)
    ensures Next(sch, s, Begin(w, config, image, name, n), Reserve(s, w, Pending(config, name, n.id)))
  {
    assert Shown(n, s);
  }

  class Cluster {
    const scheduler: Scheduler
    var engines: map<string, Engine>
    var pendingContainers: map<string, Pending>
    ghost var asked: map<string, string>

    ghost function S(): State
      reads this
    {
      State(engines, pendingContainers, asked)
    }

    constructor (scheduler: Scheduler, engines: map<string, Engine>)
      ensures this.scheduler == scheduler
      ensures S() == State(engines, map[], map[])
    {
      this.scheduler, this.engines, this.pendingContainers, this.asked := scheduler, engines, map[], map[];
    }

    method Lookup(n: Node, ghost e: string, ghost todo: set<string>, ghost w: string, p: Pending) returns (found: bool)
      requires Sound(S()) && NoCollisions(S()) && Overlaid(n, S(), e, todo)
      requires w in todo && w in pendingContainers && p == pendingContainers[w]
      ensures found <==> Present(S(), e, w)
    {
      found := Contains(n, p.config.swarmID);
      assert ReservationSound(S(), w);
      LookupTells(n, S(), e, InFlight(S(), e) - todo, w);
    }

    /** The inner loop of listNodes: lay the reservations of engine `e` over its node. */
    method Overlay(e: string, start: Node) returns (n: Node)
      requires Sound(S()) && NoCollisions(S()) && e in engines && ShowsSome(start, S(), e, {})
      ensures Shows(n, S(), e)
    {
      n := start;
      var todo := pendingContainers.Keys;
      OverlayStart(n, S(), e);
      while todo != {}
        invariant todo <= pendingContainers.Keys
        invariant Overlaid(n, S(), e, todo)
      {
        var w :| w in todo;
        var p := pendingContainers[w];
        var found := Lookup(n, e, todo, w, p);
        OverlayStep(n, S(), e, todo, w, found);
        n := OverlayOne(n, e, p, engines[e].machine.name, found);
        todo := todo - {w};
      }
      OverlayEnd(n, S(), e);
    }

    method ListNode(e: string) returns (n: Node)
      requires Sound(S()) && NoCollisions(S()) && e in engines
      ensures n.id == e && Shown(n, S())
    {
      var start := NewNode(e, engines[e]);
      BareShows(start, S(), e);
      n := Overlay(e, start);
    }

    /** listNodes: every scheduling decision sees each registered or in-flight container exactly once. */
    method ListNodes() returns (nodes: seq<Node>)
      requires Sound(S()) && NoCollisions(S())
      ensures Lists(nodes, S())
    {
      nodes := [];
      var todo := engines.Keys;
      ListsNone(S());
      while todo != {}
        invariant ListsBut(nodes, S(), todo)
      {
        var e :| e in todo;
        var n := ListNode(e);
        ListsMore(nodes, S(), todo, n);
        nodes, todo := nodes + [n], todo - {e};
      }
      ListsDone(nodes, S());
    }

    method CheckNameUniqueness(name: string) returns (free: bool)
      ensures free <==> NameFree(S(), name)
      ensures free <==>
        || name == ""
        || ((forall e, k | OnEngine(S(), e, k) :: name !in At(S(), e, k).names && "/" + name !in At(S(), e, k).names)
            && forall w | w in pendingContainers :: pendingContainers[w].name != name)
    {
      if name == "" {
        return true;
      }
      var todo := engines.Keys;
      while todo != {}
        invariant todo <= engines.Keys
        invariant forall e, k | OnEngine(S(), e, k) && e !in todo :: !Named(At(S(), e, k), name)
      {
        var e :| e in todo;
        var keys := engines[e].containers.Keys;
        while keys != {}
          invariant keys <= engines[e].containers.Keys
          invariant forall k | k in engines[e].containers && k !in keys :: !Named(engines[e].containers[k], name)
        {
          var k :| k in keys;
          if Named(engines[e].containers[k], name) {
            assert OnEngine(S(), e, k) && Named(At(S(), e, k), name);
            return false;
          }
          keys := keys - {k};
        }
        todo := todo - {e};
      }
      var ws := pendingContainers.Keys;
      while ws != {}
        invariant ws <= pendingContainers.Keys
        invariant forall w | w in pendingContainers && w !in ws :: pendingContainers[w].name != name
      {
        var w :| w in ws;
        if pendingContainers[w].name == name {
          return false;
        }
        ws := ws - {w};
      }
      return true;
    }

    /** Reserve the best node of the listing for a container with a swarm ID and a free name: no listed node that suits
        in the pass that counts stands before it. Or leave the cluster as it was when no listed node passes the hard
        filters with room to spare. */
    method Place(config: Config, name: string, image: Option<Expr>) returns (r: Creation, ghost nodes: seq<Node>)
      requires Sound(S()) && NoCollisions(S()) && NameFree(S(), name)
      requires config.swarmID != "" && config.swarmID !in pendingContainers && !Registered(S(), config.swarmID)
      modifies this`pendingContainers, this`asked
      ensures !r.NameTaken? && Lists(nodes, old(S()))
      ensures r.NotPlaced? ==> S() == old(S()) && !Feasible(scheduler, nodes, WithImage(config, image), false)
      ensures r.NotPlaced? && nodes != [] ==> Explains(r.why, scheduler, nodes, WithImage(config, image), false)
      ensures r.Reserved? ==> old(Sane(S())) && exists n ::
        n in nodes && n.id == r.engine && Best(scheduler, nodes, WithImage(config, image), n)
        && Next(scheduler, old(S()), Begin(r.swarmID, config, image, name, n), S())
    {
      nodes := [];
      var listed := ListNodes();
      nodes := listed;
      var selected := SelectNodesForContainer(scheduler, listed, WithImage(config, image));
      if selected.Refused? {
        return NotPlaced(selected.why), nodes;
      }
      var n := selected.nodes[0];
      assert n in selected.nodes;
      FirstIsBest(selected.nodes, scheduler, listed, WithImage(config, image));
      ChosenBegins(scheduler, S(), nodes, config.swarmID, config, image, name, n);
      AddPending(config.swarmID, Pending(config, name, n.id));
      return Reserved(config.swarmID, n.id), nodes;
    }

    method AddPending(w: string, p: Pending)
      modifies this`pendingContainers, this`asked
      ensures S() == Reserve(old(S()), w, p)
    {
      pendingContainers := pendingContainers[w := p];
      asked := asked[w := p.name];
    }

    /** The first critical section of createContainer: it refuses exactly the names that are taken, and else
        places the container. `generated` is the swarm ID drawn for a configuration that has none. */
    method BeginCreate(config: Config, name: string, image: Option<Expr>, generated: string)
      returns (r: Creation, ghost nodes: seq<Node>)
      requires Sound(S()) && NoCollisions(S())
      requires var w := WithSwarmID(config, generated).swarmID;
               w != "" && w !in pendingContainers && !Registered(S(), w)
      modifies this`pendingContainers, this`asked
      ensures r.NameTaken? <==> !NameFree(old(S()), name)
      ensures r.NameTaken? ==> S() == old(S())
      ensures !r.NameTaken? ==> Lists(nodes, old(S()))
      ensures r.NotPlaced? ==>
        S() == old(S()) && !Feasible(scheduler, nodes, WithImage(WithSwarmID(config, generated), image), false)
      ensures r.NotPlaced? && nodes != [] ==>
        Explains(r.why, scheduler, nodes, WithImage(WithSwarmID(config, generated), image), false)
      ensures r.Reserved? ==> r.swarmID == if config.swarmID != "" then config.swarmID else generated
      ensures r.Reserved? ==> old(Sane(S())) && exists n ::
        n in nodes && n.id == r.engine
        && Best(scheduler, nodes, WithImage(WithSwarmID(config, generated), image), n)
        && Next(scheduler, old(S()), Begin(r.swarmID, WithSwarmID(config, generated), image, name, n), S())
    {
      nodes := [];
      var free := CheckNameUniqueness(name);
      if !free {
        return NameTaken, nodes;
      }
      r, nodes := Place(WithSwarmID(config, generated), name, image);
    }

    /** The engine of reservation `w` takes up the created container, outside any lock of the scheduler. */
    method EngineRegisters(w: string, c: Container)
      requires Sane(S()) && Registers(S(), w, c)
      modifies this`engines
      ensures old(Sane(S())) && Next(scheduler, old(S()), Register(w, c), S())
    {
      var e := pendingContainers[w].engine;
      engines := engines[e := engines[e].(containers := engines[e].containers[c.id := c])];
    }

    /** The second critical section of createContainer, after success and failure alike. */
    method EndCreate(w: string)
      requires Sane(S()) && w in pendingContainers
      modifies this`pendingContainers
      ensures old(Sane(S())) && Next(scheduler, old(S()), End(w), S())
    {
      pendingContainers := pendingContainers - {w};
    }

    method RemoveContainer(e: string, k: string)
      requires Sane(S()) && OnEngine(S(), e, k)
      modifies this`engines
      ensures old(Sane(S())) && Next(scheduler, old(S()), Remove(e, k), S())
    {
      engines := engines[e := engines[e].(containers := engines[e].containers - {k})];
    }
  }
}
