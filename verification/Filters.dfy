/** Nodes, and the seven filters that narrow them down for a container. */
module Nodes {
  import opened Options
  import opened Containers

  datatype Node = Node(
    id: string,
    name: string,
    labels: map<string, string>,
    containers: seq<Container>,
    images: seq<string>,
    usedMemory: int,
    usedCpus: int,
    totalMemory: int,
    totalCpus: int,
    health: int)

  /** Node.AddContainer: a container that is bigger than the node is not added. */
  function Inject(n: Node, c: Container): Node {
    if n.totalMemory - c.config.memory < 0 || n.totalCpus - c.config.cpuShares < 0 then n
    else
      n.(usedMemory := n.usedMemory + c.config.memory,
         usedCpus := n.usedCpus + c.config.cpuShares,
         containers := n.containers + [c])
  }

  predicate BindsAllInterfaces(b: PortBinding) {
    b.hostIP == "" || b.unspecified
  }

  /** Two bindings cannot be on one machine together. */
  predicate Conflict(a: PortBinding, b: PortBinding) {
    && a.hostPort != "" && a.hostPort == b.hostPort
    && (a.hostIP == b.hostIP || BindsAllInterfaces(a) || BindsAllInterfaces(b))
  }

  /** What listens on the host port at address `ip`. */
  predicate Listens(b: PortBinding, ip: string) {
    b.hostIP == "" || b.unspecified || b.hostIP == ip
  }

  /** Two bindings conflict exactly when they state the same host port and there is an address at which both listen. */
  lemma ConflictIff(a: PortBinding, b: PortBinding)
    ensures Conflict(a, b) <==>
            a.hostPort != "" && a.hostPort == b.hostPort && exists ip :: Listens(a, ip) && Listens(b, ip)
  {
    if BindsAllInterfaces(a) {
      assert Listens(a, b.hostIP) && Listens(b, b.hostIP);
    } else if BindsAllInterfaces(b) || a.hostIP == b.hostIP {
      assert Listens(a, a.hostIP) && Listens(b, a.hostIP);
    }
  }

  /** Some binding of the map listens on the host port at the address. */
  ghost predicate ListensOn(bindings: PortMap, ip: string, port: string) {
    exists k, x :: k in bindings && x in bindings[k] && x.hostPort == port && Listens(x, ip)
  }

  /** A requested binding clashes with others exactly when it states a host port on which, at some address at which it
      listens, one of them listens. */
  lemma ClashesIff(requested: PortBinding, bindings: PortMap)
    ensures Clashes(requested, bindings) <==>
            requested.hostPort != ""
            && exists ip :: Listens(requested, ip) && ListensOn(bindings, ip, requested.hostPort)
  {
    if Clashes(requested, bindings) {
      var k :| k in bindings && exists i | 0 <= i < |bindings[k]| :: Conflict(bindings[k][i], requested);
      var i :| 0 <= i < |bindings[k]| && Conflict(bindings[k][i], requested);
      ConflictIff(bindings[k][i], requested);
      var ip :| Listens(bindings[k][i], ip) && Listens(requested, ip);
      assert bindings[k][i] in bindings[k];
      assert ListensOn(bindings, ip, requested.hostPort);
    }
    if ip :| requested.hostPort != "" && Listens(requested, ip) && ListensOn(bindings, ip, requested.hostPort) {
      var k, x :| k in bindings && x in bindings[k] && x.hostPort == requested.hostPort && Listens(x, ip);
      ConflictIff(x, requested);
      var i :| 0 <= i < |bindings[k]| && bindings[k][i] == x;
      assert Conflict(bindings[k][i], requested);
    }
  }

  /** A container takes up a host port at an address: by its own bindings or those that the engine made, or, while it
      is under construction, by those that it asks for. */
  ghost predicate Takes(c: Container, ip: string, port: string) {
    if c.id == "" then ListensOn(c.config.portBindings, ip, port)
    else ListensOn(c.info.portBindings, ip, port) || ListensOn(c.info.networkPorts, ip, port)
  }

  /** A requested binding is free on a node exactly when it states no host port, or no container there takes that port
      up at an address at which it listens. */
  lemma InUseIff(n: Node, requested: PortBinding)
    ensures PortAlreadyInUse(n, requested) <==>
            requested.hostPort != ""
            && exists c, ip :: c in n.containers && Listens(requested, ip) && Takes(c, ip, requested.hostPort)
  {
    forall c
      ensures Occupies(c, requested) <==>
              requested.hostPort != "" && exists ip :: Listens(requested, ip) && Takes(c, ip, requested.hostPort)
    {
      ClashesIff(requested, c.config.portBindings);
      ClashesIff(requested, c.info.portBindings);
      ClashesIff(requested, c.info.networkPorts);
    }
    if PortAlreadyInUse(n, requested) {
      var i :| 0 <= i < |n.containers| && Occupies(n.containers[i], requested);
      assert n.containers[i] in n.containers;
    }
    if c, ip :| requested.hostPort != "" && c in n.containers && Listens(requested, ip)
                && Takes(c, ip, requested.hostPort) {
      var i :| 0 <= i < |n.containers| && n.containers[i] == c;
      assert Occupies(n.containers[i], requested);
    }
  }

  predicate Clashes(requested: PortBinding, bindings: PortMap) {
    exists k | k in bindings :: exists i | 0 <= i < |bindings[k]| :: Conflict(bindings[k][i], requested)
  }

  /** A container without an ID is still under construction: only its request is known. */
  predicate Occupies(c: Container, requested: PortBinding) {
    if c.id != "" then Clashes(requested, c.info.portBindings) || Clashes(requested, c.info.networkPorts)
    else Clashes(requested, c.config.portBindings)
  }

  predicate PortAlreadyInUse(n: Node, requested: PortBinding) {
    exists i | 0 <= i < |n.containers| :: Occupies(n.containers[i], requested)
  }

  predicate PortAlreadyExposed(n: Node, port: string) {
    exists i | 0 <= i < |n.containers| ::
      n.containers[i].info.networkMode == "host" && port in n.containers[i].info.exposedPorts
  }

  function Digit(c: char): (d: Option<nat>)
    ensures d.Some? ==> d.value <= 9
  {
    if '0' <= c <= '9' then Some(c as int - '0' as int) else None
  }

  function Digits(s: string): (r: Option<nat>) {
    if s == [] then None
    else
      var last := Digit(s[|s| - 1]);
      if last.None? then None
      else if |s| == 1 then last
      else
        var front := Digits(s[..|s| - 1]);
        if front.None? then None else Some(10 * front.value + last.value)
  }

  /** strconv.Atoi on an optionally signed run of decimal digits. */
  function Atoi(s: string): Option<int> {
    if s != [] && s[0] == '-' then
      var d := Digits(s[1..]);
      if d.Some? then Some(-(d.value as int)) else None
    else if s != [] && s[0] == '+' then Digits(s[1..])
    else Digits(s)
  }

  const SLOTS_LABEL := "containerslots"

  /** The limit a node's label sets on its number of containers, if it sets a legible one. */
  function SlotLimit(labels: map<string, string>): Option<int> {
    if SLOTS_LABEL in labels then Atoi(labels[SLOTS_LABEL]) else None
  }

  predicate HasOpenSlot(n: Node) {
    SlotLimit(n.labels).Some? ==> |n.containers| < SlotLimit(n.labels).value
  }

  function TrimSlash(name: string): string {
    if name != [] && name[0] == '/' then name[1..] else name
  }

  function IdsAndNames(cs: seq<Container>): seq<string> {
    if cs == [] then []
    else (if cs[0].names != [] then [cs[0].id, TrimSlash(cs[0].names[0])] else []) + IdsAndNames(cs[1..])
  }

  function LabelOr(labels: map<string, string>, key: string): string {
    if key in labels then labels[key] else ""
  }

  /** expr.Match: "==" wants some string accepted, "!=" wants none. */
  predicate Satisfied(e: Expr, whats: seq<string>) {
    (exists i | 0 <= i < |whats| :: e.accepts(whats[i])) == e.op.Eq?
  }

  predicate AffinityHolds(e: Expr, n: Node) {
    if e.key == "container" then Satisfied(e, IdsAndNames(n.containers))
    else if e.key == "image" then Satisfied(e, n.images)
    else Satisfied(e, seq(|n.containers|, i requires 0 <= i < |n.containers| => LabelOr(n.containers[i].labels, e.key)))
  }

  predicate ConstraintHolds(e: Expr, n: Node) {
    if e.key == "node" then Satisfied(e, [n.id, n.name])
    else Satisfied(e, [LabelOr(n.labels, e.key)])
  }

  function Split(s: string, sep: char): seq<string> {
    BeforeLength(s, sep);
    var head := Before(s, sep);
    if |head| < |s| then [head] + Split(s[|head| + 1..], sep) else [head]
  }

  predicate Whitelisted(e: Expr, n: Node) {
    n.name in Split(e.value, '|')
  }

  function Hosts(refs: seq<string>): (r: seq<string>)
    ensures |r| == |refs|
  {
    seq(|refs|, i requires 0 <= i < |refs| => Before(refs[i], ':'))
  }

  const NET_PREFIX := "container:"

  /** The containers a new container must be placed beside. */
  function Dependencies(config: Config): seq<string> {
    Hosts(config.volumesFrom) + Hosts(config.links)
    + if NET_PREFIX <= config.networkMode then [config.networkMode[|NET_PREFIX|..]] else []
  }

  predicate Contains(n: Node, key: string) {
    Get(n.containers, key).Some?
  }
}

module Filters {
  import opened Options
  import opened Containers
  import opened Nodes

  datatype Filter = Health | Port | Slots | Dependency | Affinity | Constraint | Whitelist

  datatype Refusal = NoHealthyNode | NoMatchingNode | NoNodeAvailable | NoResources

  datatype Outcome = Accepted(nodes: seq<Node>) | Refused(why: Refusal)

  /** One thing a filter asks of a node; what it asks depends on that node alone. */
  datatype Demand =
    | BeHealthy
    | HaveOpenSlot
    | NotExpose(port: string)
    | HaveFree(binding: PortBinding)
    | Hold(key: string)
    | BeNear(affinity: Expr)
    | Obey(constraint: Expr)
    | BeListed(whitelist: Expr)

  predicate Meets(n: Node, d: Demand) {
    match d
    case BeHealthy => n.health > 0
    case HaveOpenSlot => HasOpenSlot(n)
    case NotExpose(port) => !PortAlreadyExposed(n, port)
    case HaveFree(binding) => !PortAlreadyInUse(n, binding)
    case Hold(key) => Contains(n, key)
    case BeNear(e) => AffinityHolds(e, n)
    case Obey(e) => ConstraintHolds(e, n)
    case BeListed(e) => Whitelisted(e, n)
  }

  function ParsedFor(f: Filter, config: Config): Parsed {
    match f
    case Affinity => config.affinities
    case Constraint => config.constraints
    case Whitelist => config.whitelists
    case _ => Exprs([])
  }

  predicate Parses(f: Filter, config: Config) {
    ParsedFor(f, config).Exprs?
  }

  function DemandOf(f: Filter, e: Expr): Demand {
    match f
    case Affinity => BeNear(e)
    case Constraint => Obey(e)
    case _ => BeListed(e)
  }

  /** What filter `f` asks of a node; the hard pass leaves the soft expressions out. */
  ghost function Demands(f: Filter, config: Config, soft: bool): iset<Demand> {
    match f
    case Health => iset{BeHealthy}
    case Slots => iset{HaveOpenSlot}
    case Port =>
      if config.networkMode == "host" then iset p | p in config.exposedPorts :: NotExpose(p)
      else KeyDemands(config.portBindings, config.portBindings.Keys)
    case Dependency => iset d | d in Dependencies(config) :: Hold(d)
    case _ =>
      if Parses(f, config) then ExprDemands(f, ParsedFor(f, config).exprs, soft) else iset{}
  }

  ghost function BindingDemands(bs: seq<PortBinding>): iset<Demand> {
    iset b | b in bs :: HaveFree(b)
  }

  ghost function KeyDemands(bindings: PortMap, keys: set<string>): iset<Demand> {
    iset k, d | k in keys && k in bindings && d in BindingDemands(bindings[k]) :: d
  }

  ghost function ExprDemands(f: Filter, es: seq<Expr>, soft: bool): iset<Demand> {
    iset e | e in es && (soft || !e.soft) :: DemandOf(f, e)
  }

  ghost function AllDemands(fs: seq<Filter>, config: Config, soft: bool): iset<Demand> {
    iset f, d | f in fs && d in Demands(f, config, soft) :: d
  }

  predicate AllParse(fs: seq<Filter>, config: Config) {
    forall i | 0 <= i < |fs| :: Parses(fs[i], config)
  }

  ghost predicate MeetsAll(n: Node, ds: iset<Demand>) {
    forall d | d in ds :: Meets(n, d)
  }

  /** The nodes that meet all demands, in their order. */
  ghost function Keep(nodes: seq<Node>, ds: iset<Demand>): seq<Node> {
    if nodes == [] then []
    else Keep(nodes[..|nodes| - 1], ds) + KeepOne(nodes[|nodes| - 1], ds)
  }

  ghost function KeepOne(n: Node, ds: iset<Demand>): seq<Node> {
    if MeetsAll(n, ds) then [n] else []
  }

  lemma {:induction false} InKeep(nodes: seq<Node>, ds: iset<Demand>)
    ensures forall n :: n in Keep(nodes, ds) <==> n in nodes && MeetsAll(n, ds)
  {
    if nodes != [] {
      var front, last := nodes[..|nodes| - 1], nodes[|nodes| - 1];
      InKeep(front, ds);
      assert nodes == front + [last];
    }
  }

  lemma KeepSnoc(nodes: seq<Node>, n: Node, ds: iset<Demand>)
    ensures Keep(nodes + [n], ds) == Keep(nodes, ds) + KeepOne(n, ds)
  {
    assert (nodes + [n])[..|nodes|] == nodes;
  }

  lemma MeetsBoth(n: Node, ds: iset<Demand>, es: iset<Demand>)
    ensures MeetsAll(n, ds + es) <==> MeetsAll(n, ds) && MeetsAll(n, es)
  {
  }

  /** Narrowing twice is narrowing once by both sets of demands. */
  lemma {:induction false} KeepKeep(nodes: seq<Node>, ds: iset<Demand>, es: iset<Demand>)
    ensures Keep(Keep(nodes, ds), es) == Keep(nodes, ds + es)
  {
    if nodes != [] {
      var front, last := nodes[..|nodes| - 1], nodes[|nodes| - 1];
      KeepKeep(front, ds, es);
      MeetsBoth(last, ds, es);
      if MeetsAll(last, ds) {
        KeepSnoc(Keep(front, ds), last, es);
      } else {
        assert Keep(nodes, ds) == Keep(front, ds);
      }
    }
  }

  lemma {:induction false} KeepEverything(nodes: seq<Node>)
    ensures Keep(nodes, iset{}) == nodes
  {
    if nodes != [] {
      KeepEverything(nodes[..|nodes| - 1]);
      assert nodes == nodes[..|nodes| - 1] + [nodes[|nodes| - 1]];
    }
  }

  /** The loop all filters share: the nodes meeting one demand. */
  method Narrow(nodes: seq<Node>, d: Demand) returns (candidates: seq<Node>)
    ensures candidates == Keep(nodes, iset{d})
  {
    candidates := [];
    for i := 0 to |nodes|
      invariant candidates == Keep(nodes[..i], iset{d})
    {
      assert nodes[..i + 1][..i] == nodes[..i];
      if Meets(nodes[i], d) {
        candidates := candidates + [nodes[i]];
      }
    }
    assert nodes[..|nodes|] == nodes;
  }

  /** One more narrowing of a list that is already narrowed by `done`. */
  method NarrowMore(ghost nodes: seq<Node>, ghost done: iset<Demand>, left: seq<Node>, d: Demand)
    returns (candidates: seq<Node>)
    requires left == Keep(nodes, done)
    ensures candidates == Keep(nodes, done + iset{d})
  {
    candidates := Narrow(left, d);
    KeepKeep(nodes, done, iset{d});
  }

  function WhyRefused(f: Filter): Refusal {
    if f.Health? then NoHealthyNode else NoMatchingNode
  }

  /** What a filter must answer: the nodes meeting its demands, or a refusal when its expressions
      are malformed or no node is left. (A filter that is given no node may accept or refuse.) */
  ghost predicate Narrows(r: Outcome, f: Filter, config: Config, nodes: seq<Node>, soft: bool) {
    && (r.Accepted? ==> Parses(f, config) && r.nodes == Keep(nodes, Demands(f, config, soft)))
    && (r.Refused? ==> r.why == WhyRefused(f))
    && (nodes != [] ==> (r.Accepted? <==> Parses(f, config) && Keep(nodes, Demands(f, config, soft)) != []))
  }

  method FilterHealth(nodes: seq<Node>, config: Config, soft: bool) returns (r: Outcome)
    ensures Narrows(r, Health, config, nodes, soft)
  {
    var result := Narrow(nodes, BeHealthy);
    r := if result == [] then Refused(NoHealthyNode) else Accepted(result);
  }

  method FilterSlots(nodes: seq<Node>, config: Config, soft: bool) returns (r: Outcome)
    ensures Narrows(r, Slots, config, nodes, soft)
  {
    var result := Narrow(nodes, HaveOpenSlot);
    r := if result == [] then Refused(NoMatchingNode) else Accepted(result);
  }

  method FilterHostPorts(nodes: seq<Node>, config: Config, soft: bool) returns (r: Outcome)
    requires config.networkMode == "host"
    ensures Narrows(r, Port, config, nodes, soft)
  {
    var left, todo := nodes, config.exposedPorts;
    ghost var done: iset<Demand> := iset{};
    KeepEverything(nodes);
    while todo != {}
      invariant todo <= config.exposedPorts
      invariant done == iset p | p in config.exposedPorts - todo :: NotExpose(p)
      invariant left == Keep(nodes, done)
      invariant nodes != [] ==> left != []
    {
      var port :| port in todo;
      var candidates := NarrowMore(nodes, done, left, NotExpose(port));
      done, todo := done + iset{NotExpose(port)}, todo - {port};
      if candidates == [] {
        StillEmpty(nodes, done, Demands(Port, config, soft));
        return Refused(NoMatchingNode);
      }
      left := candidates;
    }
    assert done == Demands(Port, config, soft);
    r := Accepted(left);
  }

  /** More demands keep no more nodes. */
  lemma StillEmpty(nodes: seq<Node>, ds: iset<Demand>, es: iset<Demand>)
    requires ds <= es && Keep(nodes, ds) == []
    ensures Keep(nodes, es) == []
  {
    KeepKeep(nodes, ds, es);
    assert ds + es == es;
  }

  lemma BindingDemandsSnoc(bs: seq<PortBinding>, i: nat)
    requires i < |bs|
    ensures BindingDemands(bs[..i + 1]) == BindingDemands(bs[..i]) + iset{HaveFree(bs[i])}
    ensures BindingDemands(bs[..i + 1]) <= BindingDemands(bs)
  {
    assert bs[..i + 1] == bs[..i] + [bs[i]];
    assert forall b :: b in bs[..i + 1] ==> b in bs;
  }

  lemma KeyDemandsAdd(bindings: PortMap, keys: set<string>, k: string)
    requires k in bindings
    ensures KeyDemands(bindings, keys + {k}) == KeyDemands(bindings, keys) + BindingDemands(bindings[k])
  {
  }

  /** The inner loop of the bridge-mode port filter: all bindings of one container port. */
  method NarrowByBindings(ghost nodes: seq<Node>, ghost done: iset<Demand>, left: seq<Node>, bindings: seq<PortBinding>)
    returns (r: Outcome)
    requires left == Keep(nodes, done) && (nodes != [] ==> left != [])
    ensures r.Accepted? ==> r.nodes == Keep(nodes, done + BindingDemands(bindings)) && (nodes != [] ==> r.nodes != [])
    ensures r.Refused? ==> r.why == NoMatchingNode && Keep(nodes, done + BindingDemands(bindings)) == []
  {
    var now := left;
    assert done + BindingDemands(bindings[..0]) == done;
    for i := 0 to |bindings|
      invariant now == Keep(nodes, done + BindingDemands(bindings[..i]))
      invariant nodes != [] ==> now != []
    {
      var candidates := NarrowMore(nodes, done + BindingDemands(bindings[..i]), now, HaveFree(bindings[i]));
      BindingDemandsSnoc(bindings, i);
      assert done + BindingDemands(bindings[..i + 1])
             == done + BindingDemands(bindings[..i]) + iset{HaveFree(bindings[i])};
      if candidates == [] {
        StillEmpty(nodes, done + BindingDemands(bindings[..i + 1]), done + BindingDemands(bindings));
        return Refused(NoMatchingNode);
      }
      now := candidates;
    }
    assert bindings[..|bindings|] == bindings;
    r := Accepted(now);
  }

  method FilterBridgePorts(nodes: seq<Node>, config: Config, soft: bool) returns (r: Outcome)
    requires config.networkMode != "host"
    ensures Narrows(r, Port, config, nodes, soft)
  {
    var left, todo, all := nodes, config.portBindings.Keys, config.portBindings;
    KeepEverything(nodes);
    assert KeyDemands(all, all.Keys - todo) == iset{};
    while todo != {}
      invariant todo <= all.Keys
      invariant left == Keep(nodes, KeyDemands(all, all.Keys - todo))
      invariant nodes != [] ==> left != []
    {
      var port :| port in todo;
      var step := NarrowByBindings(nodes, KeyDemands(all, all.Keys - todo), left, all[port]);
      KeyDemandsAdd(all, all.Keys - todo, port);
      assert all.Keys - todo + {port} == all.Keys - (todo - {port});
      if step.Refused? {
        StillEmpty(nodes, KeyDemands(all, all.Keys - (todo - {port})), KeyDemands(all, all.Keys));
        return step;
      }
      left, todo := step.nodes, todo - {port};
    }
    assert all.Keys - todo == all.Keys;
    r := Accepted(left);
  }

  method FilterPort(nodes: seq<Node>, config: Config, soft: bool) returns (r: Outcome)
    ensures Narrows(r, Port, config, nodes, soft)
  {
    if config.networkMode == "host" {
      r := FilterHostPorts(nodes, config, soft);
    } else {
      r := FilterBridgePorts(nodes, config, soft);
    }
  }

  /** dependency.check, for all of a container's dependencies. */
  predicate HoldsAll(n: Node, keys: seq<string>) {
    forall i | 0 <= i < |keys| :: Contains(n, keys[i])
  }

  method FilterDependency(nodes: seq<Node>, config: Config, soft: bool) returns (r: Outcome)
    ensures Narrows(r, Dependency, config, nodes, soft)
  {
    if nodes == [] {
      return Accepted([]);
    }
    var keys := Dependencies(config);
    ghost var all := Demands(Dependency, config, soft);
    var candidates := [];
    for i := 0 to |nodes|
      invariant candidates == Keep(nodes[..i], all)
    {
      assert nodes[..i + 1][..i] == nodes[..i];
      assert MeetsAll(nodes[i], all) <==> HoldsAll(nodes[i], keys) by {
        assert forall j | 0 <= j < |keys| :: Hold(keys[j]) in all;
      }
      if HoldsAll(nodes[i], keys) {
        candidates := candidates + [nodes[i]];
      }
    }
    assert nodes[..|nodes|] == nodes;
    r := if candidates == [] then Refused(NoMatchingNode) else Accepted(candidates);
  }

  /** The affinity, constraint and whitelist filters: one narrowing per expression. */
  method FilterExprs(f: Filter, nodes: seq<Node>, config: Config, soft: bool) returns (r: Outcome)
    requires f.Affinity? || f.Constraint? || f.Whitelist?
    ensures Narrows(r, f, config, nodes, soft)
  {
    if ParsedFor(f, config).Malformed? {
      return Refused(NoMatchingNode);
    }
    r := NarrowByExprs(f, nodes, ParsedFor(f, config).exprs, soft);
  }

  method NarrowByExprs(f: Filter, nodes: seq<Node>, exprs: seq<Expr>, soft: bool) returns (r: Outcome)
    ensures r.Accepted? ==> r.nodes == Keep(nodes, ExprDemands(f, exprs, soft)) && (nodes != [] ==> r.nodes != [])
    ensures r.Refused? ==> r.why == NoMatchingNode && Keep(nodes, ExprDemands(f, exprs, soft)) == []
  {
    var left := nodes;
    KeepEverything(nodes);
    assert ExprDemands(f, exprs[..0], soft) == iset{};
    for i := 0 to |exprs|
      invariant left == Keep(nodes, ExprDemands(f, exprs[..i], soft))
      invariant nodes != [] ==> left != []
    {
      ExprStep(f, exprs, i, soft);
      if !soft && exprs[i].soft {
        continue;
      }
      var candidates := NarrowMore(nodes, ExprDemands(f, exprs[..i], soft), left, DemandOf(f, exprs[i]));
      if candidates == [] {
        StillEmpty(nodes, ExprDemands(f, exprs[..i + 1], soft), ExprDemands(f, exprs, soft));
        return Refused(NoMatchingNode);
      }
      left := candidates;
    }
    assert exprs[..|exprs|] == exprs;
    r := Accepted(left);
  }

  lemma ExprStep(f: Filter, es: seq<Expr>, i: nat, soft: bool)
    requires i < |es|
    ensures ExprDemands(f, es[..i + 1], soft) ==
            if soft || !es[i].soft then ExprDemands(f, es[..i], soft) + iset{DemandOf(f, es[i])}
            else ExprDemands(f, es[..i], soft)
    ensures ExprDemands(f, es[..i + 1], soft) <= ExprDemands(f, es, soft)
  {
    assert es[..i + 1] == es[..i] + [es[i]];
    assert forall e :: e in es[..i + 1] ==> e in es;
  }

  method RunFilter(f: Filter, nodes: seq<Node>, config: Config, soft: bool) returns (r: Outcome)
    ensures Narrows(r, f, config, nodes, soft)
  {
    match f {
      case Health => r := FilterHealth(nodes, config, soft);
      case Port => r := FilterPort(nodes, config, soft);
      case Slots => r := FilterSlots(nodes, config, soft);
      case Dependency => r := FilterDependency(nodes, config, soft);
      case _ => r := FilterExprs(f, nodes, config, soft);
    }
  }

  /** Some node passes every filter of the chain. */
  ghost predicate Passable(fs: seq<Filter>, config: Config, nodes: seq<Node>, soft: bool) {
    AllParse(fs, config) && Keep(nodes, AllDemands(fs, config, soft)) != []
  }

  lemma AllDemandsSnoc(fs: seq<Filter>, f: Filter, config: Config, soft: bool)
    ensures AllDemands(fs + [f], config, soft) == AllDemands(fs, config, soft) + Demands(f, config, soft)
  {
    forall d
      ensures d in AllDemands(fs + [f], config, soft) <==> d in AllDemands(fs, config, soft) + Demands(f, config, soft)
    {
      if d in Demands(f, config, soft) {
        assert f in fs + [f];
      }
    }
  }

  /** The chain step by step is one filter by the conjunction of all demands: it keeps the order of
      the nodes and refuses exactly when an expression is malformed or no node meets them all. The
      refusal is that of the first filter that no node of the narrowed list passes. */
  method ApplyFilters(fs: seq<Filter>, config: Config, nodes: seq<Node>, soft: bool) returns (r: Outcome)
    ensures r.Accepted? ==> AllParse(fs, config) && r.nodes == Keep(nodes, AllDemands(fs, config, soft))
    ensures nodes != [] ==> (r.Accepted? <==> Passable(fs, config, nodes, soft))
    ensures r.Refused? ==> exists f :: f in fs && r.why == WhyRefused(f)
    ensures nodes != [] && r.Refused? ==>
      exists i :: 0 <= i < |fs| && Passable(fs[..i], config, nodes, soft)
                  && !Passable(fs[..i + 1], config, nodes, soft) && r.why == WhyRefused(fs[i])
  {
    var candidates := nodes;
    KeepEverything(nodes);
    assert AllDemands(fs[..0], config, soft) == iset{};
    for i := 0 to |fs|
      invariant Narrowed(fs[..i], config, nodes, soft, candidates)
    {
      var step := RunFilter(fs[i], candidates, config, soft);
      ChainStep(fs, i, config, nodes, soft, candidates, step);
      if step.Refused? {
        return Refused(if fs[i].Health? then NoHealthyNode else NoMatchingNode);
      }
      candidates := step.nodes;
    }
    assert fs[..|fs|] == fs;
    r := Accepted(candidates);
  }

  /** `left` is what the filters `fs` have left of `nodes`. */
  ghost predicate Narrowed(fs: seq<Filter>, config: Config, nodes: seq<Node>, soft: bool, left: seq<Node>) {
    && AllParse(fs, config)
    && left == Keep(nodes, AllDemands(fs, config, soft))
    && (nodes != [] ==> left != [])
  }

  /** One filter more: the narrowed list is narrowed by that filter's demands. */
  lemma ChainStep(fs: seq<Filter>, i: nat, config: Config, nodes: seq<Node>, soft: bool, left: seq<Node>, step: Outcome)
    requires i < |fs| && Narrowed(fs[..i], config, nodes, soft, left)
    requires Narrows(step, fs[i], config, left, soft)
    ensures step.Accepted? ==> Narrowed(fs[..i + 1], config, nodes, soft, step.nodes)
    ensures nodes != [] ==> Passable(fs[..i], config, nodes, soft)
    ensures nodes != [] && step.Refused? ==>
      !Passable(fs[..i + 1], config, nodes, soft) && !Passable(fs, config, nodes, soft)
  {
    ChainKeep(fs, i, config, nodes, soft);
    if nodes != [] && Passable(fs, config, nodes, soft) {
      PassablePrefix(fs, i + 1, config, nodes, soft);
    }
  }

  lemma ChainKeep(fs: seq<Filter>, i: nat, config: Config, nodes: seq<Node>, soft: bool)
    requires i < |fs| && AllParse(fs[..i], config)
    ensures Keep(Keep(nodes, AllDemands(fs[..i], config, soft)), Demands(fs[i], config, soft))
            == Keep(nodes, AllDemands(fs[..i + 1], config, soft))
    ensures AllParse(fs[..i + 1], config) <==> Parses(fs[i], config)
  {
    assert fs[..i + 1] == fs[..i] + [fs[i]];
    AllDemandsSnoc(fs[..i], fs[i], config, soft);
    KeepKeep(nodes, AllDemands(fs[..i], config, soft), Demands(fs[i], config, soft));
  }

  lemma PassablePrefix(fs: seq<Filter>, i: nat, config: Config, nodes: seq<Node>, soft: bool)
    requires i <= |fs| && Passable(fs, config, nodes, soft)
    ensures Passable(fs[..i], config, nodes, soft)
  {
    var less, more := AllDemands(fs[..i], config, soft), AllDemands(fs, config, soft);
    assert forall f :: f in fs[..i] ==> f in fs;
    assert less <= more;
    KeepKeep(nodes, less, more);
    assert less + more == more;
    assert Keep([], more) == [];
  }

  /** The order of the filters does not matter for what is accepted. */
  lemma OrderOfFilters(fs: seq<Filter>, gs: seq<Filter>, config: Config, nodes: seq<Node>, soft: bool)
    requires multiset(fs) == multiset(gs)
    ensures AllParse(fs, config) <==> AllParse(gs, config)
    ensures Keep(nodes, AllDemands(fs, config, soft)) == Keep(nodes, AllDemands(gs, config, soft))
  {
    assert forall f :: f in fs <==> f in multiset(fs);
    assert forall f :: f in gs <==> f in multiset(gs);
    assert forall f :: f in fs <==> f in gs;
    assert AllDemands(fs, config, soft) == AllDemands(gs, config, soft);
    assert AllParse(fs, config) <==> forall f | f in fs :: Parses(f, config);
    assert AllParse(gs, config) <==> forall f | f in gs :: Parses(f, config);
  }

  /** The hard pass asks for a part of what the soft pass asks for. */
  lemma HardIsWeaker(fs: seq<Filter>, config: Config)
    ensures AllDemands(fs, config, false) <= AllDemands(fs, config, true)
  {
    forall f ensures Demands(f, config, false) <= Demands(f, config, true) {
    }
  }
}
