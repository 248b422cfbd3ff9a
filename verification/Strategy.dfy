/** Weighing and ranking of nodes by the spread and binpack strategies. */
module Strategy {
  import opened Arithmetic
  import opened Options
  import opened Containers
  import opened Nodes

  datatype Strategy = Spread | Binpack

  const FULL := 100

  /** The node is at least as big as the request. */
  predicate BigEnough(n: Node, config: Config) {
    n.totalMemory >= config.memory && n.totalCpus >= config.cpuShares
  }

  function CpuScore(n: Node, config: Config): int
    requires BigEnough(n, config)
  {
    if config.cpuShares > 0 then Quotient((n.usedCpus + config.cpuShares) * 100, n.totalCpus) else FULL
  }

  function MemoryScore(n: Node, config: Config): int
    requires BigEnough(n, config)
  {
    if config.memory > 0 then Quotient((n.usedMemory + config.memory) * 100, n.totalMemory) else FULL
  }

  predicate Eligible(n: Node, config: Config) {
    BigEnough(n, config) && CpuScore(n, config) <= FULL && MemoryScore(n, config) <= FULL
  }

  /** The most of a resource that the percentage test lets a node give away: the integer
      division lets one percent, rounded down, slip through. */
  function Limit(total: int): int {
    total + (total - 1) / 100
  }

  lemma ScoreIsLimit(used: int, request: int, total: int)
    requires used >= 0 && request > 0 && total >= request
    ensures Quotient((used + request) * 100, total) <= FULL <==> used + request <= Limit(total)
  {
    var x := (used + request) * 100;
    assert x / total <= 100 <==> x < 101 * total by {
      QuotientAtMost(x, total, 100);
    }
  }

  predicate PassesTest(used: int, request: int, total: int) {
    used >= 0 && 0 < request <= total && Quotient((used + request) * 100, total) <= FULL
  }

  /** The test keeps every node within its total exactly for totals of at most 100 units. */
  lemma RoundingIff(total: int)
    requires total > 0
    ensures (forall used, request | PassesTest(used, request, total) :: used + request <= total) <==> total <= 100
  {
    if total <= 100 {
      forall used, request | PassesTest(used, request, total) ensures used + request <= total {
        ScoreIsLimit(used, request, total);
      }
    } else {
      ScoreIsLimit(total, 1, total);
      assert PassesTest(total, 1, total);
    }
  }

  /** What being eligible means for a node that holds no negative amounts: the request
      keeps both resources within their limits. */
  lemma EligibleIsRoom(n: Node, config: Config)
    requires n.usedCpus >= 0 && n.usedMemory >= 0
    ensures Eligible(n, config) <==>
            && BigEnough(n, config)
            && (config.cpuShares > 0 ==> n.usedCpus + config.cpuShares <= Limit(n.totalCpus))
            && (config.memory > 0 ==> n.usedMemory + config.memory <= Limit(n.totalMemory))
  {
    if BigEnough(n, config) {
      if config.cpuShares > 0 { ScoreIsLimit(n.usedCpus, config.cpuShares, n.totalCpus); }
      if config.memory > 0 { ScoreIsLimit(n.usedMemory, config.memory, n.totalMemory); }
    }
  }

  datatype Weighted = Weighted(node: Node, weight: int)

  function HealthFactor(s: Strategy): int {
    if s.Spread? then -10 else 10
  }

  function Weight(n: Node, config: Config, s: Strategy): int
    requires BigEnough(n, config)
  {
    CpuScore(n, config) + MemoryScore(n, config) + HealthFactor(s) * n.health
  }

  predicate Less(a: Weighted, b: Weighted) {
    if a.weight == b.weight then |a.node.containers| < |b.node.containers| else a.weight < b.weight
  }

  /** `a` may stand before `b`: spread sorts upwards, binpack downwards. */
  predicate MayPrecede(a: Weighted, b: Weighted, s: Strategy) {
    if s.Spread? then !Less(b, a) else !Less(a, b)
  }

  ghost function EligibleNodes(nodes: seq<Node>, config: Config): seq<Node> {
    if nodes == [] then []
    else EligibleNodes(nodes[..|nodes| - 1], config)
         + if Eligible(nodes[|nodes| - 1], config) then [nodes[|nodes| - 1]] else []
  }

  lemma {:induction false} InEligibleNodes(nodes: seq<Node>, config: Config)
    ensures forall n :: n in EligibleNodes(nodes, config) <==> n in nodes && Eligible(n, config)
  {
    if nodes != [] {
      InEligibleNodes(nodes[..|nodes| - 1], config);
      assert nodes == nodes[..|nodes| - 1] + [nodes[|nodes| - 1]];
    }
  }

  ghost predicate WeightsOf(list: seq<Weighted>, nodes: seq<Node>, config: Config, s: Strategy) {
    && |list| == |nodes|
    && forall i | 0 <= i < |list| ::
      Eligible(nodes[i], config) && list[i] == Weighted(nodes[i], Weight(nodes[i], config, s))
  }

  method WeighNodes(config: Config, nodes: seq<Node>, s: Strategy) returns (r: Option<seq<Weighted>>)
    ensures r.None? <==> EligibleNodes(nodes, config) == []
    ensures r.Some? ==> WeightsOf(r.value, EligibleNodes(nodes, config), config, s)
  {
    var weighted := [];
    for i := 0 to |nodes|
      invariant WeightsOf(weighted, EligibleNodes(nodes[..i], config), config, s)
    {
      assert nodes[..i + 1][..i] == nodes[..i];
      var node := nodes[i];
      if node.totalMemory < config.memory || node.totalCpus < config.cpuShares {
        continue;
      }
      var cpuScore, memoryScore := 100, 100;
      if config.cpuShares > 0 {
        cpuScore := Quotient((node.usedCpus + config.cpuShares) * 100, node.totalCpus);
      }
      if config.memory > 0 {
        memoryScore := Quotient((node.usedMemory + config.memory) * 100, node.totalMemory);
      }
      if cpuScore <= 100 && memoryScore <= 100 {
        weighted := weighted + [Weighted(node, cpuScore + memoryScore + HealthFactor(s) * node.health)];
      }
    }
    assert nodes[..|nodes|] == nodes;
    r := if weighted == [] then None else Some(weighted);
  }

  ghost predicate Sorted(list: seq<Weighted>, s: Strategy) {
    forall i, j | 0 <= i < j < |list| :: MayPrecede(list[i], list[j], s)
  }

  method Insert(out: seq<Weighted>, w: Weighted, s: Strategy) returns (longer: seq<Weighted>)
    requires Sorted(out, s)
    ensures Sorted(longer, s) && multiset(longer) == multiset(out) + multiset{w}
  {
    var k := 0;
    while k < |out| && MayPrecede(out[k], w, s)
      invariant 0 <= k <= |out|
      invariant forall j | 0 <= j < k :: MayPrecede(out[j], w, s)
    {
      k := k + 1;
    }
    forall j | k <= j < |out| ensures MayPrecede(w, out[j], s) {
      assert MayPrecede(out[k], out[j], s) || j == k;
    }
    longer := out[..k] + [w] + out[k..];
    assert out == out[..k] + out[k..];
  }

  /** Stands for Go's sort.Sort, of which only this contract is used: nodes that tie may come in any order. */
  method Sort(list: seq<Weighted>, s: Strategy) returns (out: seq<Weighted>)
    ensures Sorted(out, s) && multiset(out) == multiset(list)
  {
    out := [];
    for i := 0 to |list|
      invariant Sorted(out, s) && multiset(out) == multiset(list[..i])
    {
      assert list[..i + 1] == list[..i] + [list[i]];
      out := Insert(out, list[i], s);
    }
    assert list[..|list|] == list;
  }

  /** `out` ranks exactly the eligible ones of `nodes`, each as often as it occurs. */
  ghost predicate Ranks(out: seq<Node>, nodes: seq<Node>, config: Config, s: Strategy) {
    && multiset(out) == multiset(EligibleNodes(nodes, config))
    && (forall i | 0 <= i < |out| :: Eligible(out[i], config))
    && forall i, j | 0 <= i < j < |out| ::
      MayPrecede(Weighted(out[i], Weight(out[i], config, s)), Weighted(out[j], Weight(out[j], config, s)), s)
  }

  function NodesOf(list: seq<Weighted>): (r: seq<Node>)
    ensures |r| == |list| && forall i | 0 <= i < |r| :: r[i] == list[i].node
  {
    seq(|list|, i requires 0 <= i < |list| => list[i].node)
  }

  /** Forgetting the weights maps equal multisets to equal multisets. */
  lemma {:induction false} NodesOfMultiset(a: seq<Weighted>, b: seq<Weighted>)
    requires multiset(a) == multiset(b)
    ensures multiset(NodesOf(a)) == multiset(NodesOf(b))
    decreases |a|
  {
    if a == [] {
      assert |multiset(b)| == 0;
    } else {
      var k := Occurrence(a, b);
      Extract(a, 0);
      Extract(b, k);
      NodesOfMultiset(a[..0] + a[1..], b[..k] + b[k + 1..]);
    }
  }

  /** Where the first element of a list occurs in another list with the same elements, and what is left. */
  lemma Occurrence(a: seq<Weighted>, b: seq<Weighted>) returns (k: nat)
    requires multiset(a) == multiset(b) && a != []
    ensures k < |b| && b[k] == a[0] && multiset(a[..0] + a[1..]) == multiset(b[..k] + b[k + 1..])
  {
    assert a[0] in multiset(b);
    k :| 0 <= k < |b| && b[k] == a[0];
    WithoutOne(a, 0);
    WithoutOne(b, k);
    assert multiset(a[..0] + a[1..]) == multiset(a) - multiset{a[0]};
    assert multiset(b[..k] + b[k + 1..]) == multiset(b) - multiset{a[0]};
  }

  lemma Extract(b: seq<Weighted>, k: nat)
    requires k < |b|
    ensures multiset(b) == multiset(b[..k] + b[k + 1..]) + multiset{b[k]}
    ensures multiset(NodesOf(b)) == multiset(NodesOf(b[..k] + b[k + 1..])) + multiset{b[k].node}
  {
    WithoutOne(b, k);
    WithoutOne(NodesOf(b), k);
    assert NodesOf(b[..k] + b[k + 1..]) == NodesOf(b)[..k] + NodesOf(b)[k + 1..];
  }

  lemma WithoutOne<T>(b: seq<T>, k: nat)
    requires k < |b|
    ensures multiset(b) == multiset(b[..k] + b[k + 1..]) + multiset{b[k]}
  {
    assert b == b[..k] + [b[k]] + b[k + 1..];
  }

  method RankAndSort(s: Strategy, config: Config, nodes: seq<Node>) returns (r: Option<seq<Node>>)
    ensures r.Some? <==> exists n :: n in nodes && Eligible(n, config)
    ensures r.Some? ==> r.value != [] && Ranks(r.value, nodes, config, s)
  {
    InEligibleNodes(nodes, config);
    var weighted := WeighNodes(config, nodes, s);
    ghost var eligible := EligibleNodes(nodes, config);
    if weighted.None? {
      return None;
    }
    assert eligible[0] in eligible;
    var sorted := Sort(weighted.value, s);
    var output := NodesOf(sorted);
    NodesOfMultiset(sorted, weighted.value);
    assert NodesOf(weighted.value) == eligible;
    forall w | w in sorted ensures Eligible(w.node, config) && w.weight == Weight(w.node, config, s) {
      assert w in multiset(weighted.value);
    }
    assert |sorted| == |multiset(weighted.value)|;
    r := Some(output);
  }

  lemma InRanking(out: seq<Node>, nodes: seq<Node>, config: Config, s: Strategy)
    requires Ranks(out, nodes, config, s)
    ensures forall n :: n in out <==> n in nodes && Eligible(n, config)
  {
    InEligibleNodes(nodes, config);
    assert forall n :: n in out <==> n in multiset(out);
    assert forall n :: n in EligibleNodes(nodes, config) <==> n in multiset(EligibleNodes(nodes, config));
  }

  const HEALTH_GAP := 21

  /** Health outweighs load: nobody stands before a node that is at least 21 points healthier. */
  lemma HealthierFirst(out: seq<Node>, nodes: seq<Node>, config: Config, s: Strategy, i: nat, j: nat)
    requires Ranks(out, nodes, config, s) && i < j < |out|
    requires forall n | n in nodes :: n.usedCpus >= 0 && n.usedMemory >= 0
    ensures out[j].health < out[i].health + HEALTH_GAP
  {
    InRanking(out, nodes, config, s);
    assert out[i] in nodes && out[j] in nodes;
    ScoresInRange(out[i], config);
    ScoresInRange(out[j], config);
    assert MayPrecede(Weighted(out[i], Weight(out[i], config, s)), Weighted(out[j], Weight(out[j], config, s)), s);
  }

  /** Of two nodes of one weight, spread puts the one with fewer containers first, and binpack the other one. */
  lemma FewerContainersFirst(out: seq<Node>, nodes: seq<Node>, config: Config, s: Strategy, i: nat, j: nat)
    requires Ranks(out, nodes, config, s) && i < j < |out| && Weight(out[i], config, s) == Weight(out[j], config, s)
    ensures if s.Spread? then |out[i].containers| <= |out[j].containers|
            else |out[i].containers| >= |out[j].containers|
  {
    assert MayPrecede(Weighted(out[i], Weight(out[i], config, s)), Weighted(out[j], Weight(out[j], config, s)), s);
  }

  /** `m` has given away no less than `n`, and of something that is asked for at least one percent more. */
  predicate Fuller(m: Node, n: Node, config: Config) {
    && m.usedCpus >= n.usedCpus && m.usedMemory >= n.usedMemory
    && (|| (config.cpuShares > 0 && (m.usedCpus - n.usedCpus) * 100 >= m.totalCpus)
        || (config.memory > 0 && (m.usedMemory - n.usedMemory) * 100 >= m.totalMemory))
  }

  /** Of two equally big and equally healthy nodes spread never puts the fuller one first, and binpack always does. */
  lemma FullerLast(out: seq<Node>, nodes: seq<Node>, config: Config, s: Strategy, i: nat, j: nat)
    requires Ranks(out, nodes, config, s) && i < j < |out|
    requires forall n | n in nodes :: n.usedCpus >= 0 && n.usedMemory >= 0
    requires out[i].totalCpus == out[j].totalCpus && out[i].totalMemory == out[j].totalMemory
    requires out[i].health == out[j].health
    ensures if s.Spread? then !Fuller(out[i], out[j], config) else !Fuller(out[j], out[i], config)
  {
    InRanking(out, nodes, config, s);
    assert out[i] in nodes && out[j] in nodes;
    assert MayPrecede(Weighted(out[i], Weight(out[i], config, s)), Weighted(out[j], Weight(out[j], config, s)), s);
    var m, n := if s.Spread? then out[i] else out[j], if s.Spread? then out[j] else out[i];
    if Fuller(m, n, config) {
      if config.cpuShares > 0 {
        ScoreGrows(n.usedCpus, m.usedCpus, config.cpuShares, m.totalCpus);
      }
      if config.memory > 0 {
        ScoreGrows(n.usedMemory, m.usedMemory, config.memory, m.totalMemory);
      }
    }
  }

  lemma ScoreGrows(used: int, more: int, request: int, total: int)
    requires 0 <= used <= more && 0 < request <= total
    ensures Quotient((used + request) * 100, total) <= Quotient((more + request) * 100, total)
    ensures (more - used) * 100 >= total ==>
              Quotient((used + request) * 100, total) < Quotient((more + request) * 100, total)
  {
    var x, y := (used + request) * 100, (more + request) * 100;
    QuotientAtMost(x, total, y / total);
    QuotientAtMost(y, total, y / total);
    if (more - used) * 100 >= total {
      QuotientAtMost(x, total, y / total - 1);
      assert y - total < y / total * total;
    }
  }

  lemma ScoresInRange(n: Node, config: Config)
    requires Eligible(n, config) && n.usedCpus >= 0 && n.usedMemory >= 0
    ensures 0 <= CpuScore(n, config) <= 100 && 0 <= MemoryScore(n, config) <= 100
  {
  }

  /** An idle node with `total` units of each resource. */
  function IdleNode(name: string, total: int, health: int): Node {
    Node(name, name, map[], [], [], 0, 0, total, total, health)
  }

  /** A gap of 20 points is not enough under either strategy: a big idle node and a small one that the request
      fills tie, so the less healthy one may stand first. */
  lemma TwentyPointsMayTie(config: Config, s: Strategy)
    requires config.cpuShares == 1 && config.memory == 1
    ensures var healthy := IdleNode("a", if s.Spread? then 1 else 1000, 100);
            var weaker := IdleNode("b", if s.Spread? then 1000 else 1, 80);
            Ranks([weaker, healthy], [healthy, weaker], config, s)
  {
    var healthy := IdleNode("a", if s.Spread? then 1 else 1000, 100);
    var weaker := IdleNode("b", if s.Spread? then 1000 else 1, 80);
    ScoreOfIdle(healthy, config);
    ScoreOfIdle(weaker, config);
    RanksTwo([weaker, healthy], [healthy, weaker], healthy, weaker, config, s);
  }

  /** Two nodes that tie may stand in any order. */
  lemma RanksTwo(out: seq<Node>, nodes: seq<Node>, a: Node, b: Node, config: Config, s: Strategy)
    requires out == [b, a] && nodes == [a, b] && Eligible(a, config) && Eligible(b, config)
    requires Weight(a, config, s) == Weight(b, config, s) && |a.containers| == |b.containers|
    ensures Ranks(out, nodes, config, s)
  {
    EligibleTwo(a, b, config);
    Swapped(a, b);
    forall i, j | 0 <= i < j < |out|
      ensures MayPrecede(Weighted(out[i], Weight(out[i], config, s)), Weighted(out[j], Weight(out[j], config, s)), s)
    {
      assert out[i] == b && out[j] == a;
    }
  }

  lemma Swapped(a: Node, b: Node)
    ensures multiset([b, a]) == multiset([a, b])
  {
    assert [b, a] == [b] + [a] && [a, b] == [a] + [b];
  }

  lemma EligibleTwo(a: Node, b: Node, config: Config)
    requires Eligible(a, config) && Eligible(b, config)
    ensures EligibleNodes([a, b], config) == [a, b]
  {
    var none: seq<Node>, one, two := [], [a], [a, b];
    assert two[..1] == one && one[..0] == none;
    assert EligibleNodes(none, config) == [];
    assert EligibleNodes(one, config) == EligibleNodes(none, config) + [a];
    assert EligibleNodes(two, config) == EligibleNodes(one, config) + [b];
  }

  lemma ScoreOfIdle(n: Node, config: Config)
    requires config.cpuShares == 1 && config.memory == 1 && n.usedCpus == 0 == n.usedMemory
    requires n.totalCpus == n.totalMemory && (n.totalCpus == 1 || n.totalCpus == 1000)
    ensures CpuScore(n, config) == MemoryScore(n, config) == if n.totalCpus == 1 then 100 else 0
  {
    assert 100 / 1000 == 0 && 100 / 1 == 100;
  }
}
