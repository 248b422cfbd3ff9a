/** Selection of nodes for a container: a pass with the soft expressions, then one without. */
module Schedulers {
  import opened Options
  import opened Containers
  import opened Nodes
  import opened Filters
  import opened Strategy
  import opened EngineHealth

  datatype Scheduler = Scheduler(strategy: Strategy, filters: seq<Filter>)

  /** `n` passes all filters and has room for the container. */
  ghost predicate Suits(s: Scheduler, n: Node, config: Config, soft: bool) {
    MeetsAll(n, AllDemands(s.filters, config, soft)) && Eligible(n, config)
  }

  /** Some node can be found in a pass. */
  ghost predicate Feasible(s: Scheduler, nodes: seq<Node>, config: Config, soft: bool) {
    AllParse(s.filters, config) && exists n :: n in nodes && Suits(s, n, config, soft)
  }

  ghost predicate Selected(out: seq<Node>, s: Scheduler, nodes: seq<Node>, config: Config, soft: bool) {
    && out != []
    && Ranks(out, Keep(nodes, AllDemands(s.filters, config, soft)), config, s.strategy)
    && forall n :: n in out <==> n in nodes && Suits(s, n, config, soft)
  }

  /** No suitable node of the list stands before `n`, by strategy and weight, in the pass that counts: the one with the
      soft expressions when some node suits in it, and else the hard one. */
  ghost predicate Best(s: Scheduler, nodes: seq<Node>, config: Config, n: Node) {
    var soft := Feasible(s, nodes, config, true);
    && n in nodes && Suits(s, n, config, soft)
    && forall m | m in nodes && Suits(s, m, config, soft) ::
      MayPrecede(Weighted(n, Weight(n, config, s.strategy)), Weighted(m, Weight(m, config, s.strategy)), s.strategy)
  }

  lemma FirstIsBest(out: seq<Node>, s: Scheduler, nodes: seq<Node>, config: Config)
    requires Selected(out, s, nodes, config, Feasible(s, nodes, config, true))
    ensures Best(s, nodes, config, out[0])
  {
    var soft := Feasible(s, nodes, config, true);
    assert out[0] in out;
    forall m | m in nodes && Suits(s, m, config, soft)
      ensures MayPrecede(Weighted(out[0], Weight(out[0], config, s.strategy)),
                         Weighted(m, Weight(m, config, s.strategy)), s.strategy)
    {
      assert m in out;
      var i :| 0 <= i < |out| && out[i] == m;
    }
  }

  /** Why no node of a list is selected: the first filter that leaves none, and else a lack of resources. */
  ghost predicate Explains(why: Refusal, s: Scheduler, nodes: seq<Node>, config: Config, soft: bool) {
    if Passable(s.filters, config, nodes, soft) then why == NoResources
    else exists i ::
      && 0 <= i < |s.filters| && Passable(s.filters[..i], config, nodes, soft)
      && !Passable(s.filters[..i + 1], config, nodes, soft)
      && why == if s.filters[i].Health? then NoHealthyNode else NoMatchingNode
  }

  method SelectPass(s: Scheduler, nodes: seq<Node>, config: Config, soft: bool) returns (r: Outcome)
    ensures r.Accepted? <==> Feasible(s, nodes, config, soft)
    ensures r.Accepted? ==> Selected(r.nodes, s, nodes, config, soft)
    ensures r == Refused(NoResources) <==>
            && Passable(s.filters, config, nodes, soft)
            && !Feasible(s, nodes, config, soft)
    ensures r.Refused? && nodes != [] ==> Explains(r.why, s, nodes, config, soft)
  {
    var accepted := ApplyFilters(s.filters, config, nodes, soft);
    ghost var kept := Keep(nodes, AllDemands(s.filters, config, soft));
    InKeep(nodes, AllDemands(s.filters, config, soft));
    if nodes != [] && kept != [] {
      assert kept[0] in kept;
    }
    if accepted.Refused? {
      assert !Feasible(s, nodes, config, soft);
      return accepted;
    }
    if accepted.nodes == [] {
      return Refused(NoNodeAvailable);
    }
    var ranked := RankAndSort(s.strategy, config, accepted.nodes);
    if ranked.None? {
      return Refused(NoResources);
    }
    InRanking(ranked.value, accepted.nodes, config, s.strategy);
    assert ranked.value[0] in ranked.value;
    r := Accepted(ranked.value);
  }

  lemma FeasibleHard(s: Scheduler, nodes: seq<Node>, config: Config)
    requires Feasible(s, nodes, config, true)
    ensures Feasible(s, nodes, config, false)
  {
    var n :| n in nodes && Suits(s, n, config, true);
    HardIsWeaker(s.filters, config);
    assert Suits(s, n, config, false);
  }

  /** Soft expressions never decide whether a container can be placed: selection succeeds exactly when
      the hard pass alone would. All returned nodes meet the hard demands, ranked by the strategy; if
      some node with room meets the soft ones as well, then all returned nodes do. */
  method SelectNodesForContainer(s: Scheduler, nodes: seq<Node>, config: Config) returns (r: Outcome)
    ensures r.Accepted? <==> Feasible(s, nodes, config, false)
    ensures r.Accepted? ==> forall n | n in r.nodes :: n in nodes && Suits(s, n, config, false)
    ensures r.Accepted? ==> Selected(r.nodes, s, nodes, config, Feasible(s, nodes, config, true))
    ensures r.Refused? && nodes != [] ==> Explains(r.why, s, nodes, config, false)
  {
    r := SelectPass(s, nodes, config, true);
    if r.Refused? {
      r := SelectPass(s, nodes, config, false);
    } else {
      FeasibleHard(s, nodes, config);
      HardIsWeaker(s.filters, config);
    }
  }

  /** With at most four retries, no eligible engine that failed more often stands before one that failed less. */
  lemma FewerFailuresFirst(out: seq<Node>, nodes: seq<Node>, config: Config, s: Strategy,
                           i: nat, j: nat, g: Health, h: Health, retry: int)
    requires Ranks(out, nodes, config, s) && i < j < |out|
    requires forall n | n in nodes :: n.usedCpus >= 0 && n.usedMemory >= 0
    requires 1 <= retry <= 4 && Consistent(g, retry) && Consistent(h, retry) && g.state.Healthy? && h.state.Healthy?
    requires out[i].health == Indicator(g, retry) && out[j].health == Indicator(h, retry)
    ensures g.failureCount <= h.failureCount
  {
    HealthierFirst(out, nodes, config, s, i, j);
    if h.failureCount < g.failureCount {
      FewerFailuresHealthier(h, g, retry);
    }
  }
}
