/** What the scan for a seizure leaves of the engines it reads. */
module SeizeScans {
  import opened Options
  import opened Arithmetic
  import opened Seize
  import opened SeizePlans

  // ---- The lists of a node ----

  /** The matches among these containers, and those that have to go, in order. */
  function UpsOf(cs: seq<Running>): seq<Chosen> {
    if cs == [] then [] else UpOf(cs[0]) + UpsOf(cs[1..])
  }

  function UpOf(c: Running): seq<Chosen> {
    if c.up then [Chosen(c.id, Create, c.priority, false)] else []
  }

  function DownsOf(cs: seq<Running>): seq<Chosen> {
    if cs == [] then [] else DownOf(cs[0]) + DownsOf(cs[1..])
  }

  function DownOf(c: Running): seq<Chosen> {
    if c.down then [Chosen(c.id, Discard, c.priority, false)] else []
  }

  lemma Associates(a: seq<Chosen>, b: seq<Chosen>, c: seq<Chosen>)
    ensures a + (b + c) == a + b + c
  {
  }

  lemma {:induction false} ListsSnoc(cs: seq<Running>, c: Running)
    ensures UpsOf(cs + [c]) == UpsOf(cs) + UpOf(c) && DownsOf(cs + [c]) == DownsOf(cs) + DownOf(c)
  {
    if cs == [] {
      assert [c][1..] == [] && cs + [c] == [c];
      assert UpsOf([c]) == UpOf(c) + UpsOf([c][1..]) && DownsOf([c]) == DownOf(c) + DownsOf([c][1..]);
    } else {
      ListsSnoc(cs[1..], c);
      assert (cs + [c])[1..] == cs[1..] + [c];
      Associates(UpOf(cs[0]), UpsOf(cs[1..]), UpOf(c));
      Associates(DownOf(cs[0]), DownsOf(cs[1..]), DownOf(c));
    }
  }

  lemma TakeLists(l: Look, c: Running)
    ensures var m := Take(l, c).node;
      && m.engine == l.node.engine
      && m.scaleUp == l.node.scaleUp + UpOf(c) && m.scaleDown == l.node.scaleDown + DownOf(c)
  {
    assert l.node.scaleUp + [] == l.node.scaleUp && l.node.scaleDown + [] == l.node.scaleDown;
  }

  /** A scanned node lists the matches on it and the containers that have to go, each in the order of the engine. */
  lemma {:induction false} ScanLists(l: Look, cs: seq<Running>)
    ensures var m := TakeAll(l, cs).node;
      && m.engine == l.node.engine
      && m.scaleUp == l.node.scaleUp + UpsOf(cs) && m.scaleDown == l.node.scaleDown + DownsOf(cs)
  {
    if cs != [] {
      var front, last := cs[..|cs| - 1], cs[|cs| - 1];
      ScanLists(l, front);
      TakeLists(TakeAll(l, front), last);
      ListsSnoc(front, last);
      Associates(l.node.scaleUp, UpsOf(front), UpOf(last));
      Associates(l.node.scaleDown, DownsOf(front), DownOf(last));
      assert cs == front + [last];
    }
  }

  // ---- Where a node goes ----

  /** Of the nodes that are not free those are passed over that run exactly one match, or as many as they have lots. */
  lemma {:induction false} PassedOverIff(l: Look, cs: seq<Running>)
    requires l.node == Fresh(l.node.engine) && forall c | c in cs :: c.lots == UNSET || c.lots > 0
    ensures var m := TakeAll(l, cs);
      && (UpMatches(cs) == 0 ==> m.node.alreadyHasFree == -1)
      && (0 < UpMatches(cs) < m.lots ==> m.node.alreadyHasFree >= 0)
      && (0 < UpMatches(cs) < m.lots ==> (m.node.alreadyHasFree == 0 <==> UpMatches(cs) == 1))
      && (UpMatches(cs) > 0 && UpMatches(cs) >= m.lots ==> m.node.alreadyHasFree == 0)
  {
    if cs != [] {
      var front, last := cs[..|cs| - 1], cs[|cs| - 1];
      assert cs == front + [last];
      PassedOverIff(l, front);
      FreeIff(l, front);
      LotsStay(l, front);
    }
  }

  lemma {:induction false} LotsStay(l: Look, cs: seq<Running>)
    requires forall c | c in cs :: c.lots == UNSET || c.lots > 0
    ensures l.lots != UNSET ==> TakeAll(l, cs).lots == l.lots
    ensures l.lots == UNSET ==> TakeAll(l, cs).lots == UNSET || TakeAll(l, cs).lots > 0
  {
    if cs != [] {
      assert cs[|cs| - 1] in cs && forall c | c in cs[..|cs| - 1] :: c in cs;
      LotsStay(l, cs[..|cs| - 1]);
    }
  }

  /** The matches on an engine with nothing behind the last one that has to go, and with room for more, or nothing that
      matters at all, make its node free. */
  ghost predicate GoesFree(e: Engine, lots: int) {
    Irrelevant(e.containers) || (EndsUp(e.containers) && UpMatches(e.containers) < lots)
  }

  /** Otherwise the node may be seized, unless the app runs there alone, or fills its lots. */
  ghost predicate GoesToPool(e: Engine, lots: int) {
    !GoesFree(e, lots) && UpMatches(e.containers) != 1
    && (UpMatches(e.containers) == 0 || UpMatches(e.containers) < lots)
  }

  /** An admitted engine becomes a free node, a node that may be seized, or neither; one that is not admitted is
      not looked at. */
  lemma EngineSorts(s: Survey, e: Engine)
    requires forall c | c in e.containers :: c.lots == UNSET || c.lots > 0
    ensures var t, n := Add(s, e), SeizeNode(e.name, UpsOf(e.containers), DownsOf(e.containers), true, false, 0);
      && (!e.admitted ==> t == s)
      && (e.admitted ==>
            && |t.free| == |s.free| + (if GoesFree(e, t.lots) then 1 else 0) && s.free <= t.free
            && |t.pool| == |s.pool| + (if GoesToPool(e, t.lots) then 1 else 0) && s.pool <= t.pool
            && (GoesFree(e, t.lots) ==> SameLists(t.free[|s.free|], n))
            && (GoesToPool(e, t.lots) ==> SameLists(t.pool[|s.pool|], n)))
  {
    var l := Look(Fresh(e.name), s.lots, s.priority, s.count);
    ScanLists(l, e.containers);
    FreeIff(l, e.containers);
    PassedOverIff(l, e.containers);
  }

  predicate SameLists(m: SeizeNode, n: SeizeNode) {
    m.engine == n.engine && m.scaleUp == n.scaleUp && m.scaleDown == n.scaleDown
  }

  // ---- What is stated first ----

  function MatchesIn(cs: seq<Running>): seq<Running> {
    if cs == [] then [] else MatchesIn(cs[..|cs| - 1]) + if cs[|cs| - 1].up then [cs[|cs| - 1]] else []
  }

  /** The matches on all admitted engines, in order. */
  function AllMatches(es: seq<Engine>): seq<Running> {
    if es == [] then []
    else AllMatches(es[..|es| - 1]) + if es[|es| - 1].admitted then MatchesIn(es[|es| - 1].containers) else []
  }

  function FirstLots(cs: seq<Running>): int {
    if cs == [] then -1 else if cs[0].lots != -1 then cs[0].lots else FirstLots(cs[1..])
  }

  function FirstPriority(cs: seq<Running>): int {
    if cs == [] then -1 else if cs[0].priority != -1 then cs[0].priority else FirstPriority(cs[1..])
  }

  lemma {:induction false} FirstConcat(cs: seq<Running>, ds: seq<Running>)
    ensures FirstLots(cs + ds) == if FirstLots(cs) != -1 then FirstLots(cs) else FirstLots(ds)
    ensures FirstPriority(cs + ds) == if FirstPriority(cs) != -1 then FirstPriority(cs) else FirstPriority(ds)
  {
    if cs == [] {
      assert cs + ds == ds;
    } else {
      FirstConcat(cs[1..], ds);
      assert (cs + ds)[1..] == cs[1..] + ds;
    }
  }

  lemma FirstOne(c: Running)
    ensures FirstLots([c]) == c.lots && FirstPriority([c]) == c.priority
  {
    assert [c][1..] == [];
    assert FirstLots([c][1..]) == FirstPriority([c][1..]) == -1;
  }

  lemma {:induction false} TakeAllStates(l: Look, cs: seq<Running>, before: seq<Running>)
    requires l.lots == FirstLots(before) && l.priority == FirstPriority(before)
    ensures var m, all := TakeAll(l, cs), before + MatchesIn(cs);
      m.lots == FirstLots(all) && m.priority == FirstPriority(all)
  {
    if cs == [] {
      assert before + [] == before;
    } else {
      var front, last := cs[..|cs| - 1], cs[|cs| - 1];
      TakeAllStates(l, front, before);
      if last.up {
        FirstConcat(before + MatchesIn(front), [last]);
        FirstOne(last);
        assert before + MatchesIn(front) + [last] == before + MatchesIn(cs);
      } else {
        assert MatchesIn(front) + [] == MatchesIn(front);
      }
    }
  }

  /** The lots and the priority of the app are those that a match states first; without any, a node has one lot. */
  lemma {:induction false} SurveyStates(es: seq<Engine>)
    ensures var s, all := SurveyOf(es), AllMatches(es);
      && s.lots == FirstLots(all) && s.priority == FirstPriority(all)
      && LotsOf(s) == if FirstLots(all) == -1 then 1 else FirstLots(all)
  {
    if es != [] {
      var front, last := es[..|es| - 1], es[|es| - 1];
      SurveyStates(front);
      var s := SurveyOf(front);
      if last.admitted {
        TakeAllStates(Look(Fresh(last.name), s.lots, s.priority, s.count), last.containers, AllMatches(front));
      } else {
        assert AllMatches(front) + [] == AllMatches(front);
      }
    }
  }

  lemma {:induction false} FirstUpIs(known: Option<Chosen>, cs: seq<Running>)
    ensures FirstUp(known, cs) == if known.Some? || MatchesIn(cs) == [] then known
                                  else Some(Chosen(MatchesIn(cs)[0].id, Create, MatchesIn(cs)[0].priority, false))
  {
    if cs != [] {
      FirstUpIs(known, cs[..|cs| - 1]);
    }
  }

  /** What is copied is the first match on the admitted engines. */
  lemma {:induction false} TemplateIsFirst(es: seq<Engine>)
    ensures TemplateOf(es) == if AllMatches(es) == [] then None
                              else Some(Chosen(AllMatches(es)[0].id, Create, AllMatches(es)[0].priority, false))
  {
    if es != [] {
      TemplateIsFirst(es[..|es| - 1]);
      FirstUpIs(TemplateOf(es[..|es| - 1]), es[|es| - 1].containers);
    }
  }

  // ---- The order of the tasks ----

  lemma {:induction false} EmitPoolConcat(a: seq<SeizeNode>, b: seq<SeizeNode>)
    ensures EmitPool(a + b) == EmitPool(a) + EmitPool(b)
  {
    if a == [] {
      assert a + b == b;
    } else {
      EmitPoolConcat(a[1..], b);
      assert (a + b)[1..] == a[1..] + b;
      Associates(a[0].scaleDown + a[0].scaleUp, EmitPool(a[1..]), EmitPool(b));
    }
  }

  /** On each node that is seized nothing is created before what has to go. */
  lemma RemovesFirst(pool: seq<SeizeNode>, i: nat)
    requires i < |pool|
    ensures EmitPool(pool) == EmitPool(pool[..i]) + (pool[i].scaleDown + pool[i].scaleUp + EmitPool(pool[i + 1..]))
  {
    var rest := pool[i..];
    assert pool == pool[..i] + rest && rest[0] == pool[i] && rest[1..] == pool[i + 1..];
    EmitPoolConcat(pool[..i], rest);
  }

  function Concat(nodes: seq<SeizeNode>): seq<Chosen> {
    if nodes == [] then [] else nodes[0].scaleUp + Concat(nodes[1..])
  }

  /** The free nodes come first, one after the other, until more is sent than is asked for. */
  lemma {:induction false} FreeFirst(free: seq<SeizeNode>, sent: nat, number: nat) returns (j: nat)
    ensures j <= |free| && EmitFree(free, sent, number) == Concat(free[..j])
    ensures forall i | 0 <= i < j :: sent + Ups(free[..i]) <= number
    ensures j < |free| ==> sent + Ups(free[..j]) > number
    ensures Sated(free, sent, number) <==> j < |free|
  {
    if free == [] || sent > number {
      j := 0;
      assert free[..0] == [];
    } else {
      var k := FreeFirst(free[1..], sent + |free[0].scaleUp|, number);
      j := k + 1;
      assert free[..j][1..] == free[1..][..k];
      forall i | 1 <= i <= j ensures Ups(free[..i]) == |free[0].scaleUp| + Ups(free[1..][..i - 1]) {
        assert free[..i][1..] == free[1..][..i - 1];
      }
      assert free[..0] == [];
    }
  }

  /** A plan is the tasks of the free nodes, until they sate it, and unless they do those of the nodes kept. */
  lemma PlanIs(es: seq<Engine>, number: nat) returns (j: nat)
    requires Stated(es)
    ensures var s := SurveyOf(es);
      && Fit(s)
      && var filled := Filled(s.free, s.pool, s.count, number, LotsOf(s), s.priority);
      && var kept := Kept(s.free, s.pool, s.count, number, LotsOf(s), s.priority);
      && j <= |filled|
      && Plan(es, number) == Concat(filled[..j]) + if j < |filled| then [] else EmitPool(kept)
  {
    SurveyFit(es);
    var s := SurveyOf(es);
    j := FreeFirst(Filled(s.free, s.pool, s.count, number, LotsOf(s), s.priority), 0, number);
  }

  // ---- Where copies go ----

  /** The copies on a node are bound to its engine. */
  ghost predicate Bound(n: SeizeNode) {
    forall c | c in n.scaleUp && c.added :: c.id == n.engine && c.taskType.Create?
  }

  lemma WorkedBound(n: SeizeNode, count: nat, number: nat, lots: int)
    requires Bound(n)
    ensures Bound(Worked(n, count, number, lots)) && Worked(n, count, number, lots).engine == n.engine
  {
  }

  lemma {:induction false} WorkAllBound(free: seq<SeizeNode>, count: nat, number: nat, lots: int)
    requires forall n | n in free :: Bound(n)
    ensures forall n | n in WorkAll(free, count, number, lots) :: Bound(n)
  {
    if free != [] {
      assert free[0] in free && forall n | n in free[1..] :: n in free;
      WorkedBound(free[0], count, number, lots);
      WorkAllBound(free[1..], count + Room(|free[0].scaleUp|, count, number, lots), number, lots);
    }
  }

  lemma {:induction false} VisitBound(pool: seq<SeizeNode>, count: nat, number: nat, lots: int, priority: int)
    requires forall n | n in pool :: Bound(n)
    ensures forall n | n in Visit(pool, count, number, lots, priority).nodes :: Bound(n)
  {
    if pool != [] {
      assert pool[0] in pool && forall n | n in pool[1..] :: n in pool;
      WorkedBound(pool[0], count, number, lots);
      VisitBound(pool[1..], Now(pool[0], count, number, lots, priority), number, lots, priority);
    }
  }

  lemma {:induction false} NoneAdded(cs: seq<Chosen>)
    requires AddedIn(cs) == 0
    ensures forall c | c in cs :: !c.added
  {
    if cs != [] {
      NoneAdded(cs[1..]);
      assert cs == [cs[0]] + cs[1..];
    }
  }

  lemma SmallBound(nodes: seq<SeizeNode>, count: nat)
    requires Small(nodes, count)
    ensures forall n | n in nodes :: Bound(n)
  {
    forall n | n in nodes ensures Bound(n) {
      assert Seen(n);
      NoneAdded(n.scaleUp);
    }
  }

  lemma {:induction false} InConcat(nodes: seq<SeizeNode>, c: Chosen)
    ensures c in Concat(nodes) ==> exists n :: n in nodes && c in n.scaleUp
  {
    if nodes != [] {
      InConcat(nodes[1..], c);
      assert nodes == [nodes[0]] + nodes[1..];
    }
  }

  /** Every copy in a plan is bound to the engine of a node that was filled or kept. */
  lemma CopiesBound(es: seq<Engine>, number: nat, c: Chosen)
    requires Stated(es) && c in Plan(es, number) && c.added
    ensures var s := SurveyOf(es);
      && Fit(s)
      && exists n ::
        && (n in Filled(s.free, s.pool, s.count, number, LotsOf(s), s.priority)
            || n in Kept(s.free, s.pool, s.count, number, LotsOf(s), s.priority))
        && c in n.scaleUp && c.id == n.engine
  {
    var j := PlanIs(es, number);
    SurveyFit(es);
    var s := SurveyOf(es);
    var lots, t := LotsOf(s), TourOf(s.free, s.pool, s.count, number, LotsOf(s), s.priority);
    var filled := Filled(s.free, s.pool, s.count, number, lots, s.priority);
    var kept := Kept(s.free, s.pool, s.count, number, lots, s.priority);
    SmallBound(s.free, s.count);
    SmallBound(s.pool, s.count);
    WorkAllBound(s.free, t.count, number, lots);
    VisitBound(Candidates(s.free, s.pool, number, lots), s.count, number, lots, s.priority);
    InConcat(filled[..j], c);
    if n :| n in filled[..j] && c in n.scaleUp {
      assert n in filled && Bound(n);
    } else {
      EmitPoolMembers(kept, c);
      KeptSorted(s, number);
      var n :| n in kept && (c in n.scaleDown || c in n.scaleUp);
      assert Kinded(n) && n in t.nodes && Bound(n);
    }
  }
}
