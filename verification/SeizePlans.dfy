/** What a plan that seizes nodes comes to, for every list of engines: what its tasks remove and what they create. */
module SeizePlans {
  import opened Arithmetic
  import opened Seize

  // ---- Where the tour ends ----

  /** The space on the first j nodes that may be seized. */
  ghost function SpaceBefore(pool: seq<SeizeNode>, j: nat, lots: int, priority: int): nat
    requires j <= |pool|
  {
    SeizableSpace(pool[..j], lots, priority)
  }

  /** The tour over these nodes ends behind the first of them, counted from one, at which the nodes so far have space
      for what is missing, or behind the last one. */
  ghost predicate IsStop(pool: seq<SeizeNode>, missing: int, lots: int, priority: int, k: nat) {
    && k <= |pool| && (pool != [] ==> k >= 1)
    && (forall j | 1 <= j < k :: SpaceBefore(pool, j, lots, priority) < missing)
    && (k < |pool| ==> SpaceBefore(pool, k, lots, priority) >= missing)
  }

  lemma StopUnique(pool: seq<SeizeNode>, missing: int, lots: int, priority: int, k: nat, m: nat)
    requires IsStop(pool, missing, lots, priority, k) && IsStop(pool, missing, lots, priority, m)
    ensures k == m
  {
  }

  lemma SpaceCons(pool: seq<SeizeNode>, j: nat, lots: int, priority: int)
    requires pool != [] && 1 <= j <= |pool|
    ensures SpaceBefore(pool, j, lots, priority)
            == (if Blocked(pool[0], priority) then 0 else Space(pool[0], lots))
               + SpaceBefore(pool[1..], j - 1, lots, priority)
  {
    var first, rest := pool[..j], pool[1..][..j - 1];
    assert first[0] == pool[0] && first[1..] == rest;
    FirstSpaceMore(rest, j, j - 1, lots, priority);
  }

  lemma UnblockedCons(pool: seq<SeizeNode>, j: nat, priority: int)
    requires pool != [] && 1 <= j <= |pool|
    ensures Unblocked(pool[..j], priority)
            == Unblocked(pool[1..][..j - 1], priority) + if Blocked(pool[0], priority) then 0 else 1
  {
    assert pool[..j][0] == pool[0] && pool[..j][1..] == pool[1..][..j - 1];
  }

  lemma StopCons(pool: seq<SeizeNode>, missing: int, lots: int, priority: int, k: nat)
    requires pool != [] && k <= |pool[1..]|
    requires var here := if Blocked(pool[0], priority) then 0 else Space(pool[0], lots);
             here < missing && IsStop(pool[1..], missing - here, lots, priority, k)
    ensures IsStop(pool, missing, lots, priority, k + 1)
  {
    forall j | 1 <= j <= k + 1
      ensures SpaceBefore(pool, j, lots, priority)
              == (if Blocked(pool[0], priority) then 0 else Space(pool[0], lots))
                 + SpaceBefore(pool[1..], j - 1, lots, priority)
    {
      SpaceCons(pool, j, lots, priority);
    }
    assert pool[1..][..0] == [];
  }

  /** So does the tour that the code makes; it refuses the blocked ones among the nodes that it visits. */
  lemma {:induction false} VisitStops(pool: seq<SeizeNode>, count: nat, number: nat, lots: int, priority: int)
    ensures var t := Visit(pool, count, number, lots, priority);
      && IsStop(pool, number - count, lots, priority, t.visited)
      && t.refused == t.visited - Unblocked(pool[..t.visited], priority)
  {
    if pool != [] {
      var rest, now := pool[1..], Now(pool[0], count, number, lots, priority);
      var t := Visit(pool, count, number, lots, priority);
      if now >= number {
        SpaceCons(pool, 1, lots, priority);
        UnblockedCons(pool, 1, priority);
        assert rest[..0] == [];
      } else {
        VisitStops(rest, now, number, lots, priority);
        StopCons(pool, number - count, lots, priority, t.visited - 1);
        UnblockedCons(pool, t.visited, priority);
      }
    }
  }

  /** The free nodes have lots for all that is asked for, so that no node is seized. */
  predicate Suffices(s: Survey, number: nat) {
    |s.free| * LotsOf(s) >= number
  }

  ghost predicate EndsAt(s: Survey, number: nat, k: nat) {
    IsStop(s.pool, number - s.count, LotsOf(s), s.priority, k)
  }

  /** How many nodes stay on the list when the tour ends behind the k-th. */
  ghost function Edge(s: Survey, number: nat, k: nat): nat
    requires Fit(s) && k <= |s.pool|
  {
    Min(|s.pool|, Needed(s.free, number, LotsOf(s)) + k - Unblocked(s.pool[..k], s.priority))
  }

  /** There is one such k for every list of engines. */
  lemma StopExists(es: seq<Engine>, number: nat) returns (k: nat)
    ensures EndsAt(SurveyOf(es), number, k)
    ensures forall m | EndsAt(SurveyOf(es), number, m) :: m == k
  {
    var s := SurveyOf(es);
    VisitStops(s.pool, s.count, number, LotsOf(s), s.priority);
    k := Visit(s.pool, s.count, number, LotsOf(s), s.priority).visited;
    forall m | EndsAt(s, number, m) ensures m == k {
      StopUnique(s.pool, number - s.count, LotsOf(s), s.priority, k, m);
    }
  }

  lemma TourEnds(s: Survey, number: nat, k: nat)
    requires Fit(s) && !Suffices(s, number) && EndsAt(s, number, k)
    ensures TourOf(s.free, s.pool, s.count, number, LotsOf(s), s.priority).visited == k
    ensures |Kept(s.free, s.pool, s.count, number, LotsOf(s), s.priority)| == Edge(s, number, k)
  {
    VisitStops(s.pool, s.count, number, LotsOf(s), s.priority);
    StopUnique(s.pool, number - s.count, LotsOf(s), s.priority, k,
               Visit(s.pool, s.count, number, LotsOf(s), s.priority).visited);
  }

  // ---- What is removed ----

  lemma {:induction false} TakeAllFree(l: Look, cs: seq<Running>)
    requires l.node.isFree ==> Open(l.node, l.lots)
    ensures var m := TakeAll(l, cs);
      && (m.node.isFree ==> Open(m.node, m.lots)) && (l.lots != UNSET ==> m.lots == l.lots)
  {
    if cs != [] {
      TakeAllFree(l, cs[..|cs| - 1]);
    }
  }

  /** A free node has space for more. */
  lemma {:induction false} SurveyFree(es: seq<Engine>)
    ensures AllOpen(SurveyOf(es).free, SurveyOf(es).lots)
  {
    if es != [] {
      var s, last := SurveyOf(es[..|es| - 1]), es[|es| - 1];
      SurveyFree(es[..|es| - 1]);
      TakeAllFree(Look(Fresh(last.name), s.lots, s.priority, s.count), last.containers);
      OpenStill(s.free, s.lots, LookAt(s, last));
    }
  }

  lemma {:induction false} UpsAtMost(nodes: seq<SeizeNode>, lots: nat)
    requires forall i | 0 <= i < |nodes| :: |nodes[i].scaleUp| <= lots
    ensures Ups(nodes) <= |nodes| * lots
  {
    if nodes != [] {
      UpsAtMost(nodes[1..], lots);
      OneMore(|nodes[1..]|, lots);
    }
  }

  /** So the free nodes alone never sate a plan that needs others. */
  lemma NeverSated(es: seq<Engine>, number: nat)
    requires Stated(es) && !Suffices(SurveyOf(es), number)
    ensures var s := SurveyOf(es);
      !Sated(Filled(s.free, s.pool, s.count, number, LotsOf(s), s.priority), 0, number)
  {
    SurveyFit(es);
    SurveyFree(es);
    var s := SurveyOf(es);
    var filled := Filled(s.free, s.pool, s.count, number, LotsOf(s), s.priority);
    PlanFills(s.free, s.pool, s.count, number, LotsOf(s), s.priority);
    forall i | 0 <= i < |filled| ensures |filled[i].scaleUp| <= LotsOf(s) {
      assert Open(s.free[i], s.lots);
    }
    UpsAtMost(filled, LotsOf(s));
    SatedBeyond(filled, 0, number);
  }

  /** For every list of engines: only containers of strictly lower priority are removed exactly when the free nodes
      suffice, or no node behind the end of the tour that stays on the list would have been refused. */
  lemma SeizesOnlyLowerIff(es: seq<Engine>, number: nat, k: nat)
    requires Stated(es) && EndsAt(SurveyOf(es), number, k)
    ensures var s := SurveyOf(es);
      && Fit(s)
      && ((forall c | c in Plan(es, number) && c.taskType.Discard? :: c.priority > s.priority) <==>
          Suffices(s, number) || forall i | k <= i < Edge(s, number, k) :: !Blocked(s.pool[i], s.priority))
  {
    SurveyFit(es);
    var s := SurveyOf(es);
    FitScanned(s);
    if Suffices(s, number) {
      FreeNodesSuffice(s.free, s.pool, s.count, number, LotsOf(s), s.priority);
    } else {
      NeverSated(es, number);
      TourEnds(s, number, k);
      ScannedOnlyLowerIff(s.free, s.pool, s.count, number, LotsOf(s), s.priority);
    }
  }

  // ---- How much is removed ----

  function DiscardTasks(cs: seq<Chosen>): nat {
    if cs == [] then 0 else (if cs[0].taskType.Discard? then 1 else 0) + DiscardTasks(cs[1..])
  }

  function Downs(nodes: seq<SeizeNode>): nat {
    if nodes == [] then 0 else |nodes[0].scaleDown| + Downs(nodes[1..])
  }

  /** How many of the nodes have something that has to go. */
  function Emptied(nodes: seq<SeizeNode>): nat {
    if nodes == [] then 0 else (if nodes[0].scaleDown != [] then 1 else 0) + Emptied(nodes[1..])
  }

  lemma {:induction false} DiscardsConcat(cs: seq<Chosen>, ds: seq<Chosen>)
    ensures DiscardTasks(cs + ds) == DiscardTasks(cs) + DiscardTasks(ds)
  {
    if cs == [] {
      assert cs + ds == ds;
    } else {
      DiscardsConcat(cs[1..], ds);
      assert (cs + ds)[1..] == cs[1..] + ds;
    }
  }

  lemma {:induction false} DiscardsOf(cs: seq<Chosen>)
    ensures (forall c | c in cs :: c.taskType.Create?) ==> DiscardTasks(cs) == 0
    ensures (forall c | c in cs :: c.taskType.Discard?) ==> DiscardTasks(cs) == |cs|
  {
    if cs != [] {
      assert cs[0] in cs && forall c | c in cs[1..] :: c in cs;
      DiscardsOf(cs[1..]);
    }
  }

  lemma {:induction false} EmitPoolDiscards(pool: seq<SeizeNode>)
    requires Sorted(pool)
    ensures DiscardTasks(EmitPool(pool)) == Downs(pool)
  {
    if pool != [] {
      var n, rest := pool[0], EmitPool(pool[1..]);
      assert n in pool && forall m | m in pool[1..] :: m in pool;
      EmitPoolDiscards(pool[1..]);
      DiscardsConcat(n.scaleDown + n.scaleUp, rest);
      DiscardsConcat(n.scaleDown, n.scaleUp);
      DiscardsOf(n.scaleDown);
      DiscardsOf(n.scaleUp);
    }
  }

  lemma {:induction false} EmitFreeDiscards(free: seq<SeizeNode>, sent: nat, number: nat)
    requires Sorted(free)
    ensures DiscardTasks(EmitFree(free, sent, number)) == 0
  {
    if free != [] && sent <= number {
      var more := sent + |free[0].scaleUp|;
      assert free[0] in free && forall n | n in free[1..] :: n in free;
      EmitFreeDiscards(free[1..], more, number);
      DiscardsConcat(free[0].scaleUp, EmitFree(free[1..], more, number));
      DiscardsOf(free[0].scaleUp);
    }
  }

  /** When the free nodes do not suffice, everything that has to go goes from the nodes that stay on the list. */
  lemma PlanDiscards(es: seq<Engine>, number: nat)
    requires Stated(es) && !Suffices(SurveyOf(es), number)
    ensures var s := SurveyOf(es);
      Fit(s) && DiscardTasks(Plan(es, number))
                == Downs(Kept(s.free, s.pool, s.count, number, LotsOf(s), s.priority))
  {
    SurveyFit(es);
    NeverSated(es, number);
    var s := SurveyOf(es);
    var filled := Filled(s.free, s.pool, s.count, number, LotsOf(s), s.priority);
    var kept := Kept(s.free, s.pool, s.count, number, LotsOf(s), s.priority);
    KeptSorted(s, number);
    EmitFreeDiscards(filled, 0, number);
    EmitPoolDiscards(kept);
    DiscardsConcat(EmitFree(filled, 0, number), EmitPool(kept));
  }

  lemma {:induction false} TakeAllDowns(l: Look, cs: seq<Running>)
    requires l.node.isFree || l.node.alreadyHasFree == 0 || l.node.scaleDown != []
    ensures var m := TakeAll(l, cs); m.node.isFree || m.node.alreadyHasFree == 0 || m.node.scaleDown != []
  {
    if cs != [] {
      TakeAllDowns(l, cs[..|cs| - 1]);
    }
  }

  /** Every node that may be seized holds something that has to go. */
  lemma {:induction false} SurveyDowns(es: seq<Engine>)
    ensures forall n | n in SurveyOf(es).pool :: n.scaleDown != []
  {
    if es != [] {
      var s, last := SurveyOf(es[..|es| - 1]), es[|es| - 1];
      SurveyDowns(es[..|es| - 1]);
      TakeAllDowns(Look(Fresh(last.name), s.lots, s.priority, s.count), last.containers);
    }
  }

  lemma {:induction false} EmptiedIs(kept: seq<SeizeNode>, pool: seq<SeizeNode>, k: int, priority: int)
    requires |kept| <= |pool|
    requires forall i | 0 <= i < |kept| :: kept[i].scaleDown == [] <==> i < k && Blocked(pool[i], priority)
    ensures var seen := Max(0, Min(k, |kept|)); Emptied(kept) == |kept| - (seen - Unblocked(pool[..seen], priority))
  {
    if kept != [] {
      EmptiedIs(kept[1..], pool[1..], k - 1, priority);
      if k >= 1 {
        UnblockedCons(pool, Min(k, |kept|), priority);
      }
    }
  }

  lemma KeptDowns(s: Survey, number: nat, k: nat, i: nat)
    requires Fit(s) && !Suffices(s, number) && EndsAt(s, number, k) && i < Edge(s, number, k)
    requires forall n | n in s.pool :: n.scaleDown != []
    ensures var kept := Kept(s.free, s.pool, s.count, number, LotsOf(s), s.priority);
      && |kept| == Edge(s, number, k)
      && kept[i].scaleDown == (if i < k && Blocked(s.pool[i], s.priority) then [] else s.pool[i].scaleDown)
      && (kept[i].scaleDown == [] <==> i < k && Blocked(s.pool[i], s.priority))
  {
    TourEnds(s, number, k);
    VisitLeaves(s.pool, s.count, number, LotsOf(s), s.priority);
    assert s.pool[i] in s.pool;
    if i < k {
      VisitedAreSafe(s.pool, s.count, number, LotsOf(s), s.priority, i);
    }
  }

  lemma {:induction false} UnblockedSplit(pool: seq<SeizeNode>, i: nat, k: nat, priority: int)
    requires i <= k <= |pool|
    ensures Unblocked(pool[..k], priority) - Unblocked(pool[..i], priority) <= k - i
    ensures Unblocked(pool[..k], priority) - Unblocked(pool[..i], priority) == k - i
            <==> forall h | i <= h < k :: !Blocked(pool[h], priority)
    decreases k
  {
    if i > 0 {
      UnblockedSplit(pool[1..], i - 1, k - 1, priority);
      UnblockedCons(pool, i, priority);
      UnblockedCons(pool, k, priority);
      assert forall h | i <= h < k :: pool[h] == pool[1..][h - 1];
      assert forall h | i - 1 <= h < k - 1 :: pool[1..][h] == pool[h + 1];
    } else if k > 0 {
      UnblockedSplit(pool[1..], 0, k - 1, priority);
      UnblockedCons(pool, k, priority);
      assert pool[1..][..0] == [] == pool[..0];
      assert forall h | 1 <= h < k :: pool[h] == pool[1..][h - 1];
      assert forall h | 0 <= h < k - 1 :: pool[1..][h] == pool[h + 1];
    }
  }

  lemma BehindCut(pool: seq<SeizeNode>, k: nat, m: nat, edge: nat, priority: int)
    requires k <= |pool| && edge == Min(|pool|, m + k - Unblocked(pool[..k], priority))
    ensures var seen := Min(k, edge);
      edge - (seen - Unblocked(pool[..seen], priority)) <= m
      <==> forall i | edge <= i < k :: !Blocked(pool[i], priority)
  {
    if edge < k {
      UnblockedSplit(pool, edge, k, priority);
    }
  }

  lemma KeptEmptied(s: Survey, number: nat, k: nat)
    requires Fit(s) && EndsAt(s, number, k) && !Suffices(s, number) && forall n | n in s.pool :: n.scaleDown != []
    ensures var seen := Min(k, Edge(s, number, k));
      Emptied(Kept(s.free, s.pool, s.count, number, LotsOf(s), s.priority))
      == Edge(s, number, k) - (seen - Unblocked(s.pool[..seen], s.priority))
  {
    var kept := Kept(s.free, s.pool, s.count, number, LotsOf(s), s.priority);
    TourEnds(s, number, k);
    forall i | 0 <= i < |kept| ensures kept[i].scaleDown == [] <==> i < k && Blocked(s.pool[i], s.priority) {
      KeptDowns(s, number, k, i);
    }
    EmptiedIs(kept, s.pool, k, s.priority);
  }

  /** Let m be the least number of nodes that, beside the free ones, have lots for all that is asked for. The list is
      cut behind as many nodes as m and the refused ones, and of these all that were not refused are emptied. That is
      no more than m nodes exactly when no node that was refused lies behind the cut. */
  lemma EmptiesNeededIff(es: seq<Engine>, number: nat, k: nat, m: nat)
    requires Stated(es) && EndsAt(SurveyOf(es), number, k) && !Suffices(SurveyOf(es), number)
    requires IsLeast(|SurveyOf(es).free|, number, LotsOf(SurveyOf(es)), m)
    ensures var s := SurveyOf(es);
      && Fit(s)
      && Edge(s, number, k) == Min(|s.pool|, m + k - Unblocked(s.pool[..k], s.priority))
      && var emptied := Emptied(Kept(s.free, s.pool, s.count, number, LotsOf(s), s.priority));
      && var seen := Min(k, Edge(s, number, k));
      && emptied == Edge(s, number, k) - (seen - Unblocked(s.pool[..seen], s.priority))
      && (emptied <= m <==> forall i | Edge(s, number, k) <= i < k :: !Blocked(s.pool[i], s.priority))
  {
    SurveyFit(es);
    SurveyDowns(es);
    var s := SurveyOf(es);
    NeededIsLeast(s.free, number, LotsOf(s));
    LeastUnique(|s.free|, number, LotsOf(s), m, Needed(s.free, number, LotsOf(s)));
    KeptEmptied(s, number, k);
    BehindCut(s.pool, k, m, Edge(s, number, k), s.priority);
  }

  /** An engine that runs two matches, which state two lots. */
  function Doubled(engine: string, a: string, b: string, priority: int): Engine {
    Engine(engine, true, [Running(a, true, false, 2, priority), Running(b, true, false, 2, priority)])
  }

  /** Such an engine, and four with one container each that has to go. */
  function WideEngines(engine: string, a: string, b: string, priority: int, p: int): seq<Engine> {
    [] + [Doubled(engine, a, b, priority)] + [Taken("b", "w", p)] + [Taken("c", "x", p)] + [Taken("d", "y", p)]
    + [Taken("e", "z", p)]
  }

  lemma DoubledSurvey(e: Engine, engine: string, a: string, b: string, priority: int)
    requires e == Doubled(engine, a, b, priority) && priority != DEFAULT_PRIORITY
    ensures var es := [] + [e];
      Stated(es) && SurveyOf(es) == Survey(2, priority, 2, [], [])
  {
    var s := SurveyOf([]);
    SurveySnoc([], e);
    assert e.containers == [e.containers[0], e.containers[1]];
    TakeTwo(Look(Fresh(engine), s.lots, s.priority, s.count), e.containers[0], e.containers[1]);
  }

  /** Nodes of two lots that may be seized, with one container each that has to go. */
  ghost predicate Wide(s: Survey, priority: int, p: int, n: nat) {
    && s.lots == 2 && s.priority == priority && s.count == 2 && s.free == [] && |s.pool| == n
    && forall i | 0 <= i < n ::
      s.pool[i].scaleUp == [] && |s.pool[i].scaleDown| == 1 && s.pool[i].scaleDown[0].priority == p
  }

  lemma Wider(es: seq<Engine>, engine: string, id: string, priority: int, p: int, n: nat)
    requires Stated(es) && Wide(SurveyOf(es), priority, p, n)
    ensures var more := es + [Taken(engine, id, p)]; Stated(more) && Wide(SurveyOf(more), priority, p, n + 1)
  {
    SurveyTaken(es, engine, id, p);
  }

  lemma WideSurvey(engine: string, a: string, b: string, priority: int, p: int)
    requires priority != DEFAULT_PRIORITY
    ensures var es := WideEngines(engine, a, b, priority, p);
      Stated(es) && Matches(es) == 2 && Wide(SurveyOf(es), priority, p, 4)
  {
    var e1 := [] + [Doubled(engine, a, b, priority)];
    var e2 := e1 + [Taken("b", "w", p)];
    var e3 := e2 + [Taken("c", "x", p)];
    var e4 := e3 + [Taken("d", "y", p)];
    DoubledSurvey(Doubled(engine, a, b, priority), engine, a, b, priority);
    Wider(e1, "b", "w", priority, p, 0);
    Wider(e2, "c", "x", priority, p, 1);
    Wider(e3, "d", "y", priority, p, 2);
    Wider(e4, "e", "z", priority, p, 3);
    SurveyFit(WideEngines(engine, a, b, priority, p));
  }

  lemma WideStop(s: Survey, priority: int, p: int, number: nat, lots: int)
    requires Wide(s, priority, p, 4) && p > priority && lots == 2 && number == 4
    ensures EndsAt(s, number, 1) && IsLeast(0, number, lots, 2) && Unblocked(s.pool[..1], priority) == 1
  {
    var one := s.pool[..1];
    assert one[1..] == [] && !Blocked(one[0], priority);
    assert FirstSpace(one[1..], 0, lots, priority) == 0;
    assert SpaceBefore(s.pool, 1, lots, priority) == 2;
  }

  lemma FirstTwoGo(s: Survey, priority: int, p: int, number: nat, lots: int)
    requires Fit(s) && Wide(s, priority, p, 4) && p > priority && lots == 2 && number == 4
    ensures !Suffices(s, number) && Downs(Kept(s.free, s.pool, s.count, number, LotsOf(s), s.priority)) == 2
  {
    WideStop(s, priority, p, number, lots);
    NeededIsLeast(s.free, number, lots);
    LeastUnique(0, number, lots, 2, Needed(s.free, number, lots));
    forall n | n in s.pool ensures n.scaleDown != [] {
    }
    KeptDowns(s, number, 1, 0);
    KeptDowns(s, number, 1, 1);
    assert !Blocked(s.pool[0], s.priority);
    DownsTwo(Kept(s.free, s.pool, s.count, number, LotsOf(s), s.priority));
  }

  lemma DownsTwo(nodes: seq<SeizeNode>)
    requires |nodes| == 2
    ensures Downs(nodes) == |nodes[0].scaleDown| + |nodes[1].scaleDown|
  {
    assert nodes[1..] == [nodes[1]] && nodes[1..][1..] == [];
    assert Downs(nodes[1..]) == |nodes[1].scaleDown| + Downs(nodes[1..][1..]);
  }

  /** When four are asked for, two run and two lots are a node's, two of the four nodes that may be seized are
      emptied. */
  lemma TwoEmptied(engine: string, a: string, b: string, priority: int, p: int, number: nat)
    requires p > priority && priority != DEFAULT_PRIORITY && number == 4
    ensures var es := WideEngines(engine, a, b, priority, p);
      Stated(es) && Matches(es) == 2 && |SurveyOf(es).pool| == 4 && DiscardTasks(Plan(es, number)) == 2
  {
    var es := WideEngines(engine, a, b, priority, p);
    WideSurvey(engine, a, b, priority, p);
    SurveyFit(es);
    FirstTwoGo(SurveyOf(es), priority, p, number, 2);
    PlanDiscards(es, number);
  }

  // ---- What is created ----

  /** The running matches of a list that are told to be created. */
  function RunningIn(cs: seq<Chosen>): nat {
    if cs == [] then 0 else (if cs[0].taskType.Create? && !cs[0].added then 1 else 0) + RunningIn(cs[1..])
  }

  function RunningOn(nodes: seq<SeizeNode>): nat {
    if nodes == [] then 0 else RunningIn(nodes[0].scaleUp) + RunningOn(nodes[1..])
  }

  /** The nodes whose tasks are emitted: the free ones until they sate the plan, and then, unless they do, the others
      that stay on the list. */
  function SentFree(free: seq<SeizeNode>, sent: nat, number: nat): seq<SeizeNode> {
    if free == [] || sent > number then []
    else [free[0]] + SentFree(free[1..], sent + |free[0].scaleUp|, number)
  }

  function Sent(free: seq<SeizeNode>, pool: seq<SeizeNode>, number: nat): seq<SeizeNode> {
    SentFree(free, 0, number) + if Sated(free, 0, number) then [] else pool
  }

  lemma {:induction false} RunningConcat(cs: seq<Chosen>, ds: seq<Chosen>)
    ensures RunningIn(cs + ds) == RunningIn(cs) + RunningIn(ds)
  {
    if cs == [] {
      assert cs + ds == ds;
    } else {
      RunningConcat(cs[1..], ds);
      assert (cs + ds)[1..] == cs[1..] + ds;
    }
  }

  lemma {:induction false} RunningOnConcat(a: seq<SeizeNode>, b: seq<SeizeNode>)
    ensures RunningOn(a + b) == RunningOn(a) + RunningOn(b)
  {
    if a == [] {
      assert a + b == b;
    } else {
      RunningOnConcat(a[1..], b);
      assert (a + b)[1..] == a[1..] + b;
    }
  }

  /** A container to be created was added by the plan or runs already. */
  lemma {:induction false} CreatedAre(cs: seq<Chosen>)
    requires forall c | c in cs && c.taskType.Discard? :: !c.added
    ensures CreateTasks(cs) == AddedIn(cs) + RunningIn(cs)
    ensures RunningIn(cs) == 0 <==> forall c | c in cs && c.taskType.Create? :: c.added
  {
    if cs != [] {
      assert cs == [cs[0]] + cs[1..];
      CreatedAre(cs[1..]);
    }
  }

  lemma {:induction false} NoneRuns(cs: seq<Chosen>)
    requires forall c | c in cs :: c.taskType.Discard?
    ensures RunningIn(cs) == 0
  {
    if cs != [] {
      assert cs[0] in cs && forall c | c in cs[1..] :: c in cs;
      NoneRuns(cs[1..]);
    }
  }

  lemma {:induction false} EmitFreeRuns(free: seq<SeizeNode>, sent: nat, number: nat)
    ensures RunningIn(EmitFree(free, sent, number)) == RunningOn(SentFree(free, sent, number))
  {
    if free != [] && sent <= number {
      var more := sent + |free[0].scaleUp|;
      EmitFreeRuns(free[1..], more, number);
      RunningConcat(free[0].scaleUp, EmitFree(free[1..], more, number));
      assert SentFree(free, sent, number)[1..] == SentFree(free[1..], more, number);
    }
  }

  lemma {:induction false} EmitPoolRuns(pool: seq<SeizeNode>)
    requires Sorted(pool)
    ensures RunningIn(EmitPool(pool)) == RunningOn(pool)
  {
    if pool != [] {
      var n, rest := pool[0], EmitPool(pool[1..]);
      assert n in pool && forall m | m in pool[1..] :: m in pool;
      EmitPoolRuns(pool[1..]);
      RunningConcat(n.scaleDown + n.scaleUp, rest);
      RunningConcat(n.scaleDown, n.scaleUp);
      NoneRuns(n.scaleDown);
    }
  }

  lemma EmitRuns(free: seq<SeizeNode>, pool: seq<SeizeNode>, number: nat)
    requires Sorted(pool)
    ensures RunningIn(Emit(free, pool, number)) == RunningOn(Sent(free, pool, number))
  {
    var rest := if Sated(free, 0, number) then [] else pool;
    EmitFreeRuns(free, 0, number);
    EmitPoolRuns(pool);
    RunningConcat(EmitFree(free, 0, number), if Sated(free, 0, number) then [] else EmitPool(pool));
    RunningOnConcat(SentFree(free, 0, number), rest);
  }

  /** The nodes whose tasks a plan emits. */
  ghost function SentBy(s: Survey, number: nat): seq<SeizeNode>
    requires Fit(s)
  {
    Sent(Filled(s.free, s.pool, s.count, number, LotsOf(s), s.priority),
         Kept(s.free, s.pool, s.count, number, LotsOf(s), s.priority), number)
  }

  lemma KeptSorted(s: Survey, number: nat)
    requires Fit(s)
    ensures Sorted(Kept(s.free, s.pool, s.count, number, LotsOf(s), s.priority))
    ensures Sorted(Filled(s.free, s.pool, s.count, number, LotsOf(s), s.priority))
  {
    FitScanned(s);
    TourKinded(Candidates(s.free, s.pool, number, LotsOf(s)), s.count, number, LotsOf(s), s.priority);
    WorkKinded(s.free, TourOf(s.free, s.pool, s.count, number, LotsOf(s), s.priority).count, number, LotsOf(s));
  }

  /** What a plan creates: the copies it adds, and the running matches on the nodes it emits once more. It creates no
      other container than a copy exactly when there are no such matches. */
  lemma PlanCreates(es: seq<Engine>, number: nat)
    requires Stated(es)
    ensures var s := SurveyOf(es);
      && Fit(s)
      && CreateTasks(Plan(es, number)) == AddedIn(Plan(es, number)) + RunningOn(SentBy(s, number))
      && ((forall c | c in Plan(es, number) && c.taskType.Create? :: c.added) <==> RunningOn(SentBy(s, number)) == 0)
  {
    SurveyFit(es);
    var s := SurveyOf(es);
    KeptSorted(s, number);
    var filled := Filled(s.free, s.pool, s.count, number, LotsOf(s), s.priority);
    var kept := Kept(s.free, s.pool, s.count, number, LotsOf(s), s.priority);
    EmitRuns(filled, kept, number);
    forall c | c in Plan(es, number) && c.taskType.Discard? ensures !c.added {
      FitScanned(s);
      PlanDowns(s.free, s.pool, s.count, number, LotsOf(s), s.priority, c);
      assert forall n | n in kept && c in n.scaleDown :: Kinded(n);
    }
    CreatedAre(Plan(es, number));
  }

  // ---- Which emitted nodes hold a match ----

  lemma {:induction false} AllRun(cs: seq<Chosen>)
    requires (forall c | c in cs :: c.taskType.Create?)
    ensures RunningIn(cs) == |cs| - AddedIn(cs)
  {
    if cs != [] {
      assert cs[0] in cs && forall c | c in cs[1..] :: c in cs;
      AllRun(cs[1..]);
    }
  }

  lemma WorkedRuns(n: SeizeNode, count: nat, number: nat, lots: int)
    requires Seen(n)
    ensures RunningIn(Worked(n, count, number, lots).scaleUp) == |n.scaleUp|
  {
    var more := Repeat(n.engine, Room(|n.scaleUp|, count, number, lots));
    AllRun(n.scaleUp);
    AllRun(more);
    AddedRepeat(n.engine, |more|);
    RunningConcat(n.scaleUp, more);
  }

  /** Working on the free nodes adds no running match to them and takes none away. */
  lemma {:induction false} WorkRuns(free: seq<SeizeNode>, count: nat, number: nat, lots: int)
    requires forall n | n in free :: Seen(n)
    ensures RunningOn(WorkAll(free, count, number, lots)) == Ups(free)
  {
    if free != [] {
      assert free[0] in free && forall n | n in free[1..] :: n in free;
      WorkedRuns(free[0], count, number, lots);
      var room := Room(|free[0].scaleUp|, count, number, lots);
      WorkRuns(free[1..], count + room, number, lots);
      assert WorkAll(free, count, number, lots)[1..] == WorkAll(free[1..], count + room, number, lots);
    }
  }

  /** A visited node that is blocked loses its matches, all others keep them. */
  lemma {:induction false} VisitRuns(pool: seq<SeizeNode>, count: nat, number: nat, lots: int, priority: int, i: nat)
    requires i < |pool| && Seen(pool[i])
    ensures var t := Visit(pool, count, number, lots, priority);
      RunningIn(t.nodes[i].scaleUp) == if i < t.visited && Blocked(pool[i], priority) then 0 else |pool[i].scaleUp|
  {
    var now := Now(pool[0], count, number, lots, priority);
    AllRun(pool[i].scaleUp);
    if i == 0 {
      WorkedRuns(pool[0], count, number, lots);
    } else if now < number {
      VisitRuns(pool[1..], now, number, lots, priority, i - 1);
    }
  }

  lemma {:induction false} RunningOnIff(nodes: seq<SeizeNode>)
    ensures RunningOn(nodes) == 0 <==> forall i | 0 <= i < |nodes| :: RunningIn(nodes[i].scaleUp) == 0
  {
    if nodes != [] {
      RunningOnIff(nodes[1..]);
      assert forall i | 1 <= i < |nodes| :: nodes[i] == nodes[1..][i - 1];
    }
  }

  lemma {:induction false} SentFreeRuns(free: seq<SeizeNode>, sent: nat, number: nat)
    requires Sorted(free) && sent + Additions(free) <= number
    ensures RunningOn(SentFree(free, sent, number)) == 0 <==> RunningOn(free) == 0
  {
    if free != [] {
      assert free[0] in free && forall n | n in free[1..] :: n in free;
      AllRun(free[0].scaleUp);
      var more := sent + |free[0].scaleUp|;
      assert SentFree(free, sent, number)[1..] == SentFree(free[1..], more, number);
      if RunningIn(free[0].scaleUp) == 0 {
        SentFreeRuns(free[1..], more, number);
      }
    }
  }

  lemma {:induction false} NoUpsIff(nodes: seq<SeizeNode>)
    ensures Ups(nodes) == 0 <==> forall n | n in nodes :: n.scaleUp == []
  {
    if nodes != [] {
      NoUpsIff(nodes[1..]);
      assert nodes == [nodes[0]] + nodes[1..];
    }
  }

  /** Some free node with a match is always emitted; without one, the free nodes do not sate the plan. */
  lemma FreeRuns(s: Survey, number: nat)
    requires Fit(s)
    ensures var filled := Filled(s.free, s.pool, s.count, number, LotsOf(s), s.priority);
      && (RunningOn(SentFree(filled, 0, number)) == 0 <==> Ups(s.free) == 0)
      && (Ups(s.free) == 0 ==> !Sated(filled, 0, number))
  {
    FitScanned(s);
    KeptSorted(s, number);
    var filled := Filled(s.free, s.pool, s.count, number, LotsOf(s), s.priority);
    var t := TourOf(s.free, s.pool, s.count, number, LotsOf(s), s.priority);
    WorkCounts(s.free, t.count, number, LotsOf(s));
    WorkRuns(s.free, t.count, number, LotsOf(s));
    SentFreeRuns(filled, 0, number);
    SatedBeyond(filled, 0, number);
  }

  /** A node that may be seized holds no match, or loses it because the tour refuses the node. */
  ghost predicate Matchless(s: Survey, k: nat, i: nat)
    requires i < |s.pool|
  {
    s.pool[i].scaleUp == [] || (i < k && Blocked(s.pool[i], s.priority))
  }

  lemma KeptRuns(s: Survey, number: nat, k: nat)
    requires Fit(s) && EndsAt(s, number, k)
    ensures RunningOn(Kept(s.free, s.pool, s.count, number, LotsOf(s), s.priority)) == 0 <==>
            Suffices(s, number) || forall i | 0 <= i < Edge(s, number, k) :: Matchless(s, k, i)
  {
    var kept := Kept(s.free, s.pool, s.count, number, LotsOf(s), s.priority);
    if !Suffices(s, number) {
      TourEnds(s, number, k);
      RunningOnIff(kept);
      forall i | 0 <= i < |kept| ensures RunningIn(kept[i].scaleUp) == 0 <==> Matchless(s, k, i) {
        VisitRuns(s.pool, s.count, number, LotsOf(s), s.priority, i);
      }
    }
  }

  /** No free node holds a match, and no other node that stays on the list does: then none is emitted. */
  ghost predicate NoneCopied(s: Survey, number: nat, k: nat)
    requires Fit(s) && k <= |s.pool|
  {
    && (forall n | n in s.free :: n.scaleUp == [])
    && (Suffices(s, number) || forall i | 0 <= i < Edge(s, number, k) :: Matchless(s, k, i))
  }

  lemma SentRunsIff(s: Survey, number: nat, k: nat)
    requires Fit(s) && EndsAt(s, number, k)
    ensures RunningOn(SentBy(s, number)) == 0 <==> NoneCopied(s, number, k)
  {
    var filled := Filled(s.free, s.pool, s.count, number, LotsOf(s), s.priority);
    var kept := Kept(s.free, s.pool, s.count, number, LotsOf(s), s.priority);
    FreeRuns(s, number);
    KeptRuns(s, number, k);
    NoUpsIff(s.free);
    RunningOnConcat(SentFree(filled, 0, number), if Sated(filled, 0, number) then [] else kept);
  }

  /** For every list of engines: nothing is created but the copies that were added exactly when no free node holds a
      match, and, unless the free nodes suffice, none that stays on the list does. */
  lemma CreatesOnlyCopiesIff(es: seq<Engine>, number: nat, k: nat)
    requires Stated(es) && EndsAt(SurveyOf(es), number, k)
    ensures var s := SurveyOf(es);
      && Fit(s)
      && ((forall c | c in Plan(es, number) && c.taskType.Create? :: c.added) <==> NoneCopied(s, number, k))
  {
    PlanCreates(es, number);
    SentRunsIff(SurveyOf(es), number, k);
  }

  /** For every list of engines: the missing containers are created, all of them and nothing else, exactly when the
      scanned lists provide for them and no match is emitted. */
  lemma CreatesMissingIff(es: seq<Engine>, number: nat, k: nat)
    requires Stated(es) && EndsAt(SurveyOf(es), number, k)
    ensures var s := SurveyOf(es);
      && Fit(s)
      && (CreateTasks(Plan(es, number)) == Max(0, number - Matches(es))
          && (forall c | c in Plan(es, number) && c.taskType.Create? :: c.added)
          <==> Provided(s.free, s.pool, s.count, number, LotsOf(s), s.priority) && NoneCopied(s, number, k))
  {
    PlanCreates(es, number);
    SentRunsIff(SurveyOf(es), number, k);
    PlanAllMissingIff(es, number);
  }

  /** When the free nodes suffice, as many containers are created as are missing exactly when no free node holds a
      match; otherwise there are more. */
  lemma FreeNodesCreateIff(es: seq<Engine>, number: nat)
    requires Stated(es) && Suffices(SurveyOf(es), number)
    ensures CreateTasks(Plan(es, number)) >= Max(0, number - Matches(es))
    ensures CreateTasks(Plan(es, number)) == Max(0, number - Matches(es))
            <==> forall n | n in SurveyOf(es).free :: n.scaleUp == []
  {
    var k := StopExists(es, number);
    PlanCreates(es, number);
    SentRunsIff(SurveyOf(es), number, k);
    PlanBounds(es, number);
  }

  // ---- Too few, and one too many ----

  ghost predicate Unmatched(s: Survey) {
    (forall n | n in s.free :: n.scaleUp == []) && (forall i | 0 <= i < |s.pool| :: s.pool[i].scaleUp == [])
  }

  /** Without a match on the scanned nodes only copies are created. */
  lemma UnmatchedCreate(es: seq<Engine>, number: nat)
    requires Stated(es) && Unmatched(SurveyOf(es))
    ensures CreateTasks(Plan(es, number)) == AddedIn(Plan(es, number))
  {
    var k := StopExists(es, number);
    PlanCreates(es, number);
    SentRunsIff(SurveyOf(es), number, k);
  }

  lemma ShortUnmatched(s: Survey, priority: int, p: int, q: int)
    requires s == Survey(1, priority, 1, [Fresh("b"), Fresh("c")], [TakenNode("d", "x", p), TakenNode("e", "y", q)])
    ensures Unmatched(s)
  {
  }

  /** When three are asked for, two are missing, two nodes are free and two may be seized, fewer are created. */
  lemma FewerThanMissing(priority: int, p: int, q: int)
    requires p > priority && q > priority
    ensures var es := ShortEngines(priority, p, q);
      && Stated(es) && Matches(es) == 1 && |SurveyOf(es).free| == 2
      && CreateTasks(Plan(es, 3)) < 3 - Matches(es)
  {
    var es := ShortEngines(priority, p, q);
    var s := SurveyOf(es);
    ShortSurvey(priority, p, q);
    NotProvided(s, priority, p, q);
    ShortUnmatched(s, priority, p, q);
    PlanAllMissingIff(es, 3);
    PlanBounds(es, 3);
    UnmatchedCreate(es, 3);
  }


  /** An engine that runs one match, which states two lots. */
  function HalfFull(engine: string, id: string, priority: int): Engine {
    Engine(engine, true, [Running(id, true, false, 2, priority)])
  }

  lemma HalfFullSurvey(engine: string, id: string, priority: int)
    ensures var es, up := [HalfFull(engine, id, priority)], [Chosen(id, Create, priority, false)];
      && Stated(es) && Matches(es) == 1
      && SurveyOf(es) == Survey(2, priority, 1, [SeizeNode(engine, up, [], true, false, 0)], [])
  {
    var e := HalfFull(engine, id, priority);
    var s := SurveyOf([]);
    assert [] + [e] == [e];
    SurveySnoc([], e);
    TakeOne(Look(Fresh(engine), s.lots, s.priority, s.count), e.containers[0]);
    assert e.containers == [e.containers[0]] && e.containers[..0] == [];
    assert [] + [Chosen(id, Create, priority, false)] == [Chosen(id, Create, priority, false)];
  }

  /** When two are asked for and one runs there, one is missing, but two are created. */
  lemma MoreThanMissing(engine: string, id: string, priority: int)
    ensures var es := [HalfFull(engine, id, priority)];
      && Stated(es) && Matches(es) == 1 && Suffices(SurveyOf(es), 2)
      && AddedIn(Plan(es, 2)) == 1 && CreateTasks(Plan(es, 2)) == 2
  {
    var es := [HalfFull(engine, id, priority)];
    HalfFullSurvey(engine, id, priority);
    var n := SurveyOf(es).free[0];
    assert n in SurveyOf(es).free && n.scaleUp != [];
    FreeNodesCreateIff(es, 2);
    PlanBounds(es, 2);
  }
}
