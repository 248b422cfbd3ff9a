/** Planning of a scale-up that may seize the nodes of other containers. */
module Seize {
  import opened Options
  import opened Arithmetic

  const DEFAULT_PRIORITY := -1
  const DEFAULT_APP_LOTS := 1
  const UNSET := -1

  /** A running container as the planner sees it: whether it is one of the app to scale up, whether it is one
      that may have to go, the lots and the priority number it states. A higher number is a lower priority. */
  datatype Running = Running(id: string, up: bool, down: bool, lots: int, priority: int)

  /** What a filter object tells to be up it tells to be created, matches that run already as well; what it tells to
      go is destroyed or stopped. */
  datatype TaskType = Create | Discard

  /** A container chosen for a task: a running one, by its ID, or an `added` copy, which is named by its engine. */
  datatype Chosen = Chosen(id: string, taskType: TaskType, priority: int, added: bool)

  /** A copy for that engine, to which its constraint binds it. */
  function CopyOn(engine: string): Chosen {
    Chosen(engine, Create, 0, true)
  }

  datatype SeizeNode = SeizeNode(
    engine: string,
    scaleUp: seq<Chosen>,
    scaleDown: seq<Chosen>,
    isFree: bool,
    cantSeize: bool,
    alreadyHasFree: int)

  /** An engine of the cluster and whether the item's constraints admit it. */
  datatype Engine = Engine(name: string, admitted: bool, containers: seq<Running>)

  function Fresh(engine: string): SeizeNode {
    SeizeNode(engine, [], [], true, false, -1)
  }

  function Repeat(engine: string, k: nat): (r: seq<Chosen>)
    ensures |r| == k && forall c | c in r :: c == CopyOn(engine)
  {
    if k == 0 then [] else Repeat(engine, k - 1) + [CopyOn(engine)]
  }

  /** How many copies are added to a node that has `len` when `count` of `number` are accounted for. */
  function Room(len: nat, count: nat, number: nat, lots: int): nat {
    Max(0, Min(lots - len, number - count))
  }

  function Worked(n: SeizeNode, count: nat, number: nat, lots: int): SeizeNode {
    n.(scaleUp := n.scaleUp + Repeat(n.engine, Room(|n.scaleUp|, count, number, lots)))
  }

  /** Some container that would have to go has a priority number no higher than the app's own. */
  ghost predicate Blocked(n: SeizeNode, priority: int) {
    exists c :: c in n.scaleDown && c.priority <= priority
  }

  ghost predicate AllBlocked(pool: seq<SeizeNode>, priority: int) {
    pool == [] || (Blocked(pool[0], priority) && AllBlocked(pool[1..], priority))
  }

  lemma {:induction false} AllBlockedIff(pool: seq<SeizeNode>, priority: int)
    ensures AllBlocked(pool, priority) <==> forall n | n in pool :: Blocked(n, priority)
  {
    if pool != [] {
      assert pool == [pool[0]] + pool[1..];
      AllBlockedIff(pool[1..], priority);
    }
  }

  function Cleared(n: SeizeNode): SeizeNode {
    n.(scaleUp := [], scaleDown := [], cantSeize := true)
  }

  /** What doPriority makes of the nodes before it cuts the list: the nodes, the count, how many of the first
      `visited` nodes it refused. */
  datatype Tour = Tour(nodes: seq<SeizeNode>, count: nat, refused: nat, visited: nat)

  /** A node is refused or worked on, and how many containers are accounted for then. */
  ghost function First(n: SeizeNode, count: nat, number: nat, lots: int, priority: int): SeizeNode {
    if Blocked(n, priority) then Cleared(n) else Worked(n, count, number, lots)
  }

  ghost function Now(n: SeizeNode, count: nat, number: nat, lots: int, priority: int): nat {
    if Blocked(n, priority) then count else count + Room(|n.scaleUp|, count, number, lots)
  }

  /** One node after the other is refused or worked on, until enough containers are accounted for. */
  ghost function Visit(pool: seq<SeizeNode>, count: nat, number: nat, lots: int, priority: int): (t: Tour)
    ensures |t.nodes| == |pool| && t.refused <= t.visited <= |pool|
  {
    if pool == [] then Tour([], count, 0, 0)
    else
      var first := First(pool[0], count, number, lots, priority);
      var now := Now(pool[0], count, number, lots, priority);
      var refused := if Blocked(pool[0], priority) then 1 else 0;
      if now >= number then Tour([first] + pool[1..], now, refused, 1)
      else
        var rest := Visit(pool[1..], now, number, lots, priority);
        Tour([first] + rest.nodes, rest.count, refused + rest.refused, 1 + rest.visited)
  }

  /** The tour ends early only when enough containers are accounted for, and leaves the rest as it was. */
  lemma {:induction false} VisitLeaves(pool: seq<SeizeNode>, count: nat, number: nat, lots: int, priority: int)
    ensures var t := Visit(pool, count, number, lots, priority);
      && (t.visited < |pool| ==> t.count >= number)
      && forall i | t.visited <= i < |pool| :: t.nodes[i] == pool[i]
  {
    if pool != [] {
      var now := Now(pool[0], count, number, lots, priority);
      VisitLeaves(pool[1..], now, number, lots, priority);
    }
  }

  /** Every visited node is either without tasks or seizes only containers of strictly lower priority. */
  lemma {:induction false} VisitedAreSafe(pool: seq<SeizeNode>, count: nat, number: nat, lots: int, priority: int,
                                          i: nat)
    requires i < Visit(pool, count, number, lots, priority).visited
    ensures !Blocked(Visit(pool, count, number, lots, priority).nodes[i], priority)
    ensures var n := Visit(pool, count, number, lots, priority).nodes[i];
            n.cantSeize && !pool[i].cantSeize ==> n.scaleUp == [] && n.scaleDown == []
    ensures Visit(pool, count, number, lots, priority).nodes[i].scaleDown
            == if Blocked(pool[i], priority) then [] else pool[i].scaleDown
  {
    var now := Now(pool[0], count, number, lots, priority);
    if i > 0 {
      VisitedAreSafe(pool[1..], now, number, lots, priority, i - 1);
    }
  }

  function Ups(pool: seq<SeizeNode>): nat {
    if pool == [] then 0 else |pool[0].scaleUp| + Ups(pool[1..])
  }

  function AddedIn(cs: seq<Chosen>): nat {
    if cs == [] then 0 else (if cs[0].added then 1 else 0) + AddedIn(cs[1..])
  }

  function Additions(pool: seq<SeizeNode>): nat {
    if pool == [] then 0 else AddedIn(pool[0].scaleUp) + Additions(pool[1..])
  }

  lemma {:induction false} AddedConcat(cs: seq<Chosen>, ds: seq<Chosen>)
    ensures AddedIn(cs + ds) == AddedIn(cs) + AddedIn(ds)
  {
    if cs == [] {
      assert cs + ds == ds;
    } else {
      AddedConcat(cs[1..], ds);
      assert (cs + ds)[1..] == cs[1..] + ds;
    }
  }

  lemma {:induction false} AddedRepeat(engine: string, k: nat)
    ensures AddedIn(Repeat(engine, k)) == k
  {
    if k > 0 {
      AddedRepeat(engine, k - 1);
      AddedConcat(Repeat(engine, k - 1), [CopyOn(engine)]);
    }
  }

  /** The tour accounts for every container it adds, and never goes beyond what is asked for. */
  lemma {:induction false} VisitCounts(pool: seq<SeizeNode>, count: nat, number: nat, lots: int, priority: int)
    ensures var t := Visit(pool, count, number, lots, priority);
      && count <= t.count <= Max(count, number)
      && Ups(t.nodes) <= Ups(pool) + (t.count - count)
      && Additions(t.nodes) <= Additions(pool) + (t.count - count)
  {
    if pool != [] {
      var blocked := Blocked(pool[0], priority);
      var room := Room(|pool[0].scaleUp|, count, number, lots);
      var first := if blocked then Cleared(pool[0]) else Worked(pool[0], count, number, lots);
      var now := if blocked then count else count + room;
      var t := Visit(pool, count, number, lots, priority);
      AddedConcat(pool[0].scaleUp, Repeat(pool[0].engine, room));
      AddedRepeat(pool[0].engine, room);
      if now < number {
        VisitCounts(pool[1..], now, number, lots, priority);
      }
      assert t.nodes[0] == first;
      assert t.nodes[1..]
             == if now >= number then pool[1..] else Visit(pool[1..], now, number, lots, priority).nodes;
    }
  }

  /** It fills no node beyond its lots, other than by what was there. */
  lemma {:induction false} VisitFills(pool: seq<SeizeNode>, count: nat, number: nat, lots: int, priority: int, i: nat)
    requires i < |pool|
    ensures |Visit(pool, count, number, lots, priority).nodes[i].scaleUp| <= Max(|pool[i].scaleUp|, lots)
  {
    var now := Now(pool[0], count, number, lots, priority);
    if i > 0 {
      VisitFills(pool[1..], now, number, lots, priority, i - 1);
    }
  }

  /** The free nodes are worked on one after the other. */
  function WorkAll(pool: seq<SeizeNode>, count: nat, number: nat, lots: int): seq<SeizeNode> {
    if pool == [] then []
    else [Worked(pool[0], count, number, lots)]
         + WorkAll(pool[1..], count + Room(|pool[0].scaleUp|, count, number, lots), number, lots)
  }

  function CountAll(pool: seq<SeizeNode>, count: nat, number: nat, lots: int): nat {
    if pool == [] then count
    else CountAll(pool[1..], count + Room(|pool[0].scaleUp|, count, number, lots), number, lots)
  }

  lemma {:induction false} WorkCounts(pool: seq<SeizeNode>, count: nat, number: nat, lots: int)
    ensures count <= CountAll(pool, count, number, lots) <= Max(count, number)
    ensures Ups(WorkAll(pool, count, number, lots)) == Ups(pool) + (CountAll(pool, count, number, lots) - count)
    ensures Additions(WorkAll(pool, count, number, lots))
            == Additions(pool) + (CountAll(pool, count, number, lots) - count)
    ensures |WorkAll(pool, count, number, lots)| == |pool|
    ensures forall i | 0 <= i < |pool| ::
              |WorkAll(pool, count, number, lots)[i].scaleUp| <= Max(|pool[i].scaleUp|, lots)
  {
    if pool != [] {
      var room := Room(|pool[0].scaleUp|, count, number, lots);
      WorkCounts(pool[1..], count + room, number, lots);
      AddedConcat(pool[0].scaleUp, Repeat(pool[0].engine, room));
      AddedRepeat(pool[0].engine, room);
      var w := WorkAll(pool, count, number, lots);
      assert w[1..] == WorkAll(pool[1..], count + room, number, lots);
      forall i | 0 <= i < |pool| ensures |w[i].scaleUp| <= Max(|pool[i].scaleUp|, lots) {
        if i > 0 {
          assert w[i] == w[1..][i - 1];
        }
      }
    }
  }

  /** So many nodes have lots for all that is asked for. */
  predicate HaveLots(nodes: nat, number: nat, lots: int) {
    nodes * lots >= number
  }

  /** With m more nodes there are lots for all that is asked for, and not with fewer. */
  ghost predicate IsLeast(free: nat, number: nat, lots: int, m: nat) {
    HaveLots(free + m, number, lots) && forall k | free <= k < free + m :: !HaveLots(k, number, lots)
  }

  lemma LeastUnique(free: nat, number: nat, lots: int, m: nat, k: nat)
    requires IsLeast(free, number, lots, m) && IsLeast(free, number, lots, k)
    ensures m == k
  {
  }

  lemma SeizingIsNeeded(free: nat, number: nat, lots: int)
    requires lots > 0 && free * lots < number
    ensures Ceiling(number, lots) - free >= 1
  {
    CeilingAtMost(number, lots, free);
  }

  // ---- What is emitted ----

  function EmitFree(free: seq<SeizeNode>, sent: nat, number: nat): seq<Chosen> {
    if free == [] || sent > number then []
    else free[0].scaleUp + EmitFree(free[1..], sent + |free[0].scaleUp|, number)
  }

  /** More than enough is sent to free nodes already: nothing else follows. */
  predicate Sated(free: seq<SeizeNode>, sent: nat, number: nat) {
    free != [] && (sent > number || Sated(free[1..], sent + |free[0].scaleUp|, number))
  }

  function EmitPool(pool: seq<SeizeNode>): seq<Chosen> {
    if pool == [] then [] else pool[0].scaleDown + pool[0].scaleUp + EmitPool(pool[1..])
  }

  function Emit(free: seq<SeizeNode>, pool: seq<SeizeNode>, number: nat): seq<Chosen> {
    EmitFree(free, 0, number) + if Sated(free, 0, number) then [] else EmitPool(pool)
  }

  function CreateTasks(cs: seq<Chosen>): nat {
    if cs == [] then 0 else (if cs[0].taskType.Create? then 1 else 0) + CreateTasks(cs[1..])
  }

  lemma {:induction false} CreateTasksConcat(cs: seq<Chosen>, ds: seq<Chosen>)
    ensures CreateTasks(cs + ds) == CreateTasks(cs) + CreateTasks(ds)
  {
    if cs == [] {
      assert cs + ds == ds;
    } else {
      CreateTasksConcat(cs[1..], ds);
      assert (cs + ds)[1..] == cs[1..] + ds;
    }
  }

  lemma {:induction false} CreateTasksOf(cs: seq<Chosen>)
    ensures CreateTasks(cs) <= |cs|
    ensures (forall c | c in cs :: c.taskType.Discard? && !c.added) ==> CreateTasks(cs) == 0 && AddedIn(cs) == 0
  {
    if cs != [] {
      assert cs[0] in cs;
      CreateTasksOf(cs[1..]);
    }
  }

  /** A node's lists hold tasks of their own kind only. */
  ghost predicate Kinded(n: SeizeNode) {
    && (forall c | c in n.scaleDown :: c.taskType.Discard? && !c.added)
    && (forall c | c in n.scaleUp :: c.taskType.Create?)
  }

  ghost predicate Sorted(pool: seq<SeizeNode>) {
    forall n | n in pool :: Kinded(n)
  }

  lemma {:induction false} EmitFreeCounts(free: seq<SeizeNode>, sent: nat, number: nat)
    ensures CreateTasks(EmitFree(free, sent, number)) <= Ups(free)
    ensures AddedIn(EmitFree(free, sent, number)) <= Additions(free)
  {
    if free != [] && sent <= number {
      EmitFreeCounts(free[1..], sent + |free[0].scaleUp|, number);
      CreateTasksConcat(free[0].scaleUp, EmitFree(free[1..], sent + |free[0].scaleUp|, number));
      AddedConcat(free[0].scaleUp, EmitFree(free[1..], sent + |free[0].scaleUp|, number));
      CreateTasksOf(free[0].scaleUp);
    }
  }

  lemma {:induction false} EmitPoolCounts(pool: seq<SeizeNode>)
    requires Sorted(pool)
    ensures CreateTasks(EmitPool(pool)) <= Ups(pool)
    ensures AddedIn(EmitPool(pool)) == Additions(pool)
  {
    if pool != [] {
      var n, rest := pool[0], EmitPool(pool[1..]);
      assert n in pool && forall m | m in pool[1..] :: m in pool;
      EmitPoolCounts(pool[1..]);
      CreateTasksConcat(n.scaleDown + n.scaleUp, rest);
      CreateTasksConcat(n.scaleDown, n.scaleUp);
      AddedConcat(n.scaleDown + n.scaleUp, rest);
      AddedConcat(n.scaleDown, n.scaleUp);
      CreateTasksOf(n.scaleDown);
      CreateTasksOf(n.scaleUp);
    }
  }

  lemma EmitCounts(free: seq<SeizeNode>, pool: seq<SeizeNode>, number: nat)
    requires Sorted(pool)
    ensures CreateTasks(Emit(free, pool, number)) <= Ups(free) + Ups(pool)
    ensures AddedIn(Emit(free, pool, number)) <= Additions(free) + Additions(pool)
  {
    EmitFreeCounts(free, 0, number);
    EmitPoolCounts(pool);
    CreateTasksConcat(EmitFree(free, 0, number), EmitPool(pool));
    AddedConcat(EmitFree(free, 0, number), EmitPool(pool));
    assert EmitFree(free, 0, number) + [] == EmitFree(free, 0, number);
  }

  lemma {:induction false} CutCounts(pool: seq<SeizeNode>, k: nat)
    requires k <= |pool|
    ensures Ups(pool[..k]) <= Ups(pool) && Additions(pool[..k]) <= Additions(pool)
  {
    if k > 0 {
      CutCounts(pool[1..], k - 1);
      assert pool[..k][1..] == pool[1..][..k - 1];
    }
  }

  // ---- The whole plan ----

  /** The nodes that may be seized: none when the free ones suffice. */
  ghost function Candidates(free: seq<SeizeNode>, pool: seq<SeizeNode>, number: nat, lots: int): seq<SeizeNode> {
    if |free| * lots >= number then [] else pool
  }

  ghost function Needed(free: seq<SeizeNode>, number: nat, lots: int): (need: nat)
    requires lots > 0
  {
    if |free| * lots >= number then 0
    else
      SeizingIsNeeded(|free|, number, lots);
      Ceiling(number, lots) - |free|
  }

  /** So many nodes are needed beside the free ones that there are lots for all that is asked for, and no more. */
  lemma NeededIsLeast(free: seq<SeizeNode>, number: nat, lots: int)
    requires lots > 0
    ensures IsLeast(|free|, number, lots, Needed(free, number, lots))
  {
    var m := Needed(free, number, lots);
    if |free| * lots < number {
      CeilingAtMost(number, lots, |free| + m);
      forall k | |free| <= k < |free| + m ensures !HaveLots(k, number, lots) {
        CeilingAtMost(number, lots, k);
      }
    }
  }

  ghost function TourOf(free: seq<SeizeNode>, pool: seq<SeizeNode>, count: nat, number: nat, lots: int,
                        priority: int): Tour
  {
    Visit(Candidates(free, pool, number, lots), count, number, lots, priority)
  }

  /** The nodes that stay on the list: as many as are needed, and one more for each that was refused. */
  function Cut(nodes: seq<SeizeNode>, need: nat): seq<SeizeNode> {
    if need < |nodes| then nodes[..need] else nodes
  }

  ghost function Kept(free: seq<SeizeNode>, pool: seq<SeizeNode>, count: nat, number: nat, lots: int,
                      priority: int): seq<SeizeNode>
    requires lots > 0
  {
    var t := TourOf(free, pool, count, number, lots, priority);
    Cut(t.nodes, Needed(free, number, lots) + t.refused)
  }

  ghost function Filled(free: seq<SeizeNode>, pool: seq<SeizeNode>, count: nat, number: nat, lots: int,
                        priority: int): seq<SeizeNode>
  {
    WorkAll(free, TourOf(free, pool, count, number, lots, priority).count, number, lots)
  }

  /** The tasks of the plan, for the scanned free nodes, the scanned other nodes and the number of matches. */
  ghost function Tasks(free: seq<SeizeNode>, pool: seq<SeizeNode>, count: nat, number: nat, lots: int,
                       priority: int): seq<Chosen>
    requires lots > 0
  {
    Emit(Filled(free, pool, count, number, lots, priority), Kept(free, pool, count, number, lots, priority), number)
  }

  /** What the scan leaves: lists of running containers, of which `count` are matches. */
  ghost predicate Scanned(free: seq<SeizeNode>, pool: seq<SeizeNode>, count: nat) {
    Sorted(free) && Sorted(pool) && Ups(free) + Ups(pool) <= count && Additions(free) == 0 == Additions(pool)
  }

  lemma TourKinded(pool: seq<SeizeNode>, count: nat, number: nat, lots: int, priority: int)
    requires Sorted(pool)
    ensures Sorted(Visit(pool, count, number, lots, priority).nodes)
  {
    var t := Visit(pool, count, number, lots, priority);
    forall i | 0 <= i < |pool| ensures Kinded(t.nodes[i]) {
      VisitKinded(pool, count, number, lots, priority, i);
      assert pool[i] in pool;
    }
  }

  lemma {:induction false} VisitKinded(pool: seq<SeizeNode>, count: nat, number: nat, lots: int, priority: int, i: nat)
    requires i < |pool| && Kinded(pool[i])
    ensures Kinded(Visit(pool, count, number, lots, priority).nodes[i])
  {
    var now := Now(pool[0], count, number, lots, priority);
    if i > 0 {
      VisitKinded(pool[1..], now, number, lots, priority, i - 1);
    }
  }

  /** However many matches run already: the plan adds no more copies than are missing, and creates no more containers
      than are asked for, or than are running. */
  lemma PlanCounts(free: seq<SeizeNode>, pool: seq<SeizeNode>, count: nat, number: nat, lots: int, priority: int)
    requires lots > 0 && Scanned(free, pool, count)
    ensures CreateTasks(Tasks(free, pool, count, number, lots, priority)) <= Max(number, count)
    ensures AddedIn(Tasks(free, pool, count, number, lots, priority)) <= Max(0, number - count)
  {
    var candidates := Candidates(free, pool, number, lots);
    var t := TourOf(free, pool, count, number, lots, priority);
    var kept := Kept(free, pool, count, number, lots, priority);
    VisitCounts(candidates, count, number, lots, priority);
    WorkCounts(free, t.count, number, lots);
    TourKinded(candidates, count, number, lots, priority);
    CutCounts(t.nodes, |kept|);
    assert Sorted(kept);
    EmitCounts(Filled(free, pool, count, number, lots, priority), kept, number);
  }

  lemma {:induction false} AdditionsConcat(a: seq<SeizeNode>, b: seq<SeizeNode>)
    ensures Additions(a + b) == Additions(a) + Additions(b)
  {
    if a == [] {
      assert a + b == b;
    } else {
      AdditionsConcat(a[1..], b);
      assert (a + b)[1..] == a[1..] + b;
    }
  }

  lemma {:induction false} VisitAdds(pool: seq<SeizeNode>, count: nat, number: nat, lots: int, priority: int)
    requires Additions(pool) == 0
    ensures Additions(Visit(pool, count, number, lots, priority).nodes)
            == Visit(pool, count, number, lots, priority).count - count
  {
    if pool != [] {
      var room := Room(|pool[0].scaleUp|, count, number, lots);
      var now := Now(pool[0], count, number, lots, priority);
      AddedConcat(pool[0].scaleUp, Repeat(pool[0].engine, room));
      AddedRepeat(pool[0].engine, room);
      var rest := if now >= number then pool[1..] else Visit(pool[1..], now, number, lots, priority).nodes;
      if now < number {
        VisitAdds(pool[1..], now, number, lots, priority);
      }
      assert Visit(pool, count, number, lots, priority).nodes[1..] == rest;
    }
  }

  lemma {:induction false} SatedBeyond(free: seq<SeizeNode>, sent: nat, number: nat)
    ensures Sated(free, sent, number) ==> sent + Ups(free) > number
    ensures !Sated(free, sent, number) ==> AddedIn(EmitFree(free, sent, number)) == Additions(free)
  {
    if free != [] {
      SatedBeyond(free[1..], sent + |free[0].scaleUp|, number);
      AddedConcat(free[0].scaleUp, EmitFree(free[1..], sent + |free[0].scaleUp|, number));
    }
  }

  /** The copies in a plan are exactly those added to nodes, other than to the nodes that were cut off the list. */
  lemma PlanAdds(free: seq<SeizeNode>, pool: seq<SeizeNode>, count: nat, number: nat, lots: int, priority: int)
    requires lots > 0 && Scanned(free, pool, count)
    ensures var t := TourOf(free, pool, count, number, lots, priority);
            var kept := Kept(free, pool, count, number, lots, priority);
            AddedIn(Tasks(free, pool, count, number, lots, priority))
            == CountAll(free, t.count, number, lots) - count - Additions(t.nodes[|kept|..])
  {
    var candidates := Candidates(free, pool, number, lots);
    var t := TourOf(free, pool, count, number, lots, priority);
    var kept := Kept(free, pool, count, number, lots, priority);
    var filled := Filled(free, pool, count, number, lots, priority);
    VisitCounts(candidates, count, number, lots, priority);
    VisitAdds(candidates, count, number, lots, priority);
    WorkCounts(free, t.count, number, lots);
    SatedBeyond(filled, 0, number);
    assert t.nodes == kept + t.nodes[|kept|..];
    AdditionsConcat(kept, t.nodes[|kept|..]);
    if Sated(filled, 0, number) {
      EmitFreeCounts(filled, 0, number);
      assert EmitFree(filled, 0, number) + [] == EmitFree(filled, 0, number);
    } else {
      TourKinded(candidates, count, number, lots, priority);
      assert Sorted(kept);
      EmitPoolCounts(kept);
      AddedConcat(EmitFree(filled, 0, number), EmitPool(kept));
    }
  }

  /** Working on nodes either accounts for all that is asked for, or leaves every node with its lots. */
  lemma {:induction false} WorkReaches(pool: seq<SeizeNode>, count: nat, number: nat, lots: int)
    ensures CountAll(pool, count, number, lots) >= number || Ups(WorkAll(pool, count, number, lots)) >= |pool| * lots
  {
    if pool != [] {
      var now := count + Room(|pool[0].scaleUp|, count, number, lots);
      WorkReaches(pool[1..], now, number, lots);
      WorkCounts(pool[1..], now, number, lots);
      OneMore(|pool[1..]|, lots);
      assert WorkAll(pool, count, number, lots)[1..] == WorkAll(pool[1..], now, number, lots);
    }
  }

  lemma OneMore(k: nat, lots: int)
    ensures (k + 1) * lots == k * lots + lots
  {}

  /** When the free nodes suffice, as many copies are added as containers are missing. */
  lemma FreeNodesReach(free: seq<SeizeNode>, pool: seq<SeizeNode>, count: nat, number: nat, lots: int, priority: int)
    requires lots > 0 && Scanned(free, pool, count) && |free| * lots >= number
    ensures AddedIn(Tasks(free, pool, count, number, lots, priority)) == Max(0, number - count)
  {
    PlanAdds(free, pool, count, number, lots, priority);
    WorkCounts(free, count, number, lots);
    WorkReaches(free, count, number, lots);
  }

  // ---- When copies for all that is missing are emitted ----

  function Space(n: SeizeNode, lots: int): nat {
    Max(0, lots - |n.scaleUp|)
  }

  /** The space on all nodes of a list. */
  function AllSpace(nodes: seq<SeizeNode>, lots: int): nat {
    if nodes == [] then 0 else Space(nodes[0], lots) + AllSpace(nodes[1..], lots)
  }

  /** How many nodes may be seized, and the space on the first k of them. */
  ghost function Unblocked(pool: seq<SeizeNode>, priority: int): (k: nat)
    ensures k <= |pool|
  {
    if pool == [] then 0 else Unblocked(pool[1..], priority) + if Blocked(pool[0], priority) then 0 else 1
  }

  ghost function FirstSpace(pool: seq<SeizeNode>, k: nat, lots: int, priority: int): nat {
    if pool == [] || k == 0 then 0
    else if Blocked(pool[0], priority) then FirstSpace(pool[1..], k, lots, priority)
    else Space(pool[0], lots) + FirstSpace(pool[1..], k - 1, lots, priority)
  }

  ghost function SeizableSpace(pool: seq<SeizeNode>, lots: int, priority: int): nat {
    FirstSpace(pool, |pool|, lots, priority)
  }

  lemma {:induction false} FirstSpaceMore(pool: seq<SeizeNode>, k: nat, m: nat, lots: int, priority: int)
    requires |pool| <= k && |pool| <= m
    ensures FirstSpace(pool, k, lots, priority) == FirstSpace(pool, m, lots, priority)
  {
    if pool != [] {
      if Blocked(pool[0], priority) {
        FirstSpaceMore(pool[1..], k, m, lots, priority);
      } else {
        FirstSpaceMore(pool[1..], k - 1, m - 1, lots, priority);
      }
    }
  }

  /** Every node has space left, as every scanned one has that is neither free nor full. */
  ghost predicate Roomy(pool: seq<SeizeNode>, lots: int) {
    forall n | n in pool :: |n.scaleUp| < lots
  }

  lemma RoomyTail(pool: seq<SeizeNode>, lots: int)
    requires Roomy(pool, lots) && pool != []
    ensures |pool[0].scaleUp| < lots && Roomy(pool[1..], lots)
  {
    assert pool[0] in pool && forall n | n in pool[1..] :: n in pool;
  }

  lemma {:induction false} CountAllIs(free: seq<SeizeNode>, count: nat, number: nat, lots: int)
    ensures CountAll(free, count, number, lots)
            == if count >= number then count else Min(number, count + AllSpace(free, lots))
  {
    if free != [] {
      CountAllIs(free[1..], count + Room(|free[0].scaleUp|, count, number, lots), number, lots);
    }
  }

  /** The tour on a pool that has room for what is missing: it stops at a node that it worked on, and the first k
      unblocked nodes have that room exactly when it worked on no more than k. */
  lemma {:induction false} TourReaches(pool: seq<SeizeNode>, count: nat, number: nat, lots: int, priority: int, k: nat)
    requires Roomy(pool, lots) && count < number && count + SeizableSpace(pool, lots, priority) >= number
    ensures var t := Visit(pool, count, number, lots, priority);
      && t.count == number && t.visited > 0 && !Blocked(pool[t.visited - 1], priority)
      && (count + FirstSpace(pool, k, lots, priority) >= number <==> t.visited - t.refused <= k)
  {
    RoomyTail(pool, lots);
    var now, rest := Now(pool[0], count, number, lots, priority), pool[1..];
    if Blocked(pool[0], priority) {
      FirstSpaceMore(rest, |pool|, |rest|, lots, priority);
      TourReaches(rest, count, number, lots, priority, k);
    } else if now < number {
      TourReaches(rest, now, number, lots, priority, if k == 0 then 0 else k - 1);
      if k == 0 {
        TourWorks(rest, now, number, lots, priority);
      }
    }
  }

  lemma TourWorks(pool: seq<SeizeNode>, count: nat, number: nat, lots: int, priority: int)
    ensures Visit(pool, count, number, lots, priority).visited >= Visit(pool, count, number, lots, priority).refused
  {
  }

  /** The tour on a pool without that room: it visits all nodes and uses all their space. */
  lemma {:induction false} TourExhausts(pool: seq<SeizeNode>, count: nat, number: nat, lots: int, priority: int)
    requires count < number && count + SeizableSpace(pool, lots, priority) < number
    ensures var t := Visit(pool, count, number, lots, priority);
      && t.count == count + SeizableSpace(pool, lots, priority)
      && t.visited == |pool| && t.refused == |pool| - Unblocked(pool, priority)
  {
    if pool != [] {
      var rest := pool[1..];
      if Blocked(pool[0], priority) {
        FirstSpaceMore(rest, |pool|, |rest|, lots, priority);
      }
      TourExhausts(rest, Now(pool[0], count, number, lots, priority), number, lots, priority);
    }
  }

  /** Copies are added to exactly the visited nodes that are not blocked. */
  lemma {:induction false} AddedAt(pool: seq<SeizeNode>, count: nat, number: nat, lots: int, priority: int, i: nat)
    requires Roomy(pool, lots) && count < number && i < |pool| && AddedIn(pool[i].scaleUp) == 0
    ensures var t := Visit(pool, count, number, lots, priority);
      AddedIn(t.nodes[i].scaleUp) > 0 <==> i < t.visited && !Blocked(pool[i], priority)
  {
    RoomyTail(pool, lots);
    var now, room := Now(pool[0], count, number, lots, priority), Room(|pool[0].scaleUp|, count, number, lots);
    if i == 0 {
      AddedConcat(pool[0].scaleUp, Repeat(pool[0].engine, room));
      AddedRepeat(pool[0].engine, room);
    } else if now < number {
      AddedAt(pool[1..], now, number, lots, priority, i - 1);
    }
  }

  lemma {:induction false} NoAdditionsIff(pool: seq<SeizeNode>)
    ensures Additions(pool) == 0 <==> forall i | 0 <= i < |pool| :: AddedIn(pool[i].scaleUp) == 0
  {
    if pool != [] {
      NoAdditionsIff(pool[1..]);
      assert forall i | 1 <= i < |pool| :: pool[i] == pool[1..][i - 1];
    }
  }

  lemma {:induction false} AllBlockedFrom(pool: seq<SeizeNode>, k: nat, priority: int)
    requires k <= |pool|
    ensures AllBlocked(pool[k..], priority) <==> forall i | k <= i < |pool| :: Blocked(pool[i], priority)
    decreases |pool| - k
  {
    if k < |pool| {
      assert pool[k..][0] == pool[k] && pool[k..][1..] == pool[k + 1..];
      AllBlockedFrom(pool, k + 1, priority);
    }
  }

  /** No copy is cut off exactly when all visited nodes that are cut off are blocked. */
  lemma NothingCutIff(pool: seq<SeizeNode>, count: nat, number: nat, lots: int, priority: int, kept: nat)
    requires Roomy(pool, lots) && count < number && Additions(pool) == 0 && kept <= |pool|
    ensures var t := Visit(pool, count, number, lots, priority);
      Additions(t.nodes[kept..]) == 0 <==> forall i | kept <= i < t.visited :: Blocked(pool[i], priority)
  {
    var t := Visit(pool, count, number, lots, priority);
    NoAdditionsIff(pool);
    NoAdditionsIff(t.nodes[kept..]);
    forall i | kept <= i < |pool|
      ensures AddedIn(t.nodes[kept..][i - kept].scaleUp) > 0 <==> i < t.visited && !Blocked(pool[i], priority)
    {
      AddedAt(pool, count, number, lots, priority, i);
    }
    if Additions(t.nodes[kept..]) == 0 {
      forall i | kept <= i < t.visited ensures Blocked(pool[i], priority) {
        assert AddedIn(t.nodes[kept..][i - kept].scaleUp) == 0;
      }
    } else {
      var j :| 0 <= j < |t.nodes[kept..]| && AddedIn(t.nodes[kept..][j].scaleUp) != 0;
      assert t.nodes[kept..][j] == t.nodes[kept..][j + kept - kept];
      assert !Blocked(pool[j + kept], priority);
    }
  }

  /** What the scanned lists must provide: the seizable nodes have space for all that is missing, and the first of
      them, as many as are needed, have it already; or all their space and that of the free nodes is enough, and
      behind as many nodes as are needed or blocked there are only blocked ones. */
  ghost predicate Provided(free: seq<SeizeNode>, pool: seq<SeizeNode>, count: nat, number: nat, lots: int,
                           priority: int)
    requires lots > 0
  {
    || count >= number || |free| * lots >= number
    || if count + SeizableSpace(pool, lots, priority) >= number
       then count + FirstSpace(pool, Needed(free, number, lots), lots, priority) >= number
       else count + SeizableSpace(pool, lots, priority) + AllSpace(free, lots) >= number
            && AllBlocked(pool[Min(|pool|, Needed(free, number, lots) + |pool| - Unblocked(pool, priority))..],
                          priority)
  }

  /** When the pool has the space. */
  lemma ReachingIff(free: seq<SeizeNode>, pool: seq<SeizeNode>, count: nat, number: nat, lots: int, priority: int)
    requires lots > 0 && Scanned(free, pool, count) && Roomy(pool, lots)
    requires count < number && |free| * lots < number && count + SeizableSpace(pool, lots, priority) >= number
    ensures AddedIn(Tasks(free, pool, count, number, lots, priority)) == number - count
            <==> count + FirstSpace(pool, Needed(free, number, lots), lots, priority) >= number
  {
    var t, kept := TourOf(free, pool, count, number, lots, priority), Kept(free, pool, count, number, lots, priority);
    assert Candidates(free, pool, number, lots) == pool;
    PlanAdds(free, pool, count, number, lots, priority);
    TourReaches(pool, count, number, lots, priority, Needed(free, number, lots));
    WorkCounts(free, number, number, lots);
    NothingCutIff(pool, count, number, lots, priority, |kept|);
    assert |kept| < t.visited ==> !(forall i | |kept| <= i < t.visited :: Blocked(pool[i], priority));
  }

  /** When it has not. */
  lemma ExhaustingIff(free: seq<SeizeNode>, pool: seq<SeizeNode>, count: nat, number: nat, lots: int, priority: int)
    requires lots > 0 && Scanned(free, pool, count) && Roomy(pool, lots)
    requires count < number && |free| * lots < number && count + SeizableSpace(pool, lots, priority) < number
    ensures AddedIn(Tasks(free, pool, count, number, lots, priority)) == number - count
            <==> Provided(free, pool, count, number, lots, priority)
  {
    var t, kept := TourOf(free, pool, count, number, lots, priority), Kept(free, pool, count, number, lots, priority);
    assert Candidates(free, pool, number, lots) == pool;
    PlanAdds(free, pool, count, number, lots, priority);
    TourExhausts(pool, count, number, lots, priority);
    CountAllIs(free, t.count, number, lots);
    NothingCutIff(pool, count, number, lots, priority, |kept|);
    AllBlockedFrom(pool, |kept|, priority);
  }

  /** There are copies for all that are missing exactly when the scanned lists provide for them. */
  lemma AllMissingIff(free: seq<SeizeNode>, pool: seq<SeizeNode>, count: nat, number: nat, lots: int, priority: int)
    requires lots > 0 && Scanned(free, pool, count) && Roomy(pool, lots)
    ensures AddedIn(Tasks(free, pool, count, number, lots, priority)) == Max(0, number - count)
            <==> Provided(free, pool, count, number, lots, priority)
  {
    if count >= number {
      PlanCounts(free, pool, count, number, lots, priority);
    } else if |free| * lots >= number {
      FreeNodesReach(free, pool, count, number, lots, priority);
    } else if count + SeizableSpace(pool, lots, priority) >= number {
      ReachingIff(free, pool, count, number, lots, priority);
    } else {
      ExhaustingIff(free, pool, count, number, lots, priority);
    }
  }

  /** No node gets beyond its lots. */
  lemma PlanFills(free: seq<SeizeNode>, pool: seq<SeizeNode>, count: nat, number: nat, lots: int, priority: int)
    requires lots > 0
    ensures var filled := Filled(free, pool, count, number, lots, priority);
      |filled| == |free| && forall i | 0 <= i < |free| :: |filled[i].scaleUp| <= Max(|free[i].scaleUp|, lots)
    ensures var kept := Kept(free, pool, count, number, lots, priority);
      |kept| <= |pool| && forall i | 0 <= i < |kept| :: |kept[i].scaleUp| <= Max(|pool[i].scaleUp|, lots)
  {
    WorkCounts(free, TourOf(free, pool, count, number, lots, priority).count, number, lots);
    var candidates := Candidates(free, pool, number, lots);
    forall i | 0 <= i < |candidates|
      ensures |Visit(candidates, count, number, lots, priority).nodes[i].scaleUp| <= Max(|candidates[i].scaleUp|, lots)
    {
      VisitFills(candidates, count, number, lots, priority, i);
    }
  }

  lemma {:induction false} EmitPoolMembers(pool: seq<SeizeNode>, c: Chosen)
    ensures c in EmitPool(pool) <==> exists n :: n in pool && (c in n.scaleDown || c in n.scaleUp)
  {
    if pool != [] {
      EmitPoolMembers(pool[1..], c);
      assert pool == [pool[0]] + pool[1..];
    }
  }

  lemma {:induction false} EmitFreeMembers(free: seq<SeizeNode>, sent: nat, number: nat, c: Chosen)
    ensures c in EmitFree(free, sent, number) ==> exists n :: n in free && c in n.scaleUp
  {
    if free != [] && sent <= number {
      EmitFreeMembers(free[1..], sent + |free[0].scaleUp|, number, c);
      assert free == [free[0]] + free[1..];
    }
  }

  lemma {:induction false} WorkKinded(free: seq<SeizeNode>, count: nat, number: nat, lots: int)
    requires Sorted(free)
    ensures Sorted(WorkAll(free, count, number, lots))
  {
    if free != [] {
      assert free[0] in free && forall n | n in free[1..] :: n in free;
      WorkKinded(free[1..], count + Room(|free[0].scaleUp|, count, number, lots), number, lots);
    }
  }

  /** The scale-down tasks of a plan are those of the nodes that were kept, unless the free nodes sated it. */
  lemma PlanDowns(free: seq<SeizeNode>, pool: seq<SeizeNode>, count: nat, number: nat, lots: int, priority: int,
                  c: Chosen)
    requires lots > 0 && Scanned(free, pool, count) && c.taskType.Discard?
    ensures c in Tasks(free, pool, count, number, lots, priority) <==>
            && !Sated(Filled(free, pool, count, number, lots, priority), 0, number)
            && exists n :: n in Kept(free, pool, count, number, lots, priority) && c in n.scaleDown
  {
    var filled := Filled(free, pool, count, number, lots, priority);
    var kept := Kept(free, pool, count, number, lots, priority);
    WorkKinded(free, TourOf(free, pool, count, number, lots, priority).count, number, lots);
    TourKinded(Candidates(free, pool, number, lots), count, number, lots, priority);
    assert Sorted(kept);
    EmitPoolMembers(kept, c);
    EmitFreeMembers(filled, 0, number, c);
    assert forall n | n in filled && c in n.scaleUp :: Kinded(n);
    assert forall n | n in kept && c in n.scaleUp :: Kinded(n);
  }

  /** When the free nodes suffice nothing is scaled down. */
  lemma FreeNodesSuffice(free: seq<SeizeNode>, pool: seq<SeizeNode>, count: nat, number: nat, lots: int, priority: int)
    requires lots > 0 && Scanned(free, pool, count) && |free| * lots >= number
    ensures forall c | c in Tasks(free, pool, count, number, lots, priority) :: c.taskType.Create?
  {
    forall c | c in Tasks(free, pool, count, number, lots, priority) ensures c.taskType.Create? {
      if c.taskType.Discard? {
        PlanDowns(free, pool, count, number, lots, priority, c);
      }
    }
  }

  /** On the scanned lists: only containers of strictly lower priority are removed exactly when the tour ended early
      over no kept node that it would have refused, or the free nodes sated the plan. */
  lemma ScannedOnlyLowerIff(free: seq<SeizeNode>, pool: seq<SeizeNode>, count: nat, number: nat, lots: int,
                           priority: int)
    requires lots > 0 && Scanned(free, pool, count)
    ensures (forall c | c in Tasks(free, pool, count, number, lots, priority) && c.taskType.Discard? ::
               c.priority > priority) <==>
            || Sated(Filled(free, pool, count, number, lots, priority), 0, number)
            || forall i | TourOf(free, pool, count, number, lots, priority).visited <= i
                          < |Kept(free, pool, count, number, lots, priority)| :: !Blocked(pool[i], priority)
  {
    var candidates := Candidates(free, pool, number, lots);
    var t := TourOf(free, pool, count, number, lots, priority);
    var kept := Kept(free, pool, count, number, lots, priority);
    var tasks := Tasks(free, pool, count, number, lots, priority);
    VisitLeaves(candidates, count, number, lots, priority);
    assert |kept| <= |candidates| && forall i | 0 <= i < |kept| :: kept[i] == t.nodes[i];
    forall c: Chosen | c.taskType.Discard?
      ensures c in tasks <==> !Sated(Filled(free, pool, count, number, lots, priority), 0, number)
                              && exists n :: n in kept && c in n.scaleDown
    {
      PlanDowns(free, pool, count, number, lots, priority, c);
    }
    forall i | 0 <= i < |kept| ensures i < t.visited ==> !Blocked(kept[i], priority) {
      if i < t.visited {
        VisitedAreSafe(candidates, count, number, lots, priority, i);
      }
    }
    if !Sated(Filled(free, pool, count, number, lots, priority), 0, number) {
      if i :| t.visited <= i < |kept| && Blocked(pool[i], priority) {
        var c :| c in pool[i].scaleDown && c.priority <= priority;
        assert kept[i] in kept && pool[i] in pool && Kinded(pool[i]);
        assert c in tasks;
      }
    }
  }

  // ---- The scan ----

  /** What the scan knows while it reads the containers of an engine: the node so far, and what the filter object
      remembers of all engines: the lots and the priority stated first, and how many matches there were. */
  datatype Look = Look(node: SeizeNode, lots: int, priority: int, count: nat)

  function TakeUp(l: Look, c: Running): Look {
    var ups := l.node.scaleUp + [Chosen(c.id, Create, c.priority, false)];
    var lots := if l.lots == UNSET then c.lots else l.lots;
    var full := |ups| >= lots;
    Look(l.node.(scaleUp := ups, isFree := !full, alreadyHasFree := if full then 0 else l.node.alreadyHasFree + 1),
         lots, if l.priority == DEFAULT_PRIORITY then c.priority else l.priority, l.count + 1)
  }

  function TakeDown(l: Look, c: Running): Look {
    l.(node := l.node.(scaleDown := l.node.scaleDown + [Chosen(c.id, Discard, c.priority, false)], isFree := false))
  }

  function Take(l: Look, c: Running): Look {
    var m := if c.up then TakeUp(l, c) else l;
    if c.down then TakeDown(m, c) else m
  }

  function TakeAll(l: Look, cs: seq<Running>): Look {
    if cs == [] then l else Take(TakeAll(l, cs[..|cs| - 1]), cs[|cs| - 1])
  }

  datatype Survey = Survey(lots: int, priority: int, count: nat, free: seq<SeizeNode>, pool: seq<SeizeNode>)

  function LookAt(s: Survey, e: Engine): Look {
    TakeAll(Look(Fresh(e.name), s.lots, s.priority, s.count), e.containers)
  }

  /** An engine becomes a free node, a node that may be seized, or, when it runs the app already, neither. */
  function Sorting(s: Survey, l: Look): Survey {
    if l.node.isFree then Survey(l.lots, l.priority, l.count, s.free + [l.node], s.pool)
    else if l.node.alreadyHasFree != 0 then Survey(l.lots, l.priority, l.count, s.free, s.pool + [l.node])
    else Survey(l.lots, l.priority, l.count, s.free, s.pool)
  }

  function Add(s: Survey, e: Engine): Survey {
    if e.admitted then Sorting(s, LookAt(s, e)) else s
  }

  function SurveyOf(es: seq<Engine>): Survey {
    if es == [] then Survey(UNSET, DEFAULT_PRIORITY, 0, [], []) else Add(SurveyOf(es[..|es| - 1]), es[|es| - 1])
  }

  function UpMatches(cs: seq<Running>): nat {
    if cs == [] then 0 else UpMatches(cs[..|cs| - 1]) + if cs[|cs| - 1].up then 1 else 0
  }

  /** The matches on the admitted engines. */
  function Matches(es: seq<Engine>): nat {
    if es == [] then 0
    else Matches(es[..|es| - 1]) + if es[|es| - 1].admitted then UpMatches(es[|es| - 1].containers) else 0
  }

  /** Lots are either not stated or positive. */
  ghost predicate Stated(es: seq<Engine>) {
    forall e, c | e in es && c in e.containers :: c.lots == UNSET || c.lots > 0
  }

  /** A container that is taken into account at all. */
  predicate Relevant(c: Running) {
    c.up || c.down
  }

  /** The last relevant container is a match that need not go. */
  predicate EndsUp(cs: seq<Running>) {
    cs != [] && if Relevant(cs[|cs| - 1]) then cs[|cs| - 1].up && !cs[|cs| - 1].down else EndsUp(cs[..|cs| - 1])
  }

  predicate Irrelevant(cs: seq<Running>) {
    forall c | c in cs :: !Relevant(c)
  }

  /** A node is free exactly when nothing on it is relevant, or the last relevant container is a match and there
      is room for more. */
  lemma {:induction false} FreeIff(l: Look, cs: seq<Running>)
    requires l.node == Fresh(l.node.engine) && forall c | c in cs :: c.lots == UNSET || c.lots > 0
    ensures var m := TakeAll(l, cs);
      m.node.isFree <==> Irrelevant(cs) || (EndsUp(cs) && UpMatches(cs) < m.lots)
    ensures Irrelevant(cs) ==> TakeAll(l, cs) == l
    ensures |TakeAll(l, cs).node.scaleUp| == UpMatches(cs)
  {
    if cs != [] {
      var front, last := cs[..|cs| - 1], cs[|cs| - 1];
      assert cs == front + [last];
      FreeIff(l, front);
      assert Irrelevant(cs) <==> Irrelevant(front) && !Relevant(last);
    }
  }

  lemma TakeOne(l: Look, c: Running)
    ensures TakeAll(l, [c]) == Take(l, c)
  {
    assert [c][..|[c]| - 1] == [];
    assert TakeAll(l, [c]) == Take(TakeAll(l, []), c);
  }

  lemma TakeTwo(l: Look, c: Running, d: Running)
    ensures TakeAll(l, [c, d]) == Take(Take(l, c), d)
  {
    TakeOne(l, c);
    assert [c, d][..|[c, d]| - 1] == [c];
    assert TakeAll(l, [c, d]) == Take(TakeAll(l, [c]), d);
  }

  lemma SurveyOne(e: Engine)
    ensures SurveyOf([e]) == Add(SurveyOf([]), e)
  {
    assert [e][..|[e]| - 1] == [];
  }

  lemma SurveySnoc(es: seq<Engine>, e: Engine)
    ensures SurveyOf(es + [e]) == Add(SurveyOf(es), e) && Matches(es + [e])
            == Matches(es) + if e.admitted then UpMatches(e.containers) else 0
  {
    assert (es + [e])[..|es|] == es;
  }

  /** So a container that has to go is overlooked when a match on the same node is listed after it. */
  lemma OverlookedOnFreeNode(engine: string, lots: int, c: Running, d: Running)
    requires c.down && !c.up && d.up && !d.down && d.lots == lots > 1
    ensures var e := Engine(engine, true, [c, d]);
            && SurveyOf([e]).pool == [] && |SurveyOf([e]).free| == 1
            && SurveyOf([e]).free[0].scaleDown == [Chosen(c.id, Discard, c.priority, false)]
    ensures var f := Engine(engine, true, [d, c]);
            SurveyOf([f]).free == [] && SurveyOf([f]).pool == []
  {
    var s := SurveyOf([]);
    var e, f := Engine(engine, true, [c, d]), Engine(engine, true, [d, c]);
    var l := Look(Fresh(engine), s.lots, s.priority, s.count);
    TakeTwo(l, c, d);
    TakeTwo(l, d, c);
    SurveyOne(e);
    SurveyOne(f);
  }

  lemma {:induction false} UpsSnoc(pool: seq<SeizeNode>, n: SeizeNode)
    ensures Ups(pool + [n]) == Ups(pool) + |n.scaleUp|
    ensures Additions(pool + [n]) == Additions(pool) + AddedIn(n.scaleUp)
  {
    if pool != [] {
      UpsSnoc(pool[1..], n);
      assert (pool + [n])[1..] == pool[1..] + [n];
    }
  }

  /** A node that the scan built from running containers. */
  ghost predicate Seen(n: SeizeNode) {
    Kinded(n) && AddedIn(n.scaleUp) == 0 && !n.cantSeize
  }

  lemma {:induction false} TakeAllSeen(l: Look, cs: seq<Running>)
    requires forall c | c in cs :: c.lots == UNSET || c.lots > 0
    requires Seen(l.node) && (l.lots == UNSET || l.lots > 0)
    ensures var m := TakeAll(l, cs);
      && Seen(m.node) && (m.lots == UNSET || m.lots > 0)
      && m.count == l.count + UpMatches(cs) && |m.node.scaleUp| == |l.node.scaleUp| + UpMatches(cs)
      && (m.count == l.count ==> m.lots == l.lots && m.priority == l.priority)
  {
    if cs != [] {
      var front, last := cs[..|cs| - 1], cs[|cs| - 1];
      assert cs == front + [last];
      TakeAllSeen(l, front);
      AddedConcat(TakeAll(l, front).node.scaleUp, [Chosen(last.id, Create, last.priority, false)]);
    }
  }

  /** What the scan leaves is fit for planning: every match is counted once, and without a match nothing is known. */
  ghost predicate Small(nodes: seq<SeizeNode>, count: nat) {
    forall n | n in nodes :: Seen(n) && |n.scaleUp| <= count
  }

  lemma {:induction false} SmallAdds(nodes: seq<SeizeNode>, count: nat)
    requires Small(nodes, count)
    ensures Additions(nodes) == 0
  {
    if nodes != [] {
      assert nodes[0] in nodes && forall n | n in nodes[1..] :: n in nodes;
      SmallAdds(nodes[1..], count);
    }
  }

  ghost predicate Fit(s: Survey) {
    && Small(s.free, s.count) && Small(s.pool, s.count) && Ups(s.free) + Ups(s.pool) <= s.count
    && (s.lots == UNSET || s.lots > 0)
    && (s.count == 0 ==> s.lots == UNSET && s.priority == DEFAULT_PRIORITY)
  }

  lemma FitScanned(s: Survey)
    requires Fit(s)
    ensures Scanned(s.free, s.pool, s.count)
  {
    SmallAdds(s.free, s.count);
    SmallAdds(s.pool, s.count);
    assert Sorted(s.free) by {
      assert forall n | n in s.free :: Seen(n);
    }
    assert Sorted(s.pool) by {
      assert forall n | n in s.pool :: Seen(n);
    }
  }

  lemma SmallSnoc(nodes: seq<SeizeNode>, n: SeizeNode, count: nat, more: nat)
    requires Small(nodes, count) && count <= more && Seen(n) && |n.scaleUp| <= more
    ensures Small(nodes, more) && Small(nodes + [n], more)
  {
    assert forall m | m in nodes :: Seen(m) && |m.scaleUp| <= count;
  }

  lemma SortingFit(s: Survey, l: Look)
    requires Fit(s) && Seen(l.node) && l.count == s.count + |l.node.scaleUp|
    requires (l.lots == UNSET || l.lots > 0) && (l.count == 0 ==> l.lots == UNSET && l.priority == DEFAULT_PRIORITY)
    ensures Fit(Sorting(s, l))
  {
    UpsSnoc(s.free, l.node);
    UpsSnoc(s.pool, l.node);
    SmallSnoc(s.free, l.node, s.count, l.count);
    SmallSnoc(s.pool, l.node, s.count, l.count);
  }

  lemma AddFit(s: Survey, e: Engine)
    requires Fit(s) && forall c | c in e.containers :: c.lots == UNSET || c.lots > 0
    ensures Fit(Add(s, e)) && Add(s, e).count == s.count + if e.admitted then UpMatches(e.containers) else 0
  {
    assert Seen(Fresh(e.name));
    TakeAllSeen(Look(Fresh(e.name), s.lots, s.priority, s.count), e.containers);
    if e.admitted {
      SortingFit(s, LookAt(s, e));
    }
  }

  lemma {:induction false} SurveyFit(es: seq<Engine>)
    requires Stated(es)
    ensures Fit(SurveyOf(es)) && SurveyOf(es).count == Matches(es)
  {
    if es != [] {
      var front, last := es[..|es| - 1], es[|es| - 1];
      assert last in es && forall e | e in front :: e in es;
      SurveyFit(front);
      AddFit(SurveyOf(front), last);
    }
  }

  // ---- The filter object ----

  function LotsOf(s: Survey): int {
    if s.lots == UNSET then DEFAULT_APP_LOTS else s.lots
  }

  /** The plan for what was scanned. */
  ghost function PlanOf(s: Survey, number: nat): seq<Chosen>
    requires Fit(s)
  {
    Tasks(s.free, s.pool, s.count, number, LotsOf(s), s.priority)
  }

  ghost function Plan(es: seq<Engine>, number: nat): seq<Chosen>
    requires Stated(es)
  {
    SurveyFit(es);
    PlanOf(SurveyOf(es), number)
  }

  lemma PlanOfBounds(s: Survey, number: nat)
    requires Fit(s)
    ensures AddedIn(PlanOf(s, number)) <= Max(0, number - s.count)
    ensures |s.free| * LotsOf(s) >= number ==> AddedIn(PlanOf(s, number)) == Max(0, number - s.count)
    ensures CreateTasks(PlanOf(s, number)) <= Max(number, s.count)
    ensures |s.free| * LotsOf(s) >= number ==> forall c | c in PlanOf(s, number) :: c.taskType.Create?
  {
    FitScanned(s);
    PlanCounts(s.free, s.pool, s.count, number, LotsOf(s), s.priority);
    if |s.free| * LotsOf(s) >= number {
      FreeNodesSuffice(s.free, s.pool, s.count, number, LotsOf(s), s.priority);
      FreeNodesReach(s.free, s.pool, s.count, number, LotsOf(s), s.priority);
    }
  }

  /** However many matches run: no more copies are added than are missing, and no more containers are created than are
      asked for, or than are running. When the free nodes suffice nothing is removed and as many copies are added as
      are missing. */
  lemma PlanBounds(es: seq<Engine>, number: nat)
    requires Stated(es)
    ensures AddedIn(Plan(es, number)) <= Max(0, number - Matches(es))
    ensures CreateTasks(Plan(es, number)) <= Max(number, Matches(es))
    ensures |SurveyOf(es).free| * LotsOf(SurveyOf(es)) >= number ==>
              && (forall c | c in Plan(es, number) :: c.taskType.Create?)
              && AddedIn(Plan(es, number)) == Max(0, number - Matches(es))
  {
    SurveyFit(es);
    PlanOfBounds(SurveyOf(es), number);
  }

  /** A node that is neither free nor full has space for more, by the lots that are known. */
  ghost predicate Open(n: SeizeNode, lots: int) {
    n.scaleUp == [] || (lots != UNSET && |n.scaleUp| < lots)
  }

  lemma {:induction false} TakeAllOpen(l: Look, cs: seq<Running>)
    requires l.node.alreadyHasFree == 0 || Open(l.node, l.lots)
    ensures var m := TakeAll(l, cs);
      && (m.node.alreadyHasFree == 0 || Open(m.node, m.lots)) && (l.lots != UNSET ==> m.lots == l.lots)
  {
    if cs != [] {
      TakeAllOpen(l, cs[..|cs| - 1]);
    }
  }

  ghost predicate AllOpen(nodes: seq<SeizeNode>, lots: int) {
    forall n | n in nodes :: Open(n, lots)
  }

  lemma {:induction false} SurveyOpen(es: seq<Engine>)
    ensures AllOpen(SurveyOf(es).pool, SurveyOf(es).lots)
  {
    if es != [] {
      var s, last := SurveyOf(es[..|es| - 1]), es[|es| - 1];
      SurveyOpen(es[..|es| - 1]);
      TakeAllOpen(Look(Fresh(last.name), s.lots, s.priority, s.count), last.containers);
      OpenStill(s.pool, s.lots, LookAt(s, last));
    }
  }

  lemma OpenStill(pool: seq<SeizeNode>, lots: int, l: Look)
    requires AllOpen(pool, lots) && (lots != UNSET ==> l.lots == lots)
    ensures AllOpen(pool, l.lots) && (Open(l.node, l.lots) ==> AllOpen(pool + [l.node], l.lots))
  {
    assert forall n | n in pool :: Open(n, lots);
  }

  /** For every list of engines, exactly when there are copies for all that is missing. */
  lemma PlanAllMissingIff(es: seq<Engine>, number: nat)
    requires Stated(es)
    ensures var s := SurveyOf(es);
      LotsOf(s) > 0 && (AddedIn(Plan(es, number)) == Max(0, number - Matches(es))
                        <==> Provided(s.free, s.pool, s.count, number, LotsOf(s), s.priority))
  {
    SurveyFit(es);
    SurveyOpen(es);
    var s := SurveyOf(es);
    FitScanned(s);
    assert Roomy(s.pool, LotsOf(s)) by {
      assert forall n | n in s.pool :: Open(n, s.lots);
    }
    AllMissingIff(s.free, s.pool, s.count, number, LotsOf(s), s.priority);
  }

  // ---- Two plans that do not do what they should ----

  function Idle(engine: string): Engine {
    Engine(engine, true, [])
  }

  /** An engine of one lot that runs the app. */
  function Full(engine: string, id: string, priority: int): Engine {
    Engine(engine, true, [Running(id, true, false, 1, priority)])
  }

  /** An engine with one container that may have to go. */
  function Taken(engine: string, id: string, priority: int): Engine {
    Engine(engine, true, [Running(id, false, true, UNSET, priority)])
  }

  function TakenNode(engine: string, id: string, priority: int): SeizeNode {
    SeizeNode(engine, [], [Chosen(id, Discard, priority, false)], false, false, -1)
  }

  lemma SurveyIdle(es: seq<Engine>, engine: string)
    ensures var s := SurveyOf(es);
      && SurveyOf(es + [Idle(engine)]) == s.(free := s.free + [Fresh(engine)])
      && Matches(es + [Idle(engine)]) == Matches(es) && (Stated(es) ==> Stated(es + [Idle(engine)]))
  {
    SurveySnoc(es, Idle(engine));
  }

  lemma SurveyFull(es: seq<Engine>, engine: string, id: string, priority: int)
    requires SurveyOf(es).lots == UNSET || SurveyOf(es).lots == 1
    ensures var s := SurveyOf(es);
      SurveyOf(es + [Full(engine, id, priority)])
      == Survey(1, if s.priority == DEFAULT_PRIORITY then priority else s.priority, s.count + 1, s.free, s.pool)
    ensures Matches(es + [Full(engine, id, priority)]) == Matches(es) + 1
    ensures Stated(es) ==> Stated(es + [Full(engine, id, priority)])
  {
    var s, e := SurveyOf(es), Full(engine, id, priority);
    SurveySnoc(es, e);
    TakeOne(Look(Fresh(engine), s.lots, s.priority, s.count), e.containers[0]);
    assert e.containers == [e.containers[0]] && e.containers[..0] == [];
  }

  lemma SurveyTaken(es: seq<Engine>, engine: string, id: string, priority: int)
    ensures var s := SurveyOf(es);
      SurveyOf(es + [Taken(engine, id, priority)]) == s.(pool := s.pool + [TakenNode(engine, id, priority)])
    ensures Matches(es + [Taken(engine, id, priority)]) == Matches(es)
    ensures Stated(es) ==> Stated(es + [Taken(engine, id, priority)])
  {
    var s, e := SurveyOf(es), Taken(engine, id, priority);
    SurveySnoc(es, e);
    TakeOne(Look(Fresh(engine), s.lots, s.priority, s.count), e.containers[0]);
    assert e.containers == [e.containers[0]] && e.containers[..0] == [];
    assert [] + [Chosen(id, Discard, priority, false)] == [Chosen(id, Discard, priority, false)];
  }

  /** An engine that runs the app, two idle ones, and two with containers that may be seized. */
  function ShortEngines(priority: int, p: int, q: int): seq<Engine> {
    [] + [Full("a", "match", priority)] + [Idle("b")] + [Idle("c")] + [Taken("d", "x", p)] + [Taken("e", "y", q)]
  }

  lemma ShortSurvey(priority: int, p: int, q: int)
    ensures var es := ShortEngines(priority, p, q);
      && Stated(es) && Matches(es) == 1
      && SurveyOf(es)
         == Survey(1, priority, 1, [Fresh("b"), Fresh("c")], [TakenNode("d", "x", p), TakenNode("e", "y", q)])
  {
    var e0: seq<Engine> := [];
    var e1 := e0 + [Full("a", "match", priority)];
    var e2 := e1 + [Idle("b")];
    var e3 := e2 + [Idle("c")];
    var e4 := e3 + [Taken("d", "x", p)];
    SurveyFull(e0, "a", "match", priority);
    SurveyIdle(e1, "b");
    SurveyIdle(e2, "c");
    SurveyTaken(e3, "d", "x", p);
    SurveyTaken(e4, "e", "y", q);
  }

  lemma NotProvided(s: Survey, priority: int, p: int, q: int)
    requires s == Survey(1, priority, 1, [Fresh("b"), Fresh("c")], [TakenNode("d", "x", p), TakenNode("e", "y", q)])
    requires p > priority && q > priority
    ensures !Provided(s.free, s.pool, s.count, 3, LotsOf(s), s.priority)
  {
    var pool := s.pool;
    assert !Blocked(pool[0], priority) && !Blocked(pool[1], priority);
    assert pool[1..] == [pool[1]] && pool[1..][1..] == [];
    assert FirstSpace(pool[1..], 1, 1, priority) == 1;
    assert SeizableSpace(pool, 1, priority) == 2 && FirstSpace(pool, 1, 1, priority) == 1;
    assert Ceiling(3, 1) == 3;
    assert Needed(s.free, 3, 1) == 1;
  }

  /** Two engines that run the app and two with containers that would have to go, the second of which states
      a priority number no higher than the app's. */
  function UncheckedEngines(priority: int, p: int, q: int): seq<Engine> {
    [] + [Full("a", "match", priority)] + [Full("b", "other", priority)] + [Taken("c", "x", p)] + [Taken("d", "y", q)]
  }

  lemma UncheckedSurvey(priority: int, p: int, q: int)
    ensures var es := UncheckedEngines(priority, p, q);
      && Stated(es)
      && SurveyOf(es) == Survey(1, priority, 2, [], [TakenNode("c", "x", p), TakenNode("d", "y", q)])
  {
    var e0: seq<Engine> := [];
    var e1 := e0 + [Full("a", "match", priority)];
    var e2 := e1 + [Full("b", "other", priority)];
    var e3 := e2 + [Taken("c", "x", p)];
    SurveyFull(e0, "a", "match", priority);
    SurveyFull(e1, "b", "other", priority);
    SurveyTaken(e2, "c", "x", p);
    SurveyTaken(e3, "d", "y", q);
  }

  /** When two are asked for, nothing is missing, and that container is destroyed all the same. */
  lemma UncheckedNodeSeized(priority: int, p: int, q: int)
    requires q <= priority < p
    ensures var es := UncheckedEngines(priority, p, q);
      Stated(es) && SurveyOf(es).priority == priority && Chosen("y", Discard, q, false) in Plan(es, 2)
  {
    UncheckedSurvey(priority, p, q);
    var s := SurveyOf(UncheckedEngines(priority, p, q));
    SurveyFit(UncheckedEngines(priority, p, q));
    FitScanned(s);
    SecondKept(s, priority, p, q);
    PlanDowns(s.free, s.pool, s.count, 2, LotsOf(s), s.priority, Chosen("y", Discard, q, false));
  }

  lemma SecondKept(s: Survey, priority: int, p: int, q: int)
    requires s == Survey(1, priority, 2, [], [TakenNode("c", "x", p), TakenNode("d", "y", q)]) && p > priority
    ensures TakenNode("d", "y", q) in Kept(s.free, s.pool, s.count, 2, LotsOf(s), s.priority)
    ensures Filled(s.free, s.pool, s.count, 2, LotsOf(s), s.priority) == []
  {
    var pool := s.pool;
    assert !Blocked(pool[0], priority);
    assert Ceiling(2, 1) == 2;
    assert Needed(s.free, 2, 1) == 2;
    VisitLeaves(pool, 2, 2, 1, priority);
    var t := Visit(pool, 2, 2, 1, priority);
    assert t.visited == 1;
    assert t.nodes[1] == pool[1];
    assert Kept(s.free, pool, 2, 2, 1, priority)[1] == pool[1];
  }

  /** Without a match there is no container to copy: planning panics when a node would be given one. */
  ghost predicate NothingToCopy(s: Survey, number: nat) {
    && s.count == 0 && number > 0
    && (s.free != [] || !AllBlocked(s.pool, s.priority))
  }

  /** A tour of which `done` is known: `rest` is what remains. */
  ghost predicate Ahead(t: Tour, done: seq<SeizeNode>, refused: int, rest: Tour) {
    t.nodes == done + rest.nodes && t.count == rest.count && t.refused == refused + rest.refused
  }

  lemma TourStep(pool: seq<SeizeNode>, i: nat, count: nat, number: nat, lots: int, priority: int,
                 t: Tour, done: seq<SeizeNode>, refused: int)
    requires i < |pool| && Ahead(t, done, refused, Visit(pool[i..], count, number, lots, priority))
    ensures var first := First(pool[i], count, number, lots, priority);
            var now := Now(pool[i], count, number, lots, priority);
            var more := if Blocked(pool[i], priority) then refused + 1 else refused;
            if now >= number then t.nodes == done + [first] + pool[i + 1..] && t.count == now && t.refused == more
            else Ahead(t, done + [first], more, Visit(pool[i + 1..], now, number, lots, priority))
  {
    var here := pool[i..];
    assert here != [] && here[0] == pool[i] && here[1..] == pool[i + 1..];
    var first, now := First(pool[i], count, number, lots, priority), Now(pool[i], count, number, lots, priority);
    var rest := Visit(pool[i + 1..], now, number, lots, priority);
    if now >= number {
      assert done + ([first] + pool[i + 1..]) == done + [first] + pool[i + 1..];
    } else {
      assert done + ([first] + rest.nodes) == done + [first] + rest.nodes;
    }
  }

  lemma BlockedStep(pool: seq<SeizeNode>, i: nat, priority: int)
    requires i < |pool|
    ensures AllBlocked(pool[i..], priority) <==> Blocked(pool[i], priority) && AllBlocked(pool[i + 1..], priority)
  {
    assert pool[i..][0] == pool[i] && pool[i..][1..] == pool[i + 1..];
  }

  lemma WorkStep(pool: seq<SeizeNode>, i: nat, count: nat, number: nat, lots: int, done: seq<SeizeNode>)
    requires i < |pool|
    ensures var now := count + Room(|pool[i].scaleUp|, count, number, lots);
      && done + WorkAll(pool[i..], count, number, lots)
         == done + [Worked(pool[i], count, number, lots)] + WorkAll(pool[i + 1..], now, number, lots)
      && CountAll(pool[i..], count, number, lots) == CountAll(pool[i + 1..], now, number, lots)
  {
    var here := pool[i..];
    assert here != [] && here[0] == pool[i] && here[1..] == pool[i + 1..];
  }

  lemma Replaced(nodes: seq<SeizeNode>, pool: seq<SeizeNode>, i: nat, n: SeizeNode)
    requires i < |nodes| == |pool| && nodes[i..] == pool[i..]
    ensures nodes[i] == pool[i] == pool[i..][0] && pool[i..][1..] == pool[i + 1..]
    ensures nodes[i := n][..i + 1] == nodes[..i] + [n] && nodes[i := n][i + 1..] == pool[i + 1..]
    ensures nodes[i := n] == nodes[..i] + [n] + pool[i + 1..]
  {
    assert nodes[i] == nodes[i..][0];
    assert nodes[i + 1..] == nodes[i..][1..];
  }

  /** The container that is copied: the first match, unless one is known already. */
  function FirstUp(known: Option<Chosen>, cs: seq<Running>): Option<Chosen> {
    if cs == [] then known
    else
      var front, last := FirstUp(known, cs[..|cs| - 1]), cs[|cs| - 1];
      if front == None && last.up then Some(Chosen(last.id, Create, last.priority, false)) else front
  }

  function TemplateOf(es: seq<Engine>): Option<Chosen> {
    if es == [] then None
    else
      var front, last := TemplateOf(es[..|es| - 1]), es[|es| - 1];
      if last.admitted then FirstUp(front, last.containers) else front
  }

  class SeizeResourceFilter {
    const number: nat
    var appLots: int
    var scaleUpAppPriority: int
    var scaleUpedCount: nat
    var needFreeEngineNumber: int
    var createContainer: Option<Chosen>
    var nodesPool: seq<SeizeNode>
    var freeNodesPool: seq<SeizeNode>
    var filterOutContainers: seq<Chosen>

    constructor (number: int)
      ensures this.number == if number < 0 then -number else number
      ensures appLots == UNSET && scaleUpAppPriority == DEFAULT_PRIORITY && scaleUpedCount == 0 == needFreeEngineNumber
      ensures createContainer == None && nodesPool == [] == freeNodesPool && filterOutContainers == []
    {
      this.number := if number < 0 then -number else number;
      appLots, scaleUpAppPriority, scaleUpedCount, needFreeEngineNumber := UNSET, DEFAULT_PRIORITY, 0, 0;
      createContainer, nodesPool, freeNodesPool, filterOutContainers := None, [], [], [];
    }

    /** There is a container to copy as soon as there was a match. */
    ghost predicate Remembers()
      reads this`createContainer, this`scaleUpedCount
    {
      createContainer == None <==> scaleUpedCount == 0
    }

    /** filterNodeContainers: one running container of a node. */
    method FilterNodeContainers(n: SeizeNode, c: Running) returns (m: SeizeNode)
      requires Remembers()
      modifies this`appLots, this`scaleUpAppPriority, this`scaleUpedCount, this`createContainer
      ensures Look(m, appLots, scaleUpAppPriority, scaleUpedCount)
              == Take(Look(n, old(appLots), old(scaleUpAppPriority), old(scaleUpedCount)), c)
      ensures Remembers()
      ensures createContainer == if old(createContainer) == None && c.up
                                 then Some(Chosen(c.id, Create, c.priority, false)) else old(createContainer)
    {
      m := n;
      if c.up {
        var chosen := Chosen(c.id, Create, c.priority, false);
        m := m.(scaleUp := m.scaleUp + [chosen]);
        if c.lots != UNSET && appLots == UNSET {
          appLots := c.lots;
        }
        if chosen.priority != DEFAULT_PRIORITY && scaleUpAppPriority == DEFAULT_PRIORITY {
          scaleUpAppPriority := chosen.priority;
        }
        if createContainer == None {
          createContainer := Some(chosen);
        }
        m := m.(alreadyHasFree := m.alreadyHasFree + 1, isFree := true);
        if |m.scaleUp| >= appLots && |m.scaleUp| != 0 {
          m := m.(isFree := false, alreadyHasFree := 0);
        }
        scaleUpedCount := scaleUpedCount + 1;
      }
      if c.down {
        m := m.(scaleDown := m.scaleDown + [Chosen(c.id, Discard, c.priority, false)], isFree := false);
      }
    }

    /** The containers of one engine. */
    method ScanEngine(e: Engine) returns (n: SeizeNode)
      requires Remembers()
      modifies this`appLots, this`scaleUpAppPriority, this`scaleUpedCount, this`createContainer
      ensures Look(n, appLots, scaleUpAppPriority, scaleUpedCount)
              == TakeAll(Look(Fresh(e.name), old(appLots), old(scaleUpAppPriority), old(scaleUpedCount)), e.containers)
      ensures Remembers() && createContainer == FirstUp(old(createContainer), e.containers)
    {
      n := SeizeNode(e.name, [], [], true, false, -1);
      ghost var l := Look(n, appLots, scaleUpAppPriority, scaleUpedCount);
      for i := 0 to |e.containers|
        invariant Look(n, appLots, scaleUpAppPriority, scaleUpedCount) == TakeAll(l, e.containers[..i])
        invariant Remembers() && createContainer == FirstUp(old(createContainer), e.containers[..i])
      {
        assert e.containers[..i + 1][..i] == e.containers[..i];
        n := FilterNodeContainers(n, e.containers[i]);
      }
      assert e.containers[..|e.containers|] == e.containers;
    }

    ghost function Surveyed(): Survey
      reads this
    {
      Survey(appLots, scaleUpAppPriority, scaleUpedCount, freeNodesPool, nodesPool)
    }

    /** The first loop of Filter. */
    method ScanEngines(engines: seq<Engine>)
      requires Surveyed() == SurveyOf([]) && createContainer == None
      modifies this`appLots, this`scaleUpAppPriority, this`scaleUpedCount, this`createContainer,
               this`nodesPool, this`freeNodesPool
      ensures Surveyed() == SurveyOf(engines) && Remembers() && createContainer == TemplateOf(engines)
    {
      for i := 0 to |engines|
        invariant Surveyed() == SurveyOf(engines[..i]) && Remembers() && createContainer == TemplateOf(engines[..i])
      {
        assert engines[..i + 1][..i] == engines[..i];
        if engines[i].admitted {
          var n := ScanEngine(engines[i]);
          if n.isFree {
            freeNodesPool := freeNodesPool + [n];
          } else if n.alreadyHasFree != 0 {
            nodesPool := nodesPool + [n];
          }
        }
      }
      assert engines[..|engines|] == engines;
    }

    /** CreateTaskFilter.DoContainers; without a match there is nothing to copy, and copying panics. */
    method DoContainers(n: SeizeNode) returns (ok: bool, m: SeizeNode)
      modifies this`scaleUpedCount
      ensures ok <==> createContainer.Some? || Room(|n.scaleUp|, old(scaleUpedCount), number, appLots) == 0
      ensures ok ==> m == Worked(n, old(scaleUpedCount), number, appLots)
      ensures ok ==> scaleUpedCount == old(scaleUpedCount) + Room(|n.scaleUp|, old(scaleUpedCount), number, appLots)
      ensures !ok ==> scaleUpedCount == old(scaleUpedCount)
    {
      m := n;
      var length, needs := |n.scaleUp|, 0;
      if appLots - length < number - scaleUpedCount {
        needs := appLots - length;
      } else {
        needs := number - scaleUpedCount;
      }
      var i := 0;
      assert n.scaleUp + Repeat(n.engine, 0) == n.scaleUp;
      while i < needs
        invariant 0 <= i <= Max(0, needs)
        invariant i > 0 ==> createContainer.Some?
        invariant scaleUpedCount == old(scaleUpedCount) + i && m == n.(scaleUp := n.scaleUp + Repeat(n.engine, i))
      {
        if scaleUpedCount >= number {
          break;
        }
        if createContainer == None {
          return false, m;
        }
        assert n.scaleUp + Repeat(n.engine, i + 1) == n.scaleUp + Repeat(n.engine, i) + [CopyOn(n.engine)];
        m := m.(scaleUp := m.scaleUp + [CopyOn(n.engine)]);
        scaleUpedCount := scaleUpedCount + 1;
        i := i + 1;
      }
      ok := true;
    }

    /** The inner loop of doPriority. */
    method Refuse(n: SeizeNode) returns (m: SeizeNode)
      ensures m == if Blocked(n, scaleUpAppPriority) then Cleared(n) else n
    {
      m := n;
      for i := 0 to |n.scaleDown|
        invariant m == n && forall k | 0 <= k < i :: n.scaleDown[k].priority > scaleUpAppPriority
      {
        if n.scaleDown[i].priority <= scaleUpAppPriority {
          m := m.(scaleUp := [], scaleDown := [], cantSeize := true);
          assert n.scaleDown[i] in n.scaleDown;
          break;
        }
      }
    }

    /** Nothing to copy means that no match was seen on these nodes. */
    ghost predicate Unmatched(nodes: seq<SeizeNode>)
      reads this`createContainer, this`scaleUpedCount, this`appLots
    {
      createContainer == None ==> scaleUpedCount == 0 && appLots > 0 && forall n | n in nodes :: n.scaleUp == []
    }

    /** One round of doPriority. */
    method VisitNode(n: SeizeNode) returns (ok: bool, m: SeizeNode)
      requires !n.cantSeize && needFreeEngineNumber >= 0
      modifies this`scaleUpedCount, this`needFreeEngineNumber
      ensures ok <==> Blocked(n, scaleUpAppPriority) || createContainer.Some?
                      || Room(|n.scaleUp|, old(scaleUpedCount), number, appLots) == 0
      ensures ok ==>
        && m == First(n, old(scaleUpedCount), number, appLots, scaleUpAppPriority)
        && scaleUpedCount == Now(n, old(scaleUpedCount), number, appLots, scaleUpAppPriority)
        && needFreeEngineNumber == old(needFreeEngineNumber) + if Blocked(n, scaleUpAppPriority) then 1 else 0
      ensures !ok ==> scaleUpedCount == old(scaleUpedCount)
    {
      m := Refuse(n);
      ok := true;
      if !m.cantSeize {
        ok, m := DoContainers(m);
      } else {
        needFreeEngineNumber := needFreeEngineNumber + 1;
      }
    }

    /** The loop of doPriority, which ends early once enough containers are accounted for. */
    method VisitNodes() returns (ok: bool)
      requires needFreeEngineNumber >= 0 && Unmatched(nodesPool) && (nodesPool != [] ==> number > 0)
      requires forall n | n in nodesPool :: !n.cantSeize
      modifies this`nodesPool, this`scaleUpedCount, this`needFreeEngineNumber
      ensures ok <==> createContainer.Some? || AllBlocked(old(nodesPool), scaleUpAppPriority)
      ensures createContainer == None ==> scaleUpedCount == 0
      ensures ok ==> Ahead(Visit(old(nodesPool), old(scaleUpedCount), number, appLots, scaleUpAppPriority), nodesPool,
                           needFreeEngineNumber - old(needFreeEngineNumber), Tour([], scaleUpedCount, 0, 0))
    {
      ghost var pool, need := nodesPool, needFreeEngineNumber;
      ghost var t := Visit(nodesPool, scaleUpedCount, number, appLots, scaleUpAppPriority);
      assert pool[0..] == pool;
      for i := 0 to |nodesPool|
        invariant |nodesPool| == |pool| && nodesPool[i..] == pool[i..] && need <= needFreeEngineNumber
        invariant Ahead(t, nodesPool[..i], needFreeEngineNumber - need,
                        Visit(pool[i..], scaleUpedCount, number, appLots, scaleUpAppPriority))
        invariant createContainer == None ==>
                    && scaleUpedCount == 0
                    && (AllBlocked(pool, scaleUpAppPriority) <==> AllBlocked(pool[i..], scaleUpAppPriority))
      {
        assert nodesPool[i] == nodesPool[i..][0] == pool[i..][0] == pool[i] && pool[i] in pool;
        TourStep(pool, i, scaleUpedCount, number, appLots, scaleUpAppPriority, t, nodesPool[..i],
                 needFreeEngineNumber - need);
        BlockedStep(pool, i, scaleUpAppPriority);
        var done, n := VisitNode(nodesPool[i]);
        if !done {
          return false;
        }
        Replaced(nodesPool, pool, i, n);
        nodesPool := nodesPool[i := n];
        if scaleUpedCount >= number {
          return true;
        }
      }
      assert nodesPool[..|pool|] == nodesPool && pool[|pool|..] == [];
      ok := true;
    }

    /** doPriority visits the nodes one after the other, then cuts the list. */
    method DoPriority() returns (ok: bool)
      requires needFreeEngineNumber >= 0 && Unmatched(nodesPool) && (nodesPool != [] ==> number > 0)
      requires forall n | n in nodesPool :: !n.cantSeize
      modifies this`nodesPool, this`scaleUpedCount, this`needFreeEngineNumber
      ensures ok <==> createContainer.Some? || AllBlocked(old(nodesPool), scaleUpAppPriority)
      ensures createContainer == None ==> scaleUpedCount == 0
      ensures ok ==>
        var t := Visit(old(nodesPool), old(scaleUpedCount), number, appLots, scaleUpAppPriority);
        && scaleUpedCount == t.count && needFreeEngineNumber == old(needFreeEngineNumber) + t.refused
        && nodesPool == Cut(t.nodes, needFreeEngineNumber)
    {
      ok := VisitNodes();
      if ok && needFreeEngineNumber < |nodesPool| {
        nodesPool := nodesPool[..needFreeEngineNumber];
      }
    }

    /** The loop of Filter over the free nodes. */
    method WorkFreeNodes() returns (ok: bool)
      requires Unmatched(freeNodesPool)
      modifies this`freeNodesPool, this`scaleUpedCount
      ensures ok <==> createContainer.Some? || number == 0 || old(freeNodesPool) == []
      ensures ok ==> freeNodesPool == WorkAll(old(freeNodesPool), old(scaleUpedCount), number, appLots)
      ensures ok ==> scaleUpedCount == CountAll(old(freeNodesPool), old(scaleUpedCount), number, appLots)
    {
      ghost var free, all, total := freeNodesPool, WorkAll(freeNodesPool, scaleUpedCount, number, appLots),
                                    CountAll(freeNodesPool, scaleUpedCount, number, appLots);
      for i := 0 to |freeNodesPool|
        invariant |freeNodesPool| == |free| && freeNodesPool[i..] == free[i..]
        invariant all == freeNodesPool[..i] + WorkAll(free[i..], scaleUpedCount, number, appLots)
        invariant total == CountAll(free[i..], scaleUpedCount, number, appLots)
        invariant createContainer == None ==> scaleUpedCount == 0 && (i == 0 || number == 0)
      {
        assert freeNodesPool[i] == freeNodesPool[i..][0] == free[i..][0] == free[i];
        assert free[i] in free;
        WorkStep(free, i, scaleUpedCount, number, appLots, freeNodesPool[..i]);
        var done, m := DoContainers(freeNodesPool[i]);
        if !done {
          return false;
        }
        Replaced(freeNodesPool, free, i, m);
        freeNodesPool := freeNodesPool[i := m];
      }
      assert freeNodesPool[..|free|] == freeNodesPool;
      ok := true;
    }

    method Send(cs: seq<Chosen>)
      modifies this`filterOutContainers
      ensures filterOutContainers == old(filterOutContainers) + cs
    {
      for i := 0 to |cs|
        invariant filterOutContainers == old(filterOutContainers) + cs[..i]
      {
        filterOutContainers := filterOutContainers + [cs[i]];
      }
    }

    /** The loop over the free nodes, which ends early once more is sent than is asked for. */
    method SendFree() returns (sated: bool)
      requires filterOutContainers == []
      modifies this`filterOutContainers
      ensures filterOutContainers == EmitFree(freeNodesPool, 0, number) && (sated <==> Sated(freeNodesPool, 0, number))
    {
      var temp := 0;
      assert freeNodesPool[0..] == freeNodesPool;
      for i := 0 to |freeNodesPool|
        invariant temp >= 0
        invariant EmitFree(freeNodesPool, 0, number) == filterOutContainers + EmitFree(freeNodesPool[i..], temp, number)
        invariant Sated(freeNodesPool, 0, number) <==> Sated(freeNodesPool[i..], temp, number)
      {
        if temp > number {
          return true;
        }
        assert freeNodesPool[i..][0] == freeNodesPool[i] && freeNodesPool[i..][1..] == freeNodesPool[i + 1..];
        Send(freeNodesPool[i].scaleUp);
        temp := temp + |freeNodesPool[i].scaleUp|;
      }
      assert freeNodesPool[|freeNodesPool|..] == [];
      sated := false;
    }

    method SendPool()
      modifies this`filterOutContainers
      ensures filterOutContainers == old(filterOutContainers) + EmitPool(nodesPool)
    {
      ghost var all := filterOutContainers + EmitPool(nodesPool);
      assert nodesPool[0..] == nodesPool;
      for i := 0 to |nodesPool|
        invariant all == filterOutContainers + EmitPool(nodesPool[i..])
      {
        assert nodesPool[i..][0] == nodesPool[i] && nodesPool[i..][1..] == nodesPool[i + 1..];
        ghost var sent := filterOutContainers;
        Send(nodesPool[i].scaleDown);
        Send(nodesPool[i].scaleUp);
        assert filterOutContainers == sent + (nodesPool[i].scaleDown + nodesPool[i].scaleUp);
      }
      assert nodesPool[|nodesPool|..] == [];
    }

    /** reorganizeContainers: the tasks of the free nodes, then those of the nodes that were kept. */
    method ReorganizeContainers()
      requires filterOutContainers == []
      modifies this`filterOutContainers
      ensures filterOutContainers == Emit(freeNodesPool, nodesPool, number)
    {
      var sated := SendFree();
      if sated {
        return;
      }
      SendPool();
    }

    /** Nothing is free to seize when the free nodes suffice; otherwise as many nodes are needed as the rest fills. */
    method Choose()
      requires needFreeEngineNumber == 0 && (appLots == UNSET || appLots > 0)
      modifies this`appLots, this`nodesPool, this`needFreeEngineNumber
      ensures appLots == LotsOf(old(Surveyed()))
      ensures nodesPool == Candidates(freeNodesPool, old(nodesPool), number, appLots)
      ensures appLots > 0 && needFreeEngineNumber == Needed(freeNodesPool, number, appLots)
    {
      if appLots == UNSET {
        appLots := DEFAULT_APP_LOTS;
      }
      if |freeNodesPool| * appLots >= number {
        nodesPool := [];
      } else {
        needFreeEngineNumber := Ceiling(number, appLots) - |freeNodesPool|;
      }
    }

    /** The decision between the scan and the tour. */
    method Prepare()
      requires Fit(Surveyed()) && Remembers() && needFreeEngineNumber == 0
      modifies this`appLots, this`nodesPool, this`needFreeEngineNumber
      ensures appLots == LotsOf(old(Surveyed())) > 0 && Unmatched(freeNodesPool)
      ensures Unmatched(nodesPool) && (nodesPool != [] ==> number > 0) && forall n | n in nodesPool :: !n.cantSeize
      ensures nodesPool == Candidates(freeNodesPool, old(nodesPool), number, appLots)
      ensures needFreeEngineNumber == Needed(freeNodesPool, number, appLots)
    {
      ghost var pool := nodesPool;
      Choose();
      assert forall n | n in nodesPool :: n in pool;
      assert Small(pool, scaleUpedCount) && Small(freeNodesPool, scaleUpedCount);
      assert forall n | n in pool :: Seen(n) && |n.scaleUp| <= scaleUpedCount;
      assert forall n | n in freeNodesPool :: Seen(n) && |n.scaleUp| <= scaleUpedCount;
    }

    /** What Filter does with the nodes that are not free. */
    method SeizeNodes(ghost s: Survey) returns (ok: bool)
      requires freeNodesPool == s.free && scaleUpedCount == s.count && scaleUpAppPriority == s.priority
      requires appLots == LotsOf(s) > 0 && nodesPool == Candidates(s.free, s.pool, number, appLots)
      requires Unmatched(nodesPool) && (nodesPool != [] ==> number > 0) && Remembers()
      requires forall n | n in nodesPool :: !n.cantSeize
      requires needFreeEngineNumber == Needed(s.free, number, appLots)
      modifies this`nodesPool, this`scaleUpedCount, this`needFreeEngineNumber
      ensures createContainer == None ==> scaleUpedCount == 0
      ensures ok <==> s.count > 0 || AllBlocked(Candidates(s.free, s.pool, number, LotsOf(s)), s.priority)
      ensures ok ==> nodesPool == Kept(s.free, s.pool, s.count, number, LotsOf(s), s.priority)
                     && scaleUpedCount == TourOf(s.free, s.pool, s.count, number, LotsOf(s), s.priority).count
    {
      ok := DoPriority();
    }

    method SeizeNeeded() returns (ok: bool)
      requires Fit(Surveyed()) && Remembers() && needFreeEngineNumber == 0
      modifies this`appLots, this`nodesPool, this`scaleUpedCount, this`needFreeEngineNumber
      ensures var s := old(Surveyed());
        && appLots == LotsOf(s) && Unmatched(s.free)
        && (ok <==> s.count > 0 || AllBlocked(Candidates(s.free, s.pool, number, LotsOf(s)), s.priority))
        && (ok ==> nodesPool == Kept(s.free, s.pool, s.count, number, LotsOf(s), s.priority)
                   && scaleUpedCount == TourOf(s.free, s.pool, s.count, number, LotsOf(s), s.priority).count)
    {
      ghost var s := Surveyed();
      Prepare();
      ok := SeizeNodes(s);
    }

    /** What Filter does after the scan. */
    method PlanScanned() returns (ok: bool)
      requires Fit(Surveyed()) && Remembers() && needFreeEngineNumber == 0 && filterOutContainers == []
      modifies this`appLots, this`nodesPool, this`scaleUpedCount, this`needFreeEngineNumber, this`freeNodesPool,
               this`filterOutContainers
      ensures ok <==> !NothingToCopy(old(Surveyed()), number)
      ensures ok ==> filterOutContainers == PlanOf(old(Surveyed()), number)
    {
      ok := SeizeNeeded();
      if ok {
        ok := WorkFreeNodes();
      }
      if ok {
        ReorganizeContainers();
      }
    }

    /** Filter. */
    method Filter(engines: seq<Engine>) returns (ok: bool)
      requires Stated(engines)
      requires Surveyed() == SurveyOf([]) && createContainer == None
      requires needFreeEngineNumber == 0 && filterOutContainers == []
      modifies this
      ensures ok <==> !NothingToCopy(SurveyOf(engines), number)
      ensures ok ==> filterOutContainers == Plan(engines, number)
      ensures createContainer == TemplateOf(engines)
    {
      ScanEngines(engines);
      SurveyFit(engines);
      ok := PlanScanned();
    }
  }
}
