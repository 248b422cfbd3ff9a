/** How a plan that seizes nodes gets into the task queue. */
module SeizeJobs {
  import opened Options
  import opened Seize
  import opened SeizePlans
  import opened Containers
  import opened Rings
  import opened RoundRobin
  import opened TaskQueue
  import Scaling

  const DESTROY_CONTAINER := 1
  const STOP_CONTAINER := 3

  /** What the planner's names stand for: running containers by their IDs, and the copy bound to an engine by the name
      of that engine. `stop` says whether the item stops what has to go instead of destroying it. */
  datatype Names = Names(running: string -> Container, copy: string -> Container, stop: bool)

  function JobOf(c: Chosen, names: Names): Scaling.Job {
    Scaling.Job(
      if c.added then names.copy(c.id) else names.running(c.id),
      if c.taskType.Create? then Scaling.CREATE_CONTAINER
      else if names.stop then STOP_CONTAINER else DESTROY_CONTAINER)
  }

  /** What is to be created is a create task, what has to go a stop or a destroy task; the container is the running one
      of that ID or the copy for that engine. */
  lemma JobIs(c: Chosen, names: Names)
    ensures JobOf(c, names).taskType == match c.taskType case Create => 0 case Discard => if names.stop then 3 else 1
    ensures JobOf(c, names).container == if c.added then names.copy(c.id) else names.running(c.id)
  {
  }

  function JobsOf(cs: seq<Chosen>, names: Names): (jobs: seq<Scaling.Job>)
    ensures |jobs| == |cs| && forall i | 0 <= i < |cs| :: jobs[i] == JobOf(cs[i], names)
  {
    seq(|cs|, i requires 0 <= i < |cs| => JobOf(cs[i], names))
  }

  /** How many tasks of a queue create a container. */
  ghost function Creating(ts: seq<Task>): nat {
    if ts == [] then 0 else (if ts[0].taskType == Scaling.CREATE_CONTAINER then 1 else 0) + Creating(ts[1..])
  }

  lemma {:induction false} CreatingConcat(ts: seq<Task>, us: seq<Task>)
    ensures Creating(ts + us) == Creating(ts) + Creating(us)
  {
    if ts == [] {
      assert ts + us == us;
    } else {
      CreatingConcat(ts[1..], us);
      assert (ts + us)[1..] == ts[1..] + us;
    }
  }

  lemma {:induction false} CreatingThreaded(ts: seq<Task>, c: nat, added: seq<Task>)
    requires c <= |ts|
    ensures Creating(Thread(ts, c, added)) == Creating(ts) + Creating(added)
    decreases |added|
  {
    if added != [] {
      var t := added[0];
      CreatingConcat(ts[..c], [t]);
      CreatingConcat(ts[..c] + [t], ts[c..]);
      CreatingConcat(ts[..c], ts[c..]);
      assert ts == ts[..c] + ts[c..];
      assert Creating([t]) + Creating(added[1..]) == Creating(added);
      CreatingThreaded(InsertAt(ts, c, t), Stride(c, |ts|), added[1..]);
    }
  }

  /** The tasks for the jobs of a plan create as many containers as the plan tells to be created. */
  lemma {:induction false} CreatingIs(added: seq<Task>, cs: seq<Chosen>, names: Names)
    requires |added| == |cs|
    requires forall i | 0 <= i < |cs| :: Scaling.Job(added[i].container, added[i].taskType) == JobOf(cs[i], names)
    ensures Creating(added) == CreateTasks(cs)
  {
    if cs != [] {
      assert Scaling.Job(added[0].container, added[0].taskType) == JobOf(cs[0], names);
      CreatingIs(added[1..], cs[1..], names);
    }
  }

  lemma SeizeCalls(items: seq<Scaling.Item>, jobs: seq<Scaling.Job>)
    requires items == [Scaling.Seize(jobs)]
    ensures Scaling.CallsOfAll(items) == Scaling.Singles(jobs)
  {
    var none := items[..0];
    assert Scaling.CallsOfAll(none) == [];
    assert Scaling.CallsOfAll(items) == Scaling.CallsOfAll(none) + Scaling.CallsOf(items[0]);
  }

  lemma SinglesKept(jobs: seq<Scaling.Job>, j: Scaling.Job)
    ensures Scaling.Kept(Scaling.NoRing, Scaling.Singles(jobs), j) == multiset(jobs)[j]
  {
    var calls := Scaling.Singles(jobs);
    Scaling.KeptOrLost(calls, j);
    Scaling.NothingLost(calls, j);
    SinglesAsk(jobs, j);
  }

  /** A request that only seizes loses nothing: every job of its plans is asked for and kept. */
  lemma SeizedKept(items: seq<Scaling.Item>, jobs: seq<Scaling.Job>, j: Scaling.Job)
    requires items == [Scaling.Seize(jobs)]
    ensures Scaling.Kept(Scaling.NoRing, Scaling.CallsOfAll(items), j) == multiset(jobs)[j]
  {
    SeizeCalls(items, jobs);
    SinglesKept(jobs, j);
  }

  lemma {:induction false} SinglesAsk(jobs: seq<Scaling.Job>, j: Scaling.Job)
    ensures Scaling.AllAsked(Scaling.Singles(jobs), j) == multiset(jobs)[j]
  {
    if jobs != [] {
      var front, last := jobs[..|jobs| - 1], jobs[|jobs| - 1];
      assert jobs == front + [last];
      assert Scaling.Singles(jobs)[..|jobs| - 1] == Scaling.Singles(front);
      SinglesAsk(front, j);
    }
  }

  /** Filter of an item that seizes nodes; it panics exactly when planning does. */
  method PlanFor(engines: seq<Engine>, number: nat) returns (ok: bool, plan: seq<Chosen>)
    requires Stated(engines)
    ensures ok <==> !NothingToCopy(SurveyOf(engines), number)
    ensures ok ==> plan == Plan(engines, number)
  {
    var f := new SeizeResourceFilter(number);
    ok := f.Filter(engines);
    plan := f.filterOutContainers;
  }

  /** Its AddTasks: the queue gets one task for each container of the plan, and so creates as many containers as the
      plan tells to be created. */
  method AddTasks(q: Tasks, plan: seq<Chosen>, names: Names) returns (ghost added: seq<Task>)
    requires q.Valid()
    modifies q, q.nodes`next, q.nodes`prev
    ensures q.Valid() && |added| == |plan|
    ensures forall i | 0 <= i < |added| :: Scaling.Job(added[i].container, added[i].taskType) == JobOf(plan[i], names)
    ensures q.tasks == Thread(old(q.tasks), old(q.cursor), added)
    ensures Creating(q.tasks) == Creating(old(q.tasks)) + CreateTasks(plan)
  {
    ghost var ts, c := q.tasks, q.cursor;
    added := Scaling.AddSeized(q, JobsOf(plan, names));
    CreatingIs(added, plan, names);
    CreatingThreaded(ts, c, added);
  }

  function CreateJobs(jobs: seq<Scaling.Job>): nat {
    if jobs == [] then 0 else (if jobs[0].taskType == Scaling.CREATE_CONTAINER then 1 else 0) + CreateJobs(jobs[1..])
  }

  lemma {:induction false} CreateJobsWithout(jobs: seq<Scaling.Job>, i: nat)
    requires i < |jobs|
    ensures CreateJobs(jobs) == CreateJobs(jobs[..i] + jobs[i + 1..])
                                + if jobs[i].taskType == Scaling.CREATE_CONTAINER then 1 else 0
  {
    var rest := jobs[..i] + jobs[i + 1..];
    if i == 0 {
      assert rest == jobs[1..];
    } else {
      assert rest[1..] == jobs[1..][..i - 1] + jobs[1..][i..];
      CreateJobsWithout(jobs[1..], i - 1);
    }
  }

  lemma {:induction false} PlanJobs(cs: seq<Chosen>, names: Names)
    ensures CreateJobs(JobsOf(cs, names)) == CreateTasks(cs)
  {
    if cs != [] {
      assert JobsOf(cs, names)[1..] == JobsOf(cs[1..], names);
      PlanJobs(cs[1..], names);
    }
  }

  /** A queue with the same jobs, in whatever order, creates as many containers. */
  lemma {:induction false} SameJobs(ts: seq<Task>, jobs: seq<Scaling.Job>)
    requires forall j :: Scaling.Queued(ts, j) == multiset(jobs)[j]
    ensures Creating(ts) == CreateJobs(jobs)
  {
    if ts == [] {
      assert forall j :: Scaling.Queued(ts, j) == 0;
      assert multiset(jobs) == multiset{};
      assert |jobs| == |multiset(jobs)|;
    } else {
      var first := Scaling.Job(ts[0].container, ts[0].taskType);
      assert first in multiset(jobs) by {
        assert Scaling.Queued(ts, first) >= 1;
      }
      var i :| 0 <= i < |jobs| && jobs[i] == first;
      var rest := jobs[..i] + jobs[i + 1..];
      assert jobs == jobs[..i] + [first] + jobs[i + 1..];
      forall j ensures Scaling.Queued(ts[1..], j) == multiset(rest)[j] {
        assert Scaling.Queued(ts, j) == multiset(jobs)[j];
      }
      SameJobs(ts[1..], rest);
      CreateJobsWithout(jobs, i);
    }
  }

  lemma NeverEmpty(items: seq<Scaling.Item>, jobs: seq<Scaling.Job>)
    requires items == [Scaling.Seize(jobs)]
    ensures forall i | i in items :: !(i.Create? && i.copied == [])
  {
  }

  lemma SeizedQueue(ts: seq<Task>, items: seq<Scaling.Item>, plan: seq<Chosen>, names: Names)
    requires items == [Scaling.Seize(JobsOf(plan, names))]
    requires forall j :: Scaling.Queued(ts, j) == Scaling.Kept(Scaling.NoRing, Scaling.CallsOfAll(items), j)
    ensures forall j :: Scaling.Queued(ts, j) == multiset(JobsOf(plan, names))[j]
    ensures Creating(ts) == CreateTasks(plan)
  {
    var jobs := JobsOf(plan, names);
    forall j ensures Scaling.Queued(ts, j) == multiset(jobs)[j] {
      SeizedKept(items, jobs, j);
    }
    SameJobs(ts, jobs);
    PlanJobs(plan, names);
  }

  /** A request with one item that seizes nodes, from the engines to the end: the queue holds exactly the jobs of the
      plan, which create as many containers as the plan tells to be created, and all of them are worked off. */
  method ScaleFor(engines: seq<Engine>, number: nat, names: Names)
    returns (ok: bool, ghost ts: seq<Task>, ghost log: seq<Attempt<Task>>)
    requires Stated(engines)
    ensures ok <==> !NothingToCopy(SurveyOf(engines), number)
    ensures ok ==> (forall j :: Scaling.Queued(ts, j) == multiset(JobsOf(Plan(engines, number), names))[j])
    ensures ok ==> Creating(ts) == CreateTasks(Plan(engines, number))
    ensures ok ==> Scaling.WorkedOff(ts, log)
  {
    ts, log := [], [];
    var plan, reported;
    ok, plan := PlanFor(engines, number);
    if ok {
      var items := [Scaling.Seize(JobsOf(plan, names))];
      NeverEmpty(items, JobsOf(plan, names));
      ok, reported, ts, log := Scaling.Scale(items);
      SeizedQueue(ts, items, plan, names);
    }
  }
}
