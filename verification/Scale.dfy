/** A scale request from its items to the names it returns: what the filters hand over, what the queue takes up,
    and what becomes of it. */
module Scaling {
  import opened Options
  import opened Containers
  import opened Rings
  import opened RoundRobin
  import opened TaskQueue

  const CREATE_CONTAINER := 0
  const START_CONTAINER := 2

  datatype Job = Job(container: Container, taskType: int)

  /** A call that fills the queue: AddTasks with a list that may be nil, or AddTask with one container. */
  datatype Call = Batch(containers: Option<seq<Container>>, taskType: int) | Single(job: Job)

  ghost function Same(c: Container, taskType: int, j: Job): nat {
    if Job(c, taskType) == j then 1 else 0
  }

  /** How many tasks of a queue are for the job. */
  ghost function Queued(ts: seq<Task>, j: Job): nat {
    if ts == [] then 0 else Same(ts[0].container, ts[0].taskType, j) + Queued(ts[1..], j)
  }

  ghost function Listed(cs: seq<Container>, taskType: int, j: Job): nat {
    if cs == [] then 0 else Same(cs[0], taskType, j) + Listed(cs[1..], taskType, j)
  }

  /** How often a call asks for the job, and for how many jobs it asks. */
  ghost function Asked(c: Call, j: Job): nat {
    match c
    case Batch(cs, taskType) => if cs.Some? then Listed(cs.value, taskType, j) else 0
    case Single(job) => Same(job.container, job.taskType, j)
  }

  function Size(c: Call): nat {
    match c
    case Batch(cs, _) => if cs.Some? then |cs.value| else 0
    case Single(_) => 1
  }

  ghost function AllAsked(cs: seq<Call>, j: Job): nat {
    if cs == [] then 0 else AllAsked(cs[..|cs| - 1], j) + Asked(cs[|cs| - 1], j)
  }

  function AllSize(cs: seq<Call>): nat {
    if cs == [] then 0 else AllSize(cs[..|cs| - 1]) + Size(cs[|cs| - 1])
  }

  /** What matters about a ring: whether there is one, and whether it holds more than its head. */
  datatype Phase = NoRing | Lone | Filled

  function Next(p: Phase, c: Call): Phase {
    match c
    case Batch(cs, _) => if p.NoRing? && cs.Some? then (if cs.value == [] then Lone else Filled) else p
    case Single(_) => Filled
  }

  function PhaseAfter(p: Phase, cs: seq<Call>): Phase {
    if cs == [] then p else Next(PhaseAfter(p, cs[..|cs| - 1]), cs[|cs| - 1])
  }

  /** AddTasks adds nothing to a ring that holds only its head; AddTask does. */
  ghost function Taken(p: Phase, c: Call, j: Job): nat {
    if p.Lone? && c.Batch? then 0 else Asked(c, j)
  }

  /** How often a series of calls brings the job into the queue. */
  ghost function Kept(p: Phase, cs: seq<Call>, j: Job): nat {
    if cs == [] then 0 else Kept(p, cs[..|cs| - 1], j) + Taken(PhaseAfter(p, cs[..|cs| - 1]), cs[|cs| - 1], j)
  }

  lemma Snoc(p: Phase, cs: seq<Call>, c: Call, j: Job)
    ensures Kept(p, cs + [c], j) == Kept(p, cs, j) + Taken(PhaseAfter(p, cs), c, j)
    ensures PhaseAfter(p, cs + [c]) == Next(PhaseAfter(p, cs), c)
    ensures AllAsked(cs + [c], j) == AllAsked(cs, j) + Asked(c, j)
  {
    assert (cs + [c])[..|cs|] == cs;
  }

  lemma {:induction false} Concat(p: Phase, cs: seq<Call>, more: seq<Call>, j: Job)
    ensures Kept(p, cs + more, j) == Kept(p, cs, j) + Kept(PhaseAfter(p, cs), more, j)
    ensures PhaseAfter(p, cs + more) == PhaseAfter(PhaseAfter(p, cs), more)
    ensures AllAsked(cs + more, j) == AllAsked(cs, j) + AllAsked(more, j)
    decreases |more|
  {
    if more == [] {
      assert cs + more == cs;
    } else {
      var front, last := more[..|more| - 1], more[|more| - 1];
      assert cs + more == cs + front + [last] && more == front + [last];
      Concat(p, cs, front, j);
      Snoc(p, cs + front, last, j);
      Snoc(PhaseAfter(p, cs), front, last, j);
    }
  }

  lemma {:induction false} SizeConcat(cs: seq<Call>, more: seq<Call>)
    ensures AllSize(cs + more) == AllSize(cs) + AllSize(more)
    decreases |more|
  {
    if more == [] {
      assert cs + more == cs;
    } else {
      assert (cs + more)[..|cs + more| - 1] == cs + more[..|more| - 1];
      SizeConcat(cs, more[..|more| - 1]);
    }
  }

  lemma {:induction false} PhaseConcat(p: Phase, cs: seq<Call>, more: seq<Call>)
    ensures PhaseAfter(p, cs + more) == PhaseAfter(PhaseAfter(p, cs), more)
    decreases |more|
  {
    if more == [] {
      assert cs + more == cs;
    } else {
      assert (cs + more)[..|cs + more| - 1] == cs + more[..|more| - 1];
      PhaseConcat(p, cs, more[..|more| - 1]);
    }
  }

  // ---- What is lost ----

  predicate IsNil(c: Call) {
    c.Batch? && c.containers == None
  }

  /** The i-th call is the first one that is not given nil, and it is given an empty list. */
  predicate EmptyFirst(cs: seq<Call>, i: nat)
    requires i < |cs|
  {
    cs[i].Batch? && cs[i].containers == Some([]) && forall h | 0 <= h < i :: IsNil(cs[h])
  }

  predicate NoSingleAfter(cs: seq<Call>, i: nat) {
    forall h | i < h < |cs| :: !cs[h].Single?
  }

  /** The calls begin with an empty list, and no call of AddTask has followed. */
  ghost predicate Starved(cs: seq<Call>) {
    exists i :: 0 <= i < |cs| && EmptyFirst(cs, i) && NoSingleAfter(cs, i)
  }

  lemma {:induction false} NoRingIff(cs: seq<Call>)
    ensures PhaseAfter(NoRing, cs).NoRing? <==> forall i | 0 <= i < |cs| :: IsNil(cs[i])
  {
    if cs != [] {
      NoRingIff(cs[..|cs| - 1]);
    }
  }

  lemma {:induction false} LoneIff(cs: seq<Call>)
    ensures PhaseAfter(NoRing, cs).Lone? <==> Starved(cs)
  {
    if cs != [] {
      var front, n := cs[..|cs| - 1], |cs| - 1;
      LoneIff(front);
      NoRingIff(front);
      forall i | 0 <= i < n
        ensures EmptyFirst(cs, i) <==> EmptyFirst(front, i)
        ensures NoSingleAfter(cs, i) <==> NoSingleAfter(front, i) && !cs[n].Single?
      {
        assert cs[i] == front[i] && forall h | 0 <= h < n :: cs[h] == front[h];
      }
      assert EmptyFirst(cs, n) <==> cs[n].Batch? && cs[n].containers == Some([]) && PhaseAfter(NoRing, front).NoRing?;
      assert NoSingleAfter(cs, n);
    }
  }

  /** The k-th call hands over a list that is lost: it lies between an empty first list and the next AddTask. */
  ghost predicate Lost(cs: seq<Call>, k: nat)
    requires k < |cs|
  {
    Starved(cs[..k]) && cs[k].Batch? && Size(cs[k]) > 0
  }

  ghost function AllLost(cs: seq<Call>, j: Job): nat {
    if cs == [] then 0
    else AllLost(cs[..|cs| - 1], j) + if Lost(cs, |cs| - 1) then Asked(cs[|cs| - 1], j) else 0
  }

  /** Every job that is asked for is queued or lost. */
  lemma {:induction false} KeptOrLost(cs: seq<Call>, j: Job)
    ensures Kept(NoRing, cs, j) + AllLost(cs, j) == AllAsked(cs, j)
  {
    if cs != [] {
      KeptOrLost(cs[..|cs| - 1], j);
      LoneIff(cs[..|cs| - 1]);
    }
  }

  lemma {:induction false} AllLostCounts(cs: seq<Call>, j: Job, k: nat)
    requires k < |cs| && Lost(cs, k)
    ensures AllLost(cs, j) >= Asked(cs[k], j)
  {
    if k < |cs| - 1 {
      var front := cs[..|cs| - 1];
      assert front[..k] == cs[..k];
      AllLostCounts(front, j, k);
    }
  }

  lemma {:induction false} NothingLost(cs: seq<Call>, j: Job)
    requires forall k | 0 <= k < |cs| :: !Lost(cs, k)
    ensures AllLost(cs, j) == 0
  {
    if cs != [] {
      var front := cs[..|cs| - 1];
      forall k | 0 <= k < |front| ensures !Lost(front, k) {
        assert front[..k] == cs[..k] && !Lost(cs, k);
      }
      NothingLost(front, j);
    }
  }

  /** What a lost list asks for is short in the queue. */
  lemma LossShows(cs: seq<Call>, k: nat) returns (j: Job)
    requires k < |cs| && Lost(cs, k)
    ensures Kept(NoRing, cs, j) < AllAsked(cs, j)
  {
    j := Job(cs[k].containers.value[0], cs[k].taskType);
    assert Asked(cs[k], j) >= 1;
    AllLostCounts(cs, j, k);
    KeptOrLost(cs, j);
  }

  /** A request loses nothing exactly when no list that holds something lies between an empty first list and the
      next call of AddTask. */
  lemma AllKeptIff(cs: seq<Call>)
    ensures (forall j :: Kept(NoRing, cs, j) == AllAsked(cs, j)) <==> forall k | 0 <= k < |cs| :: !Lost(cs, k)
  {
    if k :| 0 <= k < |cs| && Lost(cs, k) {
      var j := LossShows(cs, k);
    } else {
      forall j ensures Kept(NoRing, cs, j) == AllAsked(cs, j) {
        KeptOrLost(cs, j);
        NothingLost(cs, j);
      }
    }
  }

  // ---- What an item hands over ----

  /** An item after its filter: a list to create copies of, a list to start and to fill up by copies of its
      first container, a list to destroy or stop as it is, or the jobs of a plan that seizes nodes. */
  datatype Item =
    | Create(copied: seq<Container>, number: int)
    | Start(started: Option<seq<Container>>, number: int)
    | Plain(containers: Option<seq<Container>>, taskType: int)
    | Seize(jobs: seq<Job>)

  function Times(c: Call, k: int): seq<Call> {
    if k <= 0 then [] else Times(c, k - 1) + [c]
  }

  function Singles(jobs: seq<Job>): (cs: seq<Call>)
    ensures |cs| == |jobs| && forall i | 0 <= i < |jobs| :: cs[i] == Single(jobs[i])
  {
    seq(|jobs|, i requires 0 <= i < |jobs| => Single(jobs[i]))
  }

  function FillUp(cs: Option<seq<Container>>, number: int): seq<Call> {
    if cs.Some? && cs.value != [] then Times(Batch(Some(cs.value[..1]), CREATE_CONTAINER), number - |cs.value|) else []
  }

  function CallsOf(i: Item): seq<Call> {
    match i
    case Create(cs, number) => Times(Batch(Some(cs), CREATE_CONTAINER), number)
    case Start(cs, number) => [Batch(cs, START_CONTAINER)] + FillUp(cs, number)
    case Plain(cs, taskType) => [Batch(cs, taskType)]
    case Seize(jobs) => Singles(jobs)
  }

  function CallsOfAll(items: seq<Item>): seq<Call> {
    if items == [] then [] else CallsOfAll(items[..|items| - 1]) + CallsOf(items[|items| - 1])
  }

  lemma {:induction false} TimesAsks(b: Call, k: nat, j: Job)
    ensures AllAsked(Times(b, k), j) == k * Asked(b, j)
    decreases k
  {
    if k > 0 {
      TimesAsks(b, k - 1, j);
      assert Times(b, k)[..|Times(b, k)| - 1] == Times(b, k - 1);
      OneTimeMore(k - 1, Asked(b, j));
    }
  }

  lemma {:induction false} TimesSize(b: Call, k: nat)
    ensures AllSize(Times(b, k)) == k * Size(b)
    decreases k
  {
    if k > 0 {
      TimesSize(b, k - 1);
      assert Times(b, k)[..|Times(b, k)| - 1] == Times(b, k - 1);
      OneTimeMore(k - 1, Size(b));
    }
  }

  lemma OneTimeMore(k: nat, m: nat)
    ensures (k + 1) * m == k * m + m
  {
  }

  lemma {:induction false} ListedIs(cs: seq<Container>, taskType: int, c: Container)
    ensures Listed(cs, taskType, Job(c, taskType)) == multiset(cs)[c]
  {
    if cs != [] {
      ListedIs(cs[1..], taskType, c);
      assert cs == [cs[0]] + cs[1..];
    }
  }

  /** Creating asks for `number` copies of every container of the list. */
  lemma CreateCopies(cs: seq<Container>, number: nat, c: Container)
    ensures AllAsked(CallsOf(Create(cs, number)), Job(c, CREATE_CONTAINER)) == number * multiset(cs)[c]
  {
    TimesAsks(Batch(Some(cs), CREATE_CONTAINER), number, Job(c, CREATE_CONTAINER));
    ListedIs(cs, CREATE_CONTAINER, c);
  }

  lemma CreateSize(cs: seq<Container>, number: nat)
    ensures AllSize(CallsOf(Create(cs, number))) == number * |cs|
  {
    TimesSize(Batch(Some(cs), CREATE_CONTAINER), number);
  }

  lemma FillUpSize(cs: seq<Container>, number: int)
    ensures AllSize(FillUp(Some(cs), number)) == if 0 < |cs| < number then number - |cs| else 0
  {
    if 0 < |cs| < number {
      var one := Batch(Some(cs[..1]), CREATE_CONTAINER);
      assert Size(one) == 1;
      TimesSize(one, number - |cs|);
    }
  }

  /** And those are copies of the first container. */
  lemma FillUpCopiesFirst(cs: seq<Container>, number: int, c: Container)
    ensures AllAsked(FillUp(Some(cs), number), Job(c, CREATE_CONTAINER))
            == if 0 < |cs| < number && c == cs[0] then number - |cs| else 0
  {
    if 0 < |cs| < number {
      TimesAsks(Batch(Some(cs[..1]), CREATE_CONTAINER), number - |cs|, Job(c, CREATE_CONTAINER));
      ListedIs(cs[..1], CREATE_CONTAINER, c);
      assert cs[..1] == [cs[0]];
    }
  }

  /** A list to destroy or stop is asked for as it is, once, and so are the jobs of a plan. */
  lemma PlainAsks(cs: seq<Container>, taskType: int, c: Container)
    ensures AllAsked(CallsOf(Plain(Some(cs), taskType)), Job(c, taskType)) == multiset(cs)[c]
  {
    var calls := [Batch(Some(cs), taskType)];
    assert calls[..0] == [];
    assert AllAsked(calls, Job(c, taskType)) == AllAsked([], Job(c, taskType)) + Asked(calls[0], Job(c, taskType));
    ListedIs(cs, taskType, c);
  }

  /** Starting asks for as many jobs as wanted, provided there is anything to start. */
  lemma StartFills(cs: seq<Container>, number: int)
    ensures AllSize(CallsOf(Start(Some(cs), number))) == if 0 < |cs| < number then number else |cs|
  {
    var first := Batch(Some(cs), START_CONTAINER);
    FillUpSize(cs, number);
    SizeConcat([first], FillUp(Some(cs), number));
    assert AllSize([first]) == |cs| by {
      assert [first][..0] == [];
    }
  }

  /** And it asks to start every container of the list. */
  lemma StartsAll(cs: seq<Container>, number: int, c: Container)
    ensures AllAsked(CallsOf(Start(Some(cs), number)), Job(c, START_CONTAINER)) >= multiset(cs)[c]
  {
    var first, rest := Batch(Some(cs), START_CONTAINER), FillUp(Some(cs), number);
    Concat(NoRing, [first], rest, Job(c, START_CONTAINER));
    assert [first][..0] == [];
    assert AllAsked([first], Job(c, START_CONTAINER))
           == AllAsked([], Job(c, START_CONTAINER)) + Asked(first, Job(c, START_CONTAINER));
    ListedIs(cs, START_CONTAINER, c);
  }

  // ---- The queue takes up batches ----

  lemma {:induction false} QueuedConcat(ts: seq<Task>, us: seq<Task>, j: Job)
    ensures Queued(ts + us, j) == Queued(ts, j) + Queued(us, j)
  {
    if ts == [] {
      assert ts + us == us;
    } else {
      assert (ts + us)[1..] == ts[1..] + us;
      QueuedConcat(ts[1..], us, j);
    }
  }

  lemma QueuedInsert(ts: seq<Task>, c: nat, t: Task, j: Job)
    requires c <= |ts|
    ensures Queued(InsertAt(ts, c, t), j) == Queued(ts, j) + Same(t.container, t.taskType, j)
  {
    QueuedConcat(ts[..c], [t], j);
    QueuedConcat(ts[..c] + [t], ts[c..], j);
    QueuedConcat(ts[..c], ts[c..], j);
    assert ts == ts[..c] + ts[c..];
  }

  lemma {:induction false} QueuedWeave(ts: seq<Task>, c: nat, batch: seq<Task>, j: Job)
    requires c <= |ts|
    ensures Queued(Weave(ts, c, batch), j) == Queued(ts, j) + Queued(batch, j)
    ensures |Weave(ts, c, batch)| == |ts| + |batch|
    decreases |batch|
  {
    if batch != [] {
      QueuedInsert(ts, c, batch[0], j);
      QueuedWeave(InsertAt(ts, c, batch[0]), Hop(c, |ts| + 1), batch[1..], j);
    }
  }

  lemma {:induction false} QueuedAdded(ts: seq<Task>, cs: seq<Container>, taskType: int, j: Job)
    requires |ts| == |cs| && forall i | 0 <= i < |ts| :: ts[i].container == cs[i] && ts[i].taskType == taskType
    ensures Queued(ts, j) == Listed(cs, taskType, j)
  {
    if ts != [] {
      QueuedAdded(ts[1..], cs[1..], taskType, j);
    }
  }

  lemma WeaveMembers<T>(ts: seq<T>, c: nat, batch: seq<T>)
    requires c <= |ts|
    ensures forall x | x in Weave(ts, c, batch) :: x in ts || x in batch
  {
    WeaveConserves(ts, c, batch);
    forall x | x in Weave(ts, c, batch) ensures x in ts || x in batch {
      assert x in multiset(Weave(ts, c, batch));
    }
  }

  ghost function PhaseOf(q: Tasks): Phase
    reads q
  {
    if q.head == null then NoRing else if q.tasks == [] then Lone else Filled
  }

  /** The queue took up what is kept of the calls, and is in the phase after them. */
  ghost predicate Took(now: seq<Task>, after: Phase, ts: seq<Task>, p: Phase, cs: seq<Call>) {
    after == PhaseAfter(p, cs) && forall j :: Queued(now, j) == Queued(ts, j) + Kept(p, cs, j)
  }

  lemma TookMore(last: seq<Task>, r: Phase, now: seq<Task>, q: Phase, ts: seq<Task>, p: Phase, cs: seq<Call>,
                 more: seq<Call>)
    requires Took(now, q, ts, p, cs) && Took(last, r, now, q, more)
    ensures Took(last, r, ts, p, cs + more)
  {
    assert PhaseAfter(p, cs + more) == PhaseAfter(PhaseAfter(p, cs), more) by {
      PhaseConcat(p, cs, more);
    }
    forall j ensures Queued(last, j) == Queued(ts, j) + Kept(p, cs + more, j) {
      Concat(p, cs, more, j);
    }
  }

  lemma TookOne(now: seq<Task>, ts: seq<Task>, p: Phase, c: Call)
    requires forall j :: Queued(now, j) == Queued(ts, j) + Taken(p, c, j)
    ensures Took(now, Next(p, c), ts, p, [c])
  {
    assert [c][..0] == [];
    forall j ensures Kept(p, [c], j) == Taken(p, c, j) {
      assert Kept(p, [], j) == 0;
    }
  }

  /** What a call adds to the queue is new, and new tasks have all their retries. */
  twostate predicate Grown(q: Tasks)
    reads q, q.tasks
  {
    && (forall k | 0 <= k < |q.nodes| :: q.nodes[k] in old(q.nodes) || fresh(q.nodes[k]))
    && (forall k | 0 <= k < |q.tasks| ::
          q.tasks[k] in old(q.tasks) || (fresh(q.tasks[k]) && q.tasks[k].retry == DEFAULT_RETRY))
  }

  /** One call of AddTasks. */
  method Enqueue(q: Tasks, b: Call)
    requires q.Valid() && b.Batch?
    modifies q, q.nodes`next, q.nodes`prev
    ensures q.Valid() && Grown(q)
    ensures Took(q.tasks, PhaseOf(q), old(q.tasks), old(PhaseOf(q)), [b])
  {
    ghost var ts, c, p := q.tasks, q.cursor, PhaseOf(q);
    ghost var added := q.AddTasks(b.containers, b.taskType);
    if b.containers.Some? && q.tasks != [] {
      forall j ensures Queued(added, j) == Asked(b, j) {
        QueuedAdded(added, b.containers.value, b.taskType, j);
      }
      if ts != [] {
        WeaveMembers(ts, c, added);
        forall j ensures Queued(q.tasks, j) == Queued(ts, j) + Queued(added, j) && q.tasks != [] {
          QueuedWeave(ts, c, added, j);
        }
      }
    }
    TookOne(q.tasks, ts, p, b);
  }

  lemma TookAgain(last: seq<Task>, r: Phase, now: seq<Task>, q: Phase, ts: seq<Task>, p: Phase, b: Call, i: nat)
    requires Took(now, q, ts, p, Times(b, i)) && Took(last, r, now, q, [b])
    ensures Took(last, r, ts, p, Times(b, i + 1))
  {
    TookMore(last, r, now, q, ts, p, Times(b, i), [b]);
  }

  lemma TookNone(ts: seq<Task>, p: Phase)
    ensures Took(ts, p, ts, p, [])
  {
  }

  /** The same list, `k` times, or not at all. */
  method EnqueueTimes(q: Tasks, b: Call, k: int)
    requires q.Valid() && b.Batch?
    modifies q, q.nodes`next, q.nodes`prev
    ensures q.Valid() && Grown(q)
    ensures Took(q.tasks, PhaseOf(q), old(q.tasks), old(PhaseOf(q)), Times(b, k))
  {
    ghost var ts, p := q.tasks, PhaseOf(q);
    TookNone(ts, p);
    if k <= 0 {
      return;
    }
    for i := 0 to k
      invariant q.Valid() && Grown(q)
      invariant Took(q.tasks, PhaseOf(q), ts, p, Times(b, i))
    {
      ghost var now, phase := q.tasks, PhaseOf(q);
      Enqueue(q, b);
      TookAgain(q.tasks, PhaseOf(q), now, phase, ts, p, b, i);
    }
  }

  method AddStart(q: Tasks, cs: Option<seq<Container>>, number: int)
    requires q.Valid()
    modifies q, q.nodes`next, q.nodes`prev
    ensures q.Valid() && Grown(q)
    ensures Took(q.tasks, PhaseOf(q), old(q.tasks), old(PhaseOf(q)), CallsOf(Start(cs, number)))
  {
    ghost var ts, p := q.tasks, PhaseOf(q);
    Enqueue(q, Batch(cs, START_CONTAINER));
    ghost var now, phase := q.tasks, PhaseOf(q);
    if cs.Some? && |cs.value| < number && cs.value != [] {
      EnqueueTimes(q, Batch(Some(cs.value[..1]), CREATE_CONTAINER), number - |cs.value|);
    } else {
      assert FillUp(cs, number) == [];
    }
    TookMore(q.tasks, PhaseOf(q), now, phase, ts, p, [Batch(cs, START_CONTAINER)], FillUp(cs, number));
  }

  /** The AddTasks of a plan that seizes nodes: one AddTask for each of its jobs. The queue is not in their order:
      `added`, which is, is threaded into it. */
  method AddSeized(q: Tasks, jobs: seq<Job>) returns (ghost added: seq<Task>)
    requires q.Valid()
    modifies q, q.nodes`next, q.nodes`prev
    ensures q.Valid() && Grown(q)
    ensures Took(q.tasks, PhaseOf(q), old(q.tasks), old(PhaseOf(q)), Singles(jobs))
    ensures |added| == |jobs| && forall i | 0 <= i < |jobs| :: Job(added[i].container, added[i].taskType) == jobs[i]
    ensures q.tasks == Thread(old(q.tasks), old(q.cursor), added)
  {
    ghost var ts, c, p := q.tasks, q.cursor, PhaseOf(q);
    added := [];
    for i := 0 to |jobs|
      invariant q.Valid() && Grown(q) && |added| == i
      invariant Took(q.tasks, PhaseOf(q), ts, p, Singles(jobs[..i]))
      invariant forall k | 0 <= k < i :: Job(added[k].container, added[k].taskType) == jobs[k]
      invariant Threaded(q.tasks, q.cursor, ts, c, added)
    {
      ghost var now, phase, cursor := q.tasks, PhaseOf(q), q.cursor;
      ghost var t := AddSingle(q, jobs[i]);
      SingleMore(q.tasks, PhaseOf(q), now, phase, ts, p, jobs, i);
      ThreadedMore(now, cursor, ts, c, added, t);
      added := added + [t];
    }
    assert jobs[..|jobs|] == jobs;
  }

  lemma SingleMore(last: seq<Task>, r: Phase, now: seq<Task>, q: Phase, ts: seq<Task>, p: Phase, jobs: seq<Job>, i: nat)
    requires i < |jobs| && Took(now, q, ts, p, Singles(jobs[..i])) && Took(last, r, now, q, [Single(jobs[i])])
    ensures Took(last, r, ts, p, Singles(jobs[..i + 1]))
  {
    TookMore(last, r, now, q, ts, p, Singles(jobs[..i]), [Single(jobs[i])]);
    assert Singles(jobs[..i + 1]) == Singles(jobs[..i]) + [Single(jobs[i])];
  }

  /** One call of AddTask. */
  method AddSingle(q: Tasks, job: Job) returns (ghost t: Task)
    requires q.Valid()
    modifies q, q.nodes`next, q.nodes`prev
    ensures q.Valid() && Grown(q) && Job(t.container, t.taskType) == job
    ensures Took(q.tasks, PhaseOf(q), old(q.tasks), old(PhaseOf(q)), [Single(job)])
    ensures q.tasks == InsertAt(old(q.tasks), old(q.cursor), t) && q.cursor == Stride(old(q.cursor), |old(q.tasks)|)
  {
    ghost var ts, c, p := q.tasks, q.cursor, PhaseOf(q);
    ghost var made := q.AddTask(Some(job.container), job.taskType);
    t := made.value;
    forall j ensures Queued(q.tasks, j) == Queued(ts, j) + Taken(p, Single(job), j) {
      QueuedInsert(ts, c, t, j);
    }
    TookOne(q.tasks, ts, p, Single(job));
  }

  /** The AddTasks of an item's filter. Creating from an empty list panics. */
  method AddItem(q: Tasks, item: Item) returns (ok: bool)
    requires q.Valid()
    modifies q, q.nodes`next, q.nodes`prev
    ensures ok <==> !(item.Create? && item.copied == [])
    ensures q.Valid() && Grown(q)
    ensures ok ==> Took(q.tasks, PhaseOf(q), old(q.tasks), old(PhaseOf(q)), CallsOf(item))
  {
    ok := true;
    match item
    case Create(cs, number) =>
      if cs == [] {
        return false;
      }
      EnqueueTimes(q, Batch(Some(cs), CREATE_CONTAINER), number);
    case Start(cs, number) => AddStart(q, cs, number);
    case Plain(cs, taskType) => Enqueue(q, Batch(cs, taskType));
    case Seize(jobs) => ghost var added := AddSeized(q, jobs);
  }

  /** The loop of Scale over the items. */
  method AddItems(q: Tasks, items: seq<Item>) returns (ok: bool)
    requires q.Valid() && q.head == null
    modifies q
    ensures ok <==> forall i | i in items :: !(i.Create? && i.copied == [])
    ensures q.Valid() && (forall k | 0 <= k < |q.nodes| :: fresh(q.nodes[k]))
    ensures forall k | 0 <= k < |q.tasks| :: fresh(q.tasks[k]) && q.tasks[k].retry == DEFAULT_RETRY
    ensures ok ==> Took(q.tasks, PhaseOf(q), [], NoRing, CallsOfAll(items))
  {
    for n := 0 to |items|
      invariant q.Valid() && (forall k | 0 <= k < |q.nodes| :: fresh(q.nodes[k]))
      invariant forall k | 0 <= k < |q.tasks| :: fresh(q.tasks[k]) && q.tasks[k].retry == DEFAULT_RETRY
      invariant Took(q.tasks, PhaseOf(q), [], NoRing, CallsOfAll(items[..n]))
      invariant forall i | i in items[..n] :: !(i.Create? && i.copied == [])
    {
      ghost var now, phase := q.tasks, PhaseOf(q);
      ok := AddItem(q, items[n]);
      if !ok {
        return;
      }
      TookMore(q.tasks, PhaseOf(q), now, phase, [], NoRing, CallsOfAll(items[..n]), CallsOf(items[n]));
      assert CallsOfAll(items[..n + 1]) == CallsOfAll(items[..n]) + CallsOf(items[n]) by {
        assert items[..n + 1][..n] == items[..n];
      }
    }
    assert items[..|items|] == items;
    ok := true;
  }

  /** Every task succeeded exactly once, after at most three failures, or failed four times. */
  ghost predicate WorkedOff(ts: seq<Task>, log: seq<Attempt<Task>>) {
    forall t | t in ts ::
      || (Successes(log, t) == 1 && Failures(log, t) <= 3)
      || (Successes(log, t) == 0 && Failures(log, t) == 4)
  }

  /** Scale: `ts` are the tasks it queues, `log` the attempts at them. The names of the containers are collected,
      but only returned together with an error, and there never is one. */
  method Scale(items: seq<Item>)
    returns (ok: bool, reported: seq<string>, ghost ts: seq<Task>, ghost log: seq<Attempt<Task>>)
    ensures ok <==> forall i | i in items :: !(i.Create? && i.copied == [])
    ensures ok ==> forall j :: Queued(ts, j) == Kept(NoRing, CallsOfAll(items), j)
    ensures ok ==> WorkedOff(ts, log) && |log| <= (DEFAULT_RETRY + 1) * |ts|
    ensures reported == []
  {
    var q := new Tasks();
    reported, log, ts := [], [], [];
    ok := AddItems(q, items);
    if !ok {
      return;
    }
    ts := q.tasks;
    ghost var entries := q.Queue();
    QueueOf(q);
    var names, failed;
    names, failed, log := q.DoTasks();
    if failed {
      reported := names;
    }
    forall t | t in ts
      ensures (Successes(log, t) == 1 && Failures(log, t) <= DEFAULT_RETRY)
              || (Successes(log, t) == 0 && Failures(log, t) == DEFAULT_RETRY + 1)
    {
      assert Entry(t, DEFAULT_RETRY) in entries;
      assert Gone(log, Entry(t, DEFAULT_RETRY));
    }
  }

  /** The queue before it is worked off. */
  lemma QueueOf(q: Tasks)
    requires q.Valid() && forall k | 0 <= k < |q.tasks| :: q.tasks[k].retry == DEFAULT_RETRY
    ensures forall t | t in q.tasks :: Entry(t, DEFAULT_RETRY) in q.Queue()
    ensures Measure(q.Queue()) == (DEFAULT_RETRY + 1) * |q.tasks|
  {
    var order := Order(q.tasks, q.cursor);
    assert |order| == |q.tasks| && forall t | t in order :: t in q.tasks;
    forall t | t in q.tasks ensures t in order {
      InOrder(q.tasks, q.cursor, t);
    }
    forall t | t in order ensures Entry(t, DEFAULT_RETRY) in Entries(order) {
      var i :| 0 <= i < |order| && order[i] == t;
      assert Entries(order)[i] == Entry(t, DEFAULT_RETRY);
    }
    assert forall i | 0 <= i < |order| :: Entries(order)[i].retry == DEFAULT_RETRY;
    SameRetries(Entries(order), DEFAULT_RETRY);
  }

  lemma InOrder<T>(ts: seq<T>, c: nat, t: T)
    requires c <= |ts| && t in ts
    ensures t in Order(ts, c)
  {
    if c > 0 {
      assert ts == ts[..c - 1] + ts[c - 1..];
    }
  }

  lemma {:induction false} SameRetries<T>(q: seq<Entry<T>>, retry: int)
    requires forall i | 0 <= i < |q| :: q[i].retry == retry
    ensures Measure(q) == (retry + 1) * |q|
  {
    if q != [] {
      SameRetries(q[1..], retry);
      assert (retry + 1) * |q| == (retry + 1) * (|q| - 1) + (retry + 1);
    }
  }

  // ---- The filter of a scale-up ----

  /** A container that may be copied, whether it passes the item's filters, and its app label. */
  datatype Template = Template(container: Container, matches: bool, app: Option<string>)

  /** The last match of an app. */
  ghost function LastMatch(cs: seq<Template>, app: string): Option<Template> {
    if cs == [] then None
    else if cs[|cs| - 1].matches && cs[|cs| - 1].app == Some(app) then Some(cs[|cs| - 1])
    else LastMatch(cs[..|cs| - 1], app)
  }

  lemma {:induction false} LastMatchIs(cs: seq<Template>, app: string, i: nat)
    requires i < |cs| && cs[i].matches && cs[i].app == Some(app)
    requires forall k | i < k < |cs| :: !(cs[k].matches && cs[k].app == Some(app))
    ensures LastMatch(cs, app) == Some(cs[i])
    decreases |cs|
  {
    if i < |cs| - 1 {
      LastMatchIs(cs[..|cs| - 1], app, i);
    }
  }

  /** One container for each app that has a match, the last one. */
  ghost predicate OnePerApp(out: seq<Template>, cs: seq<Template>) {
    && (forall c | c in out :: c.app.Some? && LastMatch(cs, c.app.value) == Some(c))
    && (forall app :: LastMatch(cs, app).Some? ==> LastMatch(cs, app).value in out)
    && (forall i, j | 0 <= i < j < |out| :: out[i].app != out[j].app)
  }

  /** The first match of a list, alone. */
  ghost predicate FirstOf(out: seq<Template>, cs: seq<Template>) {
    exists i :: 0 <= i < |cs| && out == [cs[i]] && cs[i].matches && forall k | 0 <= k < i :: !cs[k].matches
  }

  function ContainersOf(cs: seq<Template>): (r: seq<Container>)
    ensures |r| == |cs| && forall i | 0 <= i < |cs| :: r[i] == cs[i].container
  {
    seq(|cs|, i requires 0 <= i < |cs| => cs[i].container)
  }

  class CreateContainerFilter {
    var containers: seq<Template>
    const number: int

    constructor (containers: seq<Template>, number: int)
      ensures this.containers == containers && this.number == number
    {
      this.containers, this.number := containers, number;
    }

    /** filterService: one template per app, unless a match without an app label ends the selection, which leaves
        the list unfiltered. */
    method FilterService() returns (ok: bool)
      modifies this`containers
      ensures ok <==> forall c | c in old(containers) && c.matches :: c.app.Some?
      ensures if ok then OnePerApp(containers, old(containers)) else containers == old(containers)
    {
      var last: map<string, Template> := map[];
      for i := 0 to |containers|
        invariant containers == old(containers)
        invariant forall c | c in containers[..i] && c.matches :: c.app.Some?
        invariant forall app :: LastMatch(containers[..i], app) == if app in last then Some(last[app]) else None
        invariant forall app | app in last :: last[app].app == Some(app)
      {
        var c := containers[i];
        assert containers[..i + 1][..i] == containers[..i] && c in containers;
        if c.matches {
          if c.app == None {
            return false;
          }
          last := last[c.app.value := c];
        }
      }
      assert containers[..|containers|] == containers;
      var temp: seq<Template>, todo := [], last.Keys;
      while todo != {}
        invariant todo <= last.Keys && containers == old(containers)
        invariant forall c | c in temp :: c.app.Some? && c.app.value in last.Keys - todo && last[c.app.value] == c
        invariant forall app | app in last.Keys - todo :: last[app] in temp
        invariant forall i, j | 0 <= i < j < |temp| :: temp[i].app != temp[j].app
      {
        var app :| app in todo;
        temp := temp + [last[app]];
        todo := todo - {app};
      }
      containers := temp;
      ok := true;
    }

    /** filterContainers: the first match is the template; without a match the list stays unfiltered. */
    method FilterContainers() returns (ok: bool)
      modifies this`containers
      ensures ok <==> exists c :: c in old(containers) && c.matches
      ensures !ok ==> containers == old(containers)
      ensures ok ==> FirstOf(containers, old(containers))
    {
      for i := 0 to |containers|
        invariant containers == old(containers) && forall k | 0 <= k < i :: !containers[k].matches
      {
        if containers[i].matches {
          assert containers[i] in containers;
          containers := containers[i..i + 1];
          return true;
        }
      }
      ok := false;
    }

    /** The item that AddTasks hands over. */
    function ItemOf(): Item
      reads this
    {
      Create(ContainersOf(containers), number)
    }
  }

  /** A scale-up without a match is not stopped: it asks for `number` copies of every container of the cluster. */
  method NoMatchCopiesAll(cs: seq<Template>, number: nat) returns (item: Item)
    requires forall c | c in cs :: !c.matches
    ensures forall c :: AllAsked(CallsOf(item), Job(c, CREATE_CONTAINER)) == number * multiset(ContainersOf(cs))[c]
    ensures AllSize(CallsOf(item)) == number * |cs|
  {
    var f := new CreateContainerFilter(cs, number);
    var found := f.FilterContainers();
    item := f.ItemOf();
    CreateSize(ContainersOf(cs), number);
    forall c ensures AllAsked(CallsOf(item), Job(c, CREATE_CONTAINER)) == number * multiset(ContainersOf(cs))[c] {
      CreateCopies(ContainersOf(cs), number, c);
    }
  }
}
