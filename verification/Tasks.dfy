/** The task queue: a ring with a sentinel that is filled and worked off in place. */
module TaskQueue {
  import opened Options
  import opened Containers
  import opened Rings
  import opened RoundRobin

  const DEFAULT_RETRY := 3

  class Task {
    const taskType: int
    const container: Container
    var retry: int

    constructor (taskType: int, container: Container)
      ensures this.taskType == taskType && this.container == container && retry == DEFAULT_RETRY
    {
      this.taskType, this.container, this.retry := taskType, container, DEFAULT_RETRY;
    }
  }

  /** Where the cursor of a ring of n elements is after one more was linked behind it and the cursor
      moved to the element that followed. */
  function Hop(c: nat, n: nat): nat {
    if c + 1 < n then c + 2 else 0
  }

  /** The tasks behind the sentinel after a batch is linked in one by one, starting with the cursor at
      element `c` (the sentinel is element 0). */
  function Weave<T>(ts: seq<T>, c: nat, batch: seq<T>): seq<T>
    requires c <= |ts|
    decreases |batch|
  {
    if batch == [] then ts
    else Weave(InsertAt(ts, c, batch[0]), Hop(c, |ts| + 1), batch[1..])
  }

  /** Where AddTask leaves the cursor of a queue of n tasks: one element further than linking a task in does. */
  function Stride(c: nat, n: nat): nat {
    Succ(Hop(c, n + 1), n + 2)
  }

  /** The tasks after tasks are added one by one with AddTask. */
  function Thread<T>(ts: seq<T>, c: nat, added: seq<T>): seq<T>
    requires c <= |ts|
    decreases |added|
  {
    if added == [] then ts
    else Thread(InsertAt(ts, c, added[0]), Stride(c, |ts|), added[1..])
  }

  /** Where the cursor of a queue of n tasks is after k tasks were added so. */
  function Strides(c: nat, n: nat, k: nat): nat
    decreases k
  {
    if k == 0 then c else Strides(Stride(c, n), n + 1, k - 1)
  }

  lemma {:induction false} ThreadSnoc<T>(ts: seq<T>, c: nat, added: seq<T>, x: T)
    requires c <= |ts|
    ensures |Thread(ts, c, added)| == |ts| + |added| && Strides(c, |ts|, |added|) <= |ts| + |added|
    ensures Thread(ts, c, added + [x]) == InsertAt(Thread(ts, c, added), Strides(c, |ts|, |added|), x)
    ensures Strides(c, |ts|, |added| + 1) == Stride(Strides(c, |ts|, |added|), |ts| + |added|)
    decreases |added|
  {
    if added == [] {
      assert ([] + [x])[1..] == [];
    } else {
      assert (added + [x])[1..] == added[1..] + [x];
      ThreadSnoc(InsertAt(ts, c, added[0]), Stride(c, |ts|), added[1..], x);
    }
  }

  /** The queue and its cursor after the tasks were added one by one. */
  ghost predicate Threaded<T>(now: seq<T>, cursor: nat, ts: seq<T>, c: nat, added: seq<T>) {
    c <= |ts| && now == Thread(ts, c, added) && cursor == Strides(c, |ts|, |added|)
  }

  lemma ThreadedMore<T>(now: seq<T>, cursor: nat, ts: seq<T>, c: nat, added: seq<T>, x: T)
    requires Threaded(now, cursor, ts, c, added)
    ensures cursor <= |now| && Threaded(InsertAt(now, cursor, x), Stride(cursor, |now|), ts, c, added + [x])
  {
    ThreadSnoc(ts, c, added, x);
  }

  lemma {:induction false} ThreadConserves<T>(ts: seq<T>, c: nat, added: seq<T>)
    requires c <= |ts|
    ensures multiset(Thread(ts, c, added)) == multiset(ts) + multiset(added)
    decreases |added|
  {
    if added != [] {
      ThreadConserves(InsertAt(ts, c, added[0]), Stride(c, |ts|), added[1..]);
      assert ts == ts[..c] + ts[c..] && added == [added[0]] + added[1..];
    }
  }

  /** One added task before every two others, as long as there are added ones. */
  function Spread<T>(ts: seq<T>, added: seq<T>): seq<T>
    requires 2 * |added| <= |ts| + 2
  {
    if |added| <= 1 then added + ts else [added[0]] + ts[..2] + Spread(ts[2..], added[1..])
  }

  /** Adding tasks one by one puts two others between each of them and the next, for one pass around the ring. */
  lemma {:induction false} ThreadSpreads<T>(ts: seq<T>, c: nat, added: seq<T>)
    requires c <= |ts| && 2 * |added| <= |ts| - c + 2
    ensures Thread(ts, c, added) == ts[..c] + Spread(ts[c..], added)
    decreases |added|
  {
    if |added| > 1 {
      var longer := InsertAt(ts, c, added[0]);
      ThreadSpreads(longer, c + 3, added[1..]);
      assert longer[..c + 3] == ts[..c] + [added[0]] + ts[c..][..2];
      assert longer[c + 3..] == ts[c..][2..];
    } else if |added| == 1 {
      assert added[1..] == [];
    }
  }

  lemma ThreadOne<T>(ts: seq<T>, c: nat, x: T, rest: seq<T>)
    requires c <= |ts|
    ensures Thread(ts, c, [x] + rest) == Thread(InsertAt(ts, c, x), Stride(c, |ts|), rest)
  {
    assert ([x] + rest)[1..] == rest;
  }

  /** Into a queue without tasks, three tasks go in as first, third, second. */
  lemma ThreadThree<T>(a: T, b: T, c: T, none: seq<T>)
    requires none == []
    ensures Thread(none, 0, [a] + [b] + [c]) == [a] + [c] + [b]
  {
    assert [a] + [b] + [c] == [a] + ([b] + [c]) && [c] == [c] + none;
    ThreadOne(none, 0, a, [b] + [c]);
    ThreadOne([a], 1, b, [c]);
    ThreadOne([a] + [b], 1, c, none);
    assert InsertAt(none, 0, a) == [a];
    assert InsertAt([a], 1, b) == [a] + [b];
    assert InsertAt([a] + [b], 1, c) == [a] + [c] + [b];
  }

  /** Where the cursor of a ring of n elements is after k elements were linked in. */
  function Hops(c: nat, n: nat, k: nat): nat
    decreases k
  {
    if k == 0 then c else Hops(Hop(c, n), n + 1, k - 1)
  }

  lemma {:induction false} WeaveSnoc<T>(ts: seq<T>, c: nat, batch: seq<T>, x: T)
    requires c <= |ts|
    ensures |Weave(ts, c, batch)| == |ts| + |batch|
    ensures Hops(c, |ts| + 1, |batch|) <= |ts| + |batch|
    ensures Weave(ts, c, batch + [x]) == InsertAt(Weave(ts, c, batch), Hops(c, |ts| + 1, |batch|), x)
    ensures Hops(c, |ts| + 1, |batch| + 1) == Hop(Hops(c, |ts| + 1, |batch|), |ts| + |batch| + 1)
    decreases |batch|
  {
    if batch == [] {
      assert Weave(ts, c, [x]) == InsertAt(ts, c, x);
      assert batch + [x] == [x];
      assert Hops(c, |ts| + 1, 1) == Hops(Hop(c, |ts| + 1), |ts| + 2, 0);
    } else {
      WeaveSnoc(InsertAt(ts, c, batch[0]), Hop(c, |ts| + 1), batch[1..], x);
      assert (batch + [x])[1..] == batch[1..] + [x];
    }
  }

  /** No task is lost, doubled or invented, wherever the cursor stands and however long the batch. */
  lemma {:induction false} WeaveConserves<T>(ts: seq<T>, c: nat, batch: seq<T>)
    requires c <= |ts|
    ensures multiset(Weave(ts, c, batch)) == multiset(ts) + multiset(batch)
    decreases |batch|
  {
    if batch != [] {
      WeaveConserves(InsertAt(ts, c, batch[0]), Hop(c, |ts| + 1), batch[1..]);
      assert ts == ts[..c] + ts[c..];
      assert batch == [batch[0]] + batch[1..];
    }
  }

  /** One new task behind each old one, as long as there are new ones. */
  function Alternate<T>(ts: seq<T>, batch: seq<T>): seq<T>
    requires |batch| <= |ts|
  {
    if batch == [] then ts else [ts[0], batch[0]] + Alternate(ts[1..], batch[1..])
  }

  /** With the cursor just behind the sentinel, a batch that is no longer than the queue alternates with it. */
  lemma {:induction false} WeaveAlternates<T>(ts: seq<T>, c: nat, batch: seq<T>)
    requires 1 <= c <= |ts| && |batch| <= |ts| - c + 1
    ensures Weave(ts, c, batch) == ts[..c - 1] + Alternate(ts[c - 1..], batch)
    decreases |batch|
  {
    if batch != [] {
      var longer := InsertAt(ts, c, batch[0]);
      if c < |ts| {
        WeaveAlternates(longer, c + 2, batch[1..]);
        assert longer[..c + 1] == ts[..c - 1] + [ts[c - 1], batch[0]];
        assert longer[c + 1..] == ts[c - 1..][1..];
      } else {
        assert batch[1..] == [];
        assert ts[c - 1..] == [ts[c - 1]];
        assert longer == ts[..c - 1] + [ts[c - 1], batch[0]];
      }
    }
  }

  lemma {:induction false} AlternateAt<T>(ts: seq<T>, batch: seq<T>, k: nat)
    requires |batch| <= |ts|
    ensures |Alternate(ts, batch)| == |ts| + |batch|
    ensures k < |batch| ==> Alternate(ts, batch)[2 * k] == ts[k] && Alternate(ts, batch)[2 * k + 1] == batch[k]
    ensures |batch| <= k < |ts| ==> Alternate(ts, batch)[|batch| + k] == ts[k]
  {
    if batch != [] {
      AlternateAt(ts[1..], batch[1..], if k > 0 then k - 1 else 0);
    }
  }

  /** The tasks in the order in which they come up, beginning at the cursor; the sentinel is skipped. */
  function Order<T>(ts: seq<T>, c: nat): seq<T>
    requires c <= |ts|
  {
    if c == 0 then ts else ts[c - 1..] + ts[..c - 1]
  }

  function Entries(ts: seq<Task>): (q: seq<Entry<Task>>)
    reads ts
    ensures |q| == |ts| && forall i | 0 <= i < |ts| :: q[i] == Entry(ts[i], ts[i].retry)
  {
    seq(|ts|, i requires 0 <= i < |ts| reads ts => Entry(ts[i], ts[i].retry))
  }

  lemma EntriesAre(ts: seq<Task>, q: seq<Entry<Task>>)
    requires |q| == |ts| && forall i | 0 <= i < |ts| :: q[i] == Entry(ts[i], ts[i].retry)
    ensures Entries(ts) == q
  {
  }

  lemma EntriesTail(ts: seq<Task>)
    requires ts != []
    ensures Entries(ts)[1..] == Entries(ts[1..])
  {
  }

  /** Behind the sentinel, each element of the ring holds its task. */
  ghost predicate Holding(nodes: seq<Ring<Task>>, tasks: seq<Task>)
    reads nodes
  {
    && |nodes| == |tasks| + 1 && nodes[0].value == None
    && forall i {:trigger nodes[i].value} | 1 <= i < |nodes| :: nodes[i].value == Some(tasks[i - 1])
  }

  ghost predicate AllDistinct<T>(s: seq<T>) {
    forall i, j | 0 <= i < j < |s| :: s[i] != s[j]
  }

  lemma HoldingInsert(nodes: seq<Ring<Task>>, tasks: seq<Task>, c: nat, e: Ring<Task>, t: Task)
    requires Holding(nodes, tasks) && c <= |tasks| && e.value == Some(t)
    ensures Holding(InsertAt(nodes, c + 1, e), InsertAt(tasks, c, t))
  {
    var ns, ts := InsertAt(nodes, c + 1, e), InsertAt(tasks, c, t);
    forall i | 1 <= i < |ns| ensures ns[i].value == Some(ts[i - 1]) {
      if i <= c {
        assert ns[i] == nodes[i];
      } else if i > c + 1 {
        assert ns[i] == nodes[i - 1];
      }
    }
  }

  lemma HoldingRemove(nodes: seq<Ring<Task>>, tasks: seq<Task>, c: nat)
    requires Holding(nodes, tasks) && 0 < c <= |tasks|
    ensures Holding(RemoveAt(nodes, c), RemoveAt(tasks, c - 1))
  {
    var ns, ts := RemoveAt(nodes, c), RemoveAt(tasks, c - 1);
    forall i | 1 <= i < |ns| ensures ns[i].value == Some(ts[i - 1]) {
      if i < c {
        assert ns[i] == nodes[i];
      } else {
        assert ns[i] == nodes[i + 1];
      }
    }
  }

  lemma DistinctInsert<T>(s: seq<T>, i: nat, x: T)
    requires AllDistinct(s) && i <= |s| && x !in s
    ensures AllDistinct(InsertAt(s, i, x))
  {
  }

  lemma DistinctRemove<T>(s: seq<T>, i: nat)
    requires AllDistinct(s) && i < |s|
    ensures AllDistinct(RemoveAt(s, i))
  {
  }

  class Tasks {
    var head: Ring?<Task>
    var current: Ring?<Task>
    ghost var nodes: seq<Ring<Task>>
    ghost var tasks: seq<Task>
    ghost var cursor: nat

    /** One ring with one sentinel, the head; every other element holds a task of its own. */
    ghost predicate Valid()
      reads this, nodes, tasks
    {
      && (head == null ==> current == null && nodes == [] && tasks == [] && cursor == 0)
      && (head != null ==>
            && Linked(nodes) && nodes[0] == head && Holding(nodes, tasks)
            && cursor < |nodes| && current == nodes[cursor])
      && AllDistinct(tasks)
      && (forall t | t in tasks :: t.retry >= 0)
    }

    /** What the queue will try, in order. */
    ghost function Queue(): seq<Entry<Task>>
      reads this, nodes, tasks
      requires Valid()
    {
      Entries(Order(tasks, cursor))
    }

    constructor ()
      ensures Valid() && head == null
    {
      head, current, nodes, tasks, cursor := null, null, [], [], 0;
    }

    method InsertCurrent(temp: Ring<Task>, task: Task)
      requires Valid() && head != null && temp !in nodes && task !in tasks
      requires temp.next == temp.prev == temp && temp.value == Some(task) && task.retry >= 0
      modifies this`current, this`nodes, this`tasks, this`cursor, nodes`next, nodes`prev, temp`next, temp`prev
      ensures Valid() && head == old(head)
      ensures tasks == InsertAt(old(tasks), old(cursor), task)
      ensures cursor == Hop(old(cursor), |old(nodes)|) && nodes == InsertAt(old(nodes), old(cursor) + 1, temp)
    {
      ghost var c := cursor;
      current := current.LinkOne(temp, nodes, cursor);
      HoldingInsert(nodes, tasks, c, temp, task);
      DistinctInsert(tasks, c, task);
      InInsertAt(tasks, c, task);
      nodes := InsertAt(nodes, c + 1, temp);
      tasks := InsertAt(tasks, c, task);
      cursor := Hop(c, |nodes| - 1);
    }

    /** Link a new task behind the cursor; `current` becomes the element that followed it. */
    method Append(taskType: int, container: Container) returns (ghost t: Task)
      requires Valid() && head != null
      modifies this`current, this`nodes, this`tasks, this`cursor, nodes`next, nodes`prev
      ensures Valid() && head == old(head) && fresh(t)
      ensures t.taskType == taskType && t.container == container && t.retry == DEFAULT_RETRY
      ensures tasks == InsertAt(old(tasks), old(cursor), t)
      ensures cursor == Hop(old(cursor), |old(nodes)|) && |nodes| == |old(nodes)| + 1
      ensures forall k | 0 <= k < |nodes| :: nodes[k] in old(nodes) || fresh(nodes[k])
    {
      var temp := new Ring<Task>();
      var task := new Task(taskType, container);
      temp.value := Some(task);
      t := task;
      InsertCurrent(temp, task);
    }

    /** The cursor moves to the next element. */
    method Advance()
      requires Valid() && head != null
      modifies this`current, this`cursor
      ensures Valid() && cursor == Succ(old(cursor), |nodes|)
    {
      assert current.next == nodes[Succ(cursor, |nodes|)];
      current := current.next;
      cursor := Succ(cursor, |nodes|);
    }

    /** AddTask: a nil container is ignored; the first task makes the ring. The cursor steps once more. */
    method AddTask(container: Option<Container>, taskType: int) returns (ghost t: Option<Task>)
      requires Valid()
      modifies this, nodes`next, nodes`prev
      ensures Valid()
      ensures container == None ==> t == None && tasks == old(tasks) && head == old(head)
      ensures container.Some? ==> t.Some? && fresh(t.value) && t.value.container == container.value
                                  && t.value.taskType == taskType && t.value.retry == DEFAULT_RETRY
      ensures container.Some? ==>
        && head != null && tasks == InsertAt(old(tasks), old(cursor), t.value)
        && cursor == Stride(old(cursor), |old(tasks)|)
      ensures container == None ==> cursor == old(cursor)
      ensures forall k | 0 <= k < |nodes| :: nodes[k] in old(nodes) || fresh(nodes[k])
    {
      if container == None {
        return None;
      }
      if head == null {
        ghost var made;
        head, made := Ring<Task>.New(1);
        nodes, current, cursor := made, head, 0;
        assert fresh(nodes[0]) by {
          assert made[0] in made;
        }
      }
      ghost var added := Append(taskType, container.value);
      t := Some(added);
      Advance();
    }

    /** AddTasks: nil batches are ignored; a first batch makes the ring in its own order; a later batch is
        woven into the queue, unless the queue is empty: then it is dropped. */
    method AddTasks(containers: Option<seq<Container>>, taskType: int) returns (ghost added: seq<Task>)
      requires Valid()
      modifies this, nodes`next, nodes`prev
      ensures Valid()
      ensures containers == None ==> added == [] && tasks == old(tasks) && head == old(head) && cursor == old(cursor)
      ensures containers.Some? && old(head) == null ==>
        head != null && |added| == |containers.value| && tasks == added && cursor == Succ(0, |nodes|)
      ensures containers.Some? && old(head) != null && old(tasks) == [] ==>
        added == [] && tasks == [] && head == old(head) && cursor == old(cursor)
      ensures containers.Some? && old(tasks) != [] ==>
        && |added| == |containers.value| && tasks == Weave(old(tasks), old(cursor), added)
        && cursor == 1 && head == old(head)
      ensures forall k | 0 <= k < |nodes| :: nodes[k] in old(nodes) || fresh(nodes[k])
      ensures forall i | 0 <= i < |added| ::
        containers.Some? && fresh(added[i]) && i < |containers.value| && added[i].container == containers.value[i]
        && added[i].taskType == taskType && added[i].retry == DEFAULT_RETRY
    {
      added := [];
      if containers == None {
        return;
      }
      if head == null {
        added := FirstBatch(containers.value, taskType);
        return;
      }
      var n := head.Len(nodes);
      if n > 1 {
        added := LaterBatch(containers.value, taskType);
        assert head.next == nodes[Succ(0, |nodes|)];
        current := head.next;
        cursor := 1;
      }
    }

    /** Give the current element of a new ring its task and step on. */
    method Fill(e: Ring<Task>, ghost made: seq<Ring<Task>>, ghost i: nat, task: Task)
      requires Linked(made) && i < |made| && current == e == made[i]
      modifies this`current, e`value
      ensures Linked(made) && e.value == Some(task) && current == made[Succ(i, |made|)]
    {
      e.value := Some(task);
      assert e.next == made[Succ(i, |made|)];
      current := e.next;
    }

    /** The loop of AddTasks over a new ring: every element behind the head gets a task. */
    method FillAll(containers: seq<Container>, taskType: int, ghost made: seq<Ring<Task>>)
      returns (ghost added: seq<Task>)
      requires Linked(made) && |made| == |containers| + 1 && current == made[Succ(0, |made|)]
      modifies this`current, made`value
      ensures Linked(made) && made[0].value == old(made[0].value) && |added| == |containers| && AllDistinct(added)
      ensures forall i {:trigger made[i].value} | 1 <= i < |made| :: made[i].value == Some(added[i - 1])
      ensures forall i | 0 <= i < |added| ::
        fresh(added[i]) && added[i].container == containers[i]
        && added[i].taskType == taskType && added[i].retry == DEFAULT_RETRY
    {
      added := [];
      for i := 0 to |containers|
        invariant |added| == i && Linked(made) && made[0].value == old(made[0].value)
        invariant current == made[Succ(i, |made|)]
        invariant forall j {:trigger made[j].value} | 1 <= j <= i :: made[j].value == Some(added[j - 1])
        invariant AllDistinct(added)
        invariant forall j | 0 <= j < i :: fresh(added[j]) && added[j].container == containers[j]
                                           && added[j].taskType == taskType && added[j].retry == DEFAULT_RETRY
      {
        var task := new Task(taskType, containers[i]);
        assert current == made[i + 1] && current in made;
        Fill(current, made, i + 1, task);
        added := added + [task];
      }
    }

    /** A new ring with a head and an element for each container, at the first of which the cursor is. */
    method NewRing(containers: seq<Container>) returns (h: Ring<Task>, ghost made: seq<Ring<Task>>)
      modifies this`current
      ensures Linked(made) && |made| == |containers| + 1 && made[0] == h && h.value == None
      ensures current == made[Succ(0, |made|)]
      ensures forall k | 0 <= k < |made| :: fresh(made[k])
    {
      h, made := Ring<Task>.New(|containers| + 1);
      assert forall k | 0 <= k < |made| :: made[k] in made;
      assert h.next == made[Succ(0, |made|)];
      current := h.next;
    }

    method FirstBatch(containers: seq<Container>, taskType: int) returns (ghost added: seq<Task>)
      requires Valid() && head == null
      modifies this
      ensures Valid() && head != null && |added| == |containers| && tasks == added && cursor == Succ(0, |nodes|)
      ensures forall k | 0 <= k < |nodes| :: fresh(nodes[k])
      ensures forall i | 0 <= i < |added| ::
        fresh(added[i]) && added[i].container == containers[i]
        && added[i].taskType == taskType && added[i].retry == DEFAULT_RETRY
    {
      ghost var made;
      head, made := NewRing(containers);
      added := FillAll(containers, taskType, made);
      assert head.next == made[Succ(0, |made|)];
      current := head.next;
      assert Holding(made, added);
      nodes, tasks, cursor := made, added, Succ(0, |made|);
    }

    method LaterBatch(containers: seq<Container>, taskType: int) returns (ghost added: seq<Task>)
      requires Valid() && head != null && tasks != []
      modifies this`current, this`nodes, this`tasks, this`cursor, nodes`next, nodes`prev
      ensures Valid() && head == old(head) && tasks != []
      ensures |added| == |containers| && tasks == Weave(old(tasks), old(cursor), added)
      ensures forall k | 0 <= k < |nodes| :: nodes[k] in old(nodes) || fresh(nodes[k])
      ensures forall i | 0 <= i < |added| ::
        fresh(added[i]) && added[i].container == containers[i]
        && added[i].taskType == taskType && added[i].retry == DEFAULT_RETRY
    {
      added := [];
      ghost var ts, c := tasks, cursor;
      for i := 0 to |containers|
        invariant Valid() && head == old(head) && tasks != [] && |added| == i
        invariant forall k | 0 <= k < |nodes| :: nodes[k] in old(nodes) || fresh(nodes[k])
        invariant tasks == Weave(ts, c, added) && cursor == Hops(c, |ts| + 1, i) && |nodes| == |ts| + 1 + i
        invariant forall j | 0 <= j < i :: fresh(added[j]) && added[j].container == containers[j]
                                           && added[j].taskType == taskType && added[j].retry == DEFAULT_RETRY
      {
        ghost var t := Append(taskType, containers[i]);
        WeaveSnoc(ts, c, added, t);
        added := added + [t];
      }
    }

    /** The processor: any name or error, each time. */
    method Do(t: Task) returns (r: Option<string>)
    {
      r := *;
    }

    ghost predicate Inside(region: set<Ring<Task>>, owned: set<Task>)
      reads this
    {
      (forall k | 0 <= k < |nodes| :: nodes[k] in region) && (forall k | 0 <= k < |tasks| :: tasks[k] in owned)
    }

    /** Step back, then unlink the element that was current. */
    method UnlinkCurrent()
      requires Valid() && head != null && cursor > 0
      modifies this`current, this`nodes, this`tasks, this`cursor, nodes`next, nodes`prev
      ensures Valid() && head == old(head) && cursor == old(cursor) - 1
      ensures tasks == RemoveAt(old(tasks), old(cursor) - 1) && nodes == RemoveAt(old(nodes), old(cursor))
    {
      ghost var c := cursor;
      assert current.prev == nodes[Pred(c, |nodes|)];
      current := current.prev;
      current.UnlinkOne(nodes, c - 1);
      HoldingRemove(nodes, tasks, c);
      DistinctRemove(tasks, c - 1);
      InRemoveAt(tasks, c - 1);
      nodes, tasks, cursor := RemoveAt(nodes, c), RemoveAt(tasks, c - 1), c - 1;
    }

    method UnlinkInside(ghost region: set<Ring<Task>>, ghost owned: set<Task>)
      requires Valid() && head != null && cursor > 0 && Inside(region, owned)
      modifies this`current, this`nodes, this`tasks, this`cursor, nodes`next, nodes`prev
      ensures Valid() && head == old(head) && cursor == old(cursor) - 1 && Inside(region, owned)
      ensures tasks == RemoveAt(old(tasks), old(cursor) - 1)
    {
      ghost var c, ns, ts := cursor, nodes, tasks;
      UnlinkCurrent();
      InsideRemove(ns, region, c);
      InsideRemove(ts, owned, c - 1);
    }

    method DropCurrent(ghost region: set<Ring<Task>>, ghost owned: set<Task>)
      requires Valid() && head != null && cursor > 0 && Inside(region, owned)
      modifies this`current, this`nodes, this`tasks, this`cursor, nodes`next, nodes`prev
      ensures Valid() && head == old(head) && Inside(region, owned)
      ensures Order(tasks, cursor) == old(Order(tasks, cursor))[1..]
    {
      ghost var c, ts := cursor, tasks;
      UnlinkInside(region, owned);
      Advance();
      OrderDrop(ts, c);
    }

    /** What is left of the queue when its first task is dropped: no other retry changes. */
    method DropFirst(ghost region: set<Ring<Task>>, ghost owned: set<Task>)
      requires Valid() && head != null && cursor > 0 && Inside(region, owned)
      modifies this`current, this`nodes, this`tasks, this`cursor, nodes`next, nodes`prev
      ensures Valid() && head == old(head) && Inside(region, owned)
      ensures Queue() == old(Queue())[1..]
    {
      ghost var tail := Order(tasks, cursor)[1..];
      ghost var q := Entries(tail);
      EntriesTail(Order(tasks, cursor));
      DropCurrent(region, owned);
      EntriesAre(tail, q);
    }

    /** The first task loses a retry; the queue is the same otherwise. */
    method LowerRetry(t: Task)
      requires Valid() && cursor > 0 && t == tasks[cursor - 1] && t.retry > 0
      modifies t`retry
      ensures Valid()
      ensures Queue() == [Entry(t, old(t.retry) - 1)] + old(Queue())[1..]
    {
      ghost var order := Order(tasks, cursor);
      OrderFirst(tasks, cursor);
      assert order == [t] + order[1..];
      assert forall i | 0 <= i < |order[1..]| :: order[1..][i] in order[1..];
      t.retry := t.retry - 1;
    }

    /** Moving on from a task puts it last. */
    method Requeue()
      requires Valid() && head != null && cursor > 0
      modifies this`current, this`cursor
      ensures Valid() && Queue() == old(Queue())[1..] + [old(Queue())[0]]
    {
      OrderNext(tasks, cursor);
      OrderFirst(tasks, cursor);
      Advance();
    }

    /** What follows from a call: a task that succeeded, or failed with no retry left, is unlinked; one
        that failed otherwise loses a retry. Then the cursor moves on. */
    method Settle(t: Task, success: bool, ghost region: set<Ring<Task>>, ghost owned: set<Task>)
      requires Valid() && head != null && cursor > 0 && t == tasks[cursor - 1] && Inside(region, owned)
      modifies this`current, this`nodes, this`tasks, this`cursor, nodes`next, nodes`prev, t`retry
      ensures Valid() && head == old(head) && Inside(region, owned)
      ensures Queue() == Serve(old(Queue()), success)
    {
      OrderFirst(tasks, cursor);
      assert Queue()[0] == Entry(t, t.retry);
      if !success && t.retry != 0 {
        LowerRetry(t);
        Requeue();
      } else {
        DropFirst(region, owned);
      }
    }

    /** The sentinel is skipped. */
    method SkipHead()
      requires Valid() && |nodes| > 1
      modifies this`current, this`cursor
      ensures Valid() && cursor > 0 && Queue() == old(Queue())
    {
      if current == head {
        ghost var order, q := Order(tasks, cursor), Queue();
        OrderStart(tasks);
        assert q == Entries(order);
        Advance();
        EntriesAre(order, q);
      }
    }

    /** The task at the cursor is tried. */
    method Try(ghost region: set<Ring<Task>>, ghost owned: set<Task>) returns (t: Task, r: Option<string>)
      requires Valid() && head != null && cursor > 0 && Inside(region, owned)
      modifies this`current, this`nodes, this`tasks, this`cursor, nodes`next, nodes`prev, tasks`retry
      ensures Valid() && head == old(head) && Inside(region, owned)
      ensures t == old(Queue())[0].task && Queue() == Serve(old(Queue()), r.Some?)
    {
      t := current.value.value;
      OrderFirst(tasks, cursor);
      r := Do(t);
      Settle(t, r.Some?, region, owned);
    }

    /** One turn of the loop. */
    method Turn(ghost region: set<Ring<Task>>, ghost owned: set<Task>) returns (t: Task, r: Option<string>)
      requires Valid() && |nodes| > 1 && Inside(region, owned)
      modifies this`current, this`nodes, this`tasks, this`cursor, region`next, region`prev, owned`retry
      ensures Valid() && head == old(head) && Inside(region, owned)
      ensures t == old(Queue())[0].task && Queue() == Serve(old(Queue()), r.Some?)
    {
      SkipHead();
      t, r := Try(region, owned);
    }

    /** The number of elements in the ring, the sentinel included; no ring has none. */
    method Len() returns (n: nat)
      requires Valid()
      ensures n == |nodes| && Valid() && Queue() == old(Queue())
    {
      n := 0;
      if head != null {
        n := head.Len(nodes);
      }
    }

    lemma QueueRetriable()
      requires Valid()
      ensures Retriable(Queue()) && Distinct(Queue()) && |Queue()| == |tasks|
    {
      assert forall i | 0 <= i < |tasks| :: Order(tasks, cursor)[i] in tasks;
      OrderDistinct(tasks, cursor);
    }

    /** DoTasks: until only the sentinel is left, the task at the cursor is tried; the sentinel never is.
        The calls of the processor are those of the plain queue, whatever the processor answers, and the
        names it returned are collected in order. So every task succeeds exactly once or fails once more
        than it had retries, and there is one name per task that succeeded. */
    method DoTasks() returns (names: seq<string>, failed: bool, ghost log: seq<Attempt<Task>>)
      requires Valid()
      modifies this`current, this`nodes, this`tasks, this`cursor, nodes`next, nodes`prev, tasks`retry
      ensures Valid() && head == old(head) && tasks == []
      ensures Follows(old(Queue()), log) && After(old(Queue()), log) == []
      ensures !failed && names == Names(log) && |names| == Winners(old(Queue()), log)
      ensures |log| <= Measure(old(Queue())) && forall e | e in old(Queue()) :: Gone(log, e)
    {
      names, log := [], [];
      QueueRetriable();
      var n := Len();
      ghost var q, now := Queue(), Queue();
      ghost var region, owned := (set r | r in nodes), (set t | t in tasks);
      while n > 1
        invariant Valid() && head == old(head) && n == |nodes| && Inside(region, owned)
        invariant Follows(q, log) && After(q, log) == now == Queue() && names == Names(log)
        decreases Measure(now)
      {
        QueueRetriable();
        var t, r := Turn(region, owned);
        TurnMeasure(now, r.Some?);
        LogMore(q, log, t, r);
        now := Serve(now, r.Some?);
        log := log + [Attempt(t, r)];
        if r.Some? {
          names := names + [r.value];
        }
        n := Len();
      }
      Finished(q, log);
      failed := false;
    }
  }

  lemma Finished(q: seq<Entry<Task>>, log: seq<Attempt<Task>>)
    requires Retriable(q) && Distinct(q) && Follows(q, log) && After(q, log) == []
    ensures |Names(log)| == Winners(q, log)
    ensures |log| <= Measure(q) && forall e | e in q :: Gone(log, e)
  {
    WorkedOff(q, log);
    AttemptsBounded(q, log);
  }

  lemma OrderDistinct<T>(ts: seq<T>, c: nat)
    requires c <= |ts| && AllDistinct(ts)
    ensures AllDistinct(Order(ts, c))
  {
  }

  lemma LogMore(q: seq<Entry<Task>>, log: seq<Attempt<Task>>, t: Task, r: Option<string>)
    requires Follows(q, log) && After(q, log) != [] && After(q, log)[0].task == t
    ensures Follows(q, log + [Attempt(t, r)])
    ensures After(q, log + [Attempt(t, r)]) == Serve(After(q, log), r.Some?)
    ensures Names(log + [Attempt(t, r)]) == Names(log) + if r.Some? then [r.value] else []
  {
    assert (log + [Attempt(t, r)])[..|log|] == log;
  }

  lemma InsideRemove<T>(s: seq<T>, region: set<T>, i: nat)
    requires i < |s| && forall k | 0 <= k < |s| :: s[k] in region
    ensures forall k | 0 <= k < |s| - 1 :: RemoveAt(s, i)[k] in region
  {
  }

  lemma InInsertAt<T>(s: seq<T>, i: nat, x: T)
    requires i <= |s|
    ensures forall y | y in InsertAt(s, i, x) :: y in s || y == x
  {
  }

  lemma InRemoveAt<T>(s: seq<T>, i: nat)
    requires i < |s|
    ensures forall x | x in RemoveAt(s, i) :: x in s
  {
  }

  lemma TurnMeasure(q: seq<Entry<Task>>, success: bool)
    requires q != [] && Retriable(q)
    ensures 0 <= Measure(Serve(q, success)) < Measure(q)
  {
    ServeMeasure(q, success);
    MeasureNatural(Serve(q, success));
  }

  lemma OrderFirst<T>(ts: seq<T>, c: nat)
    requires 0 < c <= |ts| && AllDistinct(ts)
    ensures Order(ts, c)[0] == ts[c - 1] && ts[c - 1] !in Order(ts, c)[1..]
  {
  }

  /** Beginning at the sentinel is beginning behind it. */
  lemma OrderStart<T>(ts: seq<T>)
    requires ts != []
    ensures Order(ts, 0) == Order(ts, 1)
  {
    assert ts[0..] == ts && ts[..0] == [];
  }

  /** Moving the cursor on puts the first task last. */
  lemma OrderNext<T>(ts: seq<T>, c: nat)
    requires 0 < c <= |ts|
    ensures Order(ts, Succ(c, |ts| + 1)) == Order(ts, c)[1..] + [ts[c - 1]]
  {
    assert ts[c - 1..] == [ts[c - 1]] + ts[c..] && ts[..c] == ts[..c - 1] + [ts[c - 1]];
    assert Order(ts, c)[1..] == ts[c..] + ts[..c - 1];
    assert ts == ts[..c] + ts[c..];
  }

  /** Unlinking the current task and moving on drops the first one. */
  lemma OrderDrop<T>(ts: seq<T>, c: nat)
    requires 0 < c <= |ts|
    ensures Order(RemoveAt(ts, c - 1), Succ(c - 1, |ts|)) == Order(ts, c)[1..]
  {
  }
}
