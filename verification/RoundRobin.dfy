/** The order in which the task queue serves its tasks, as a plain queue. */
module RoundRobin {
  import opened Options

  /** A waiting task and how often it may still be tried again. */
  datatype Entry<T> = Entry(task: T, retry: int)

  /** One call of the processor: the name it returned, or an error. */
  datatype Attempt<T> = Attempt(task: T, name: Option<string>)

  /** The first task is tried: it leaves on success, or when it failed with no retry left; else it queues up again. */
  function Serve<T>(q: seq<Entry<T>>, success: bool): seq<Entry<T>>
    requires q != []
  {
    if success || q[0].retry == 0 then q[1..] else q[1..] + [Entry(q[0].task, q[0].retry - 1)]
  }

  /** `log` tries the first task of the queue each time, starting from `q`. */
  ghost predicate Follows<T>(q: seq<Entry<T>>, log: seq<Attempt<T>>)
    decreases |log|
  {
    log != [] ==>
      && Follows(q, log[..|log| - 1])
      && var now := After(q, log[..|log| - 1]);
      && now != [] && now[0].task == log[|log| - 1].task
  }

  /** What is left of the queue after the attempts. */
  ghost function After<T>(q: seq<Entry<T>>, log: seq<Attempt<T>>): seq<Entry<T>>
    decreases |log|
  {
    if log == [] then q
    else
      var now := After(q, log[..|log| - 1]);
      if now == [] then [] else Serve(now, log[|log| - 1].name.Some?)
  }

  function Names<T>(log: seq<Attempt<T>>): seq<string> {
    if log == [] then []
    else Names(log[..|log| - 1]) + if log[|log| - 1].name.Some? then [log[|log| - 1].name.value] else []
  }

  ghost function Successes<T>(log: seq<Attempt<T>>, t: T): nat {
    if log == [] then 0
    else Successes(log[..|log| - 1], t) + if log[|log| - 1].task == t && log[|log| - 1].name.Some? then 1 else 0
  }

  ghost function Failures<T>(log: seq<Attempt<T>>, t: T): nat {
    if log == [] then 0
    else Failures(log[..|log| - 1], t) + if log[|log| - 1].task == t && log[|log| - 1].name.None? then 1 else 0
  }

  ghost predicate Distinct<T>(q: seq<Entry<T>>) {
    forall i, j | 0 <= i < j < |q| :: q[i].task != q[j].task
  }

  ghost predicate Waits<T>(q: seq<Entry<T>>, t: T) {
    exists i :: 0 <= i < |q| && q[i].task == t
  }

  ghost predicate Retriable<T>(q: seq<Entry<T>>) {
    forall i | 0 <= i < |q| :: q[i].retry >= 0
  }

  /** Upper bound of the number of attempts a queue can still cause. */
  ghost function Measure<T>(q: seq<Entry<T>>): int {
    if q == [] then 0 else q[0].retry + 1 + Measure(q[1..])
  }

  lemma {:induction false} MeasureConcat<T>(q: seq<Entry<T>>, r: seq<Entry<T>>)
    ensures Measure(q + r) == Measure(q) + Measure(r)
  {
    if q == [] {
      assert q + r == r;
    } else {
      MeasureConcat(q[1..], r);
      assert (q + r)[1..] == q[1..] + r;
    }
  }

  lemma {:induction false} MeasureNatural<T>(q: seq<Entry<T>>)
    requires Retriable(q)
    ensures Measure(q) >= |q|
  {
    if q != [] {
      MeasureNatural(q[1..]);
    }
  }

  /** Every attempt brings the end nearer, whatever its outcome. */
  lemma ServeMeasure<T>(q: seq<Entry<T>>, success: bool)
    requires q != [] && Retriable(q)
    ensures Retriable(Serve(q, success)) && Measure(Serve(q, success)) < Measure(q)
  {
    if !success && q[0].retry != 0 {
      MeasureConcat(q[1..], [Entry(q[0].task, q[0].retry - 1)]);
    }
  }

  /** So the number of attempts never exceeds the sum of all retries plus one each. */
  lemma {:induction false} AttemptsBounded<T>(q: seq<Entry<T>>, log: seq<Attempt<T>>)
    requires Retriable(q) && Follows(q, log)
    ensures Retriable(After(q, log)) && |log| <= Measure(q) - Measure(After(q, log))
    decreases |log|
  {
    if log != [] {
      var front := log[..|log| - 1];
      AttemptsBounded(q, front);
      ServeMeasure(After(q, front), log[|log| - 1].name.Some?);
    }
  }

  /** All tasks have been tried equally often, up to one attempt; the earlier in the queue, the less often. */
  ghost predicate Balanced<T>(q: seq<Entry<T>>) {
    forall i, j | 0 <= i < j < |q| :: q[j].retry <= q[i].retry <= q[j].retry + 1
  }

  /** Round robin is fair at every moment: with equal retries at the start, the numbers of attempts
      at any two tasks that are still waiting differ by at most one. */
  lemma {:induction false} Fair<T>(q: seq<Entry<T>>, log: seq<Attempt<T>>, retries: int)
    requires Distinct(q) && Follows(q, log) && forall i | 0 <= i < |q| :: q[i].retry == retries
    ensures Balanced(After(q, log))
    ensures forall t, u | Waits(After(q, log), t) && Waits(After(q, log), u) ::
              Successes(log, t) == 0 && Failures(log, t) <= Failures(log, u) + 1
    decreases |log|
  {
    FairQueue(q, log, retries);
    Accounts(q, log);
    var now := After(q, log);
    forall t, u | Waits(now, t) && Waits(now, u)
      ensures Successes(log, t) == 0 && Failures(log, t) <= Failures(log, u) + 1
    {
      var i :| 0 <= i < |now| && now[i].task == t;
      var j :| 0 <= j < |now| && now[j].task == u;
      assert Waiting(q, log, now[i]) && Waiting(q, log, now[j]);
      assert now[i].retry + Failures(log, t) == retries == now[j].retry + Failures(log, u);
    }
  }

  lemma {:induction false} FairQueue<T>(q: seq<Entry<T>>, log: seq<Attempt<T>>, retries: int)
    requires Follows(q, log) && forall i | 0 <= i < |q| :: q[i].retry == retries
    ensures Balanced(After(q, log))
    decreases |log|
  {
    if log != [] {
      FairQueue(q, log[..|log| - 1], retries);
    }
  }

  /** Where a task stands in the books of a run: waiting tasks have failed as often as they lost retries and
      never succeeded; tasks that left succeeded exactly once, or failed once more than they had retries. */
  ghost predicate Waiting<T>(q: seq<Entry<T>>, log: seq<Attempt<T>>, e: Entry<T>) {
    && Successes(log, e.task) == 0
    && exists i :: 0 <= i < |q| && q[i] == Entry(e.task, e.retry + Failures(log, e.task))
  }

  ghost predicate Gone<T>(log: seq<Attempt<T>>, e: Entry<T>) {
    || (Successes(log, e.task) == 1 && Failures(log, e.task) <= e.retry)
    || (Successes(log, e.task) == 0 && Failures(log, e.task) == e.retry + 1)
  }

  lemma {:induction false} Accounts<T>(q: seq<Entry<T>>, log: seq<Attempt<T>>)
    requires Distinct(q) && Follows(q, log)
    ensures Distinct(After(q, log))
    ensures forall e | e in After(q, log) :: Waiting(q, log, e)
    ensures forall e | e in q && !Waits(After(q, log), e.task) :: Retriable(q) ==> Gone(log, e)
    decreases |log|
  {
    if log == [] {
      forall e | e in q ensures Waiting(q, log, e) && Waits(q, e.task) {
        var i :| 0 <= i < |q| && q[i] == e;
      }
    } else {
      var front, last := log[..|log| - 1], log[|log| - 1];
      Accounts(q, front);
      AccountsStep(q, front, last);
      assert front + [last] == log;
    }
  }

  lemma AccountsStep<T>(q: seq<Entry<T>>, front: seq<Attempt<T>>, last: Attempt<T>)
    requires Distinct(q) && Distinct(After(q, front)) && Follows(q, front)
    requires forall e | e in After(q, front) :: Waiting(q, front, e)
    requires forall e | e in q && !Waits(After(q, front), e.task) :: Retriable(q) ==> Gone(front, e)
    requires After(q, front) != [] && After(q, front)[0].task == last.task
    ensures var log := front + [last];
      && Distinct(After(q, log))
      && (forall e | e in After(q, log) :: Waiting(q, log, e))
      && (forall e | e in q && !Waits(After(q, log), e.task) :: Retriable(q) ==> Gone(log, e))
  {
    var log, now := front + [last], After(q, front);
    assert log[..|log| - 1] == front;
    var next := After(q, log);
    assert next == Serve(now, last.name.Some?);
    forall e | e in next ensures Waiting(q, log, e) {
      if e.task == last.task {
        assert Waiting(q, front, now[0]);
        assert e == Entry(now[0].task, now[0].retry - 1) by {
          ServedKeeps(now, last.name.Some?, e);
        }
      } else {
        ServedKeeps(now, last.name.Some?, e);
        assert Waiting(q, front, e);
      }
    }
    forall e | e in q && !Waits(next, e.task) && Retriable(q) ensures Gone(log, e) {
      if e.task == last.task {
        assert Waiting(q, front, now[0]);
        var i :| 0 <= i < |q| && q[i] == Entry(e.task, now[0].retry + Failures(front, e.task));
        assert e == q[i];
        ServedLeaves(now, last.name.Some?);
        AttemptsBounded(q, front);
      } else {
        StillWaits(now, last.name.Some?, e.task);
        assert Gone(front, e);
      }
    }
  }

  lemma ServedKeeps<T>(q: seq<Entry<T>>, success: bool, e: Entry<T>)
    requires q != [] && Distinct(q) && e in Serve(q, success)
    ensures if e.task == q[0].task then e == Entry(q[0].task, q[0].retry - 1) && !success else e in q
  {
  }

  lemma ServedLeaves<T>(q: seq<Entry<T>>, success: bool)
    requires q != []
    ensures success || q[0].retry == 0 || Waits(Serve(q, success), q[0].task)
  {
    if !success && q[0].retry != 0 {
      assert Serve(q, success)[|q| - 1].task == q[0].task;
    }
  }

  lemma StillWaits<T>(q: seq<Entry<T>>, success: bool, t: T)
    requires q != [] && t != q[0].task && !Waits(Serve(q, success), t)
    ensures !Waits(q, t)
  {
    forall i | 0 <= i < |q| ensures q[i].task != t {
      if i > 0 {
        assert Serve(q, success)[i - 1] == q[i];
      }
    }
  }

  /** When the queue has been worked off, every task has succeeded exactly once after at most `retry`
      failures, or failed exactly `retry` + 1 times; there is one name per task that succeeded. */
  lemma WorkedOff<T>(q: seq<Entry<T>>, log: seq<Attempt<T>>)
    requires Distinct(q) && Retriable(q) && Follows(q, log) && After(q, log) == []
    ensures forall e | e in q :: Gone(log, e)
    ensures |Names(log)| == Winners(q, log)
  {
    Accounts(q, log);
    CountNames(q, log);
  }

  ghost function Winners<T>(q: seq<Entry<T>>, log: seq<Attempt<T>>): nat {
    if q == [] then 0 else Winners(q[1..], log) + Successes(log, q[0].task)
  }

  lemma {:induction false} CountNames<T>(q: seq<Entry<T>>, log: seq<Attempt<T>>)
    requires Distinct(q) && Follows(q, log)
    ensures |Names(log)| == Winners(q, log)
    decreases |log|
  {
    if log == [] {
      NoWinners(q);
    } else {
      var front, last := log[..|log| - 1], log[|log| - 1];
      CountNames(q, front);
      Accounts(q, front);
      assert Waiting(q, front, After(q, front)[0]);
      OneMoreWinner(q, log);
    }
  }

  lemma {:induction false} NoWinners<T>(q: seq<Entry<T>>)
    ensures Winners(q, []) == 0
  {
    if q != [] {
      NoWinners(q[1..]);
    }
  }

  lemma {:induction false} OneMoreWinner<T>(q: seq<Entry<T>>, log: seq<Attempt<T>>)
    requires log != [] && Distinct(q)
    ensures Winners(q, log) == Winners(q, log[..|log| - 1])
            + if Waits(q, log[|log| - 1].task) && log[|log| - 1].name.Some? then 1 else 0
  {
    if q != [] {
      OneMoreWinner(q[1..], log);
      var t := log[|log| - 1].task;
      if q[0].task == t {
        assert !Waits(q[1..], t);
      } else if Waits(q, t) {
        var i :| 0 <= i < |q| && q[i].task == t;
        assert q[1..][i - 1].task == t;
      } else {
        assert forall i | 0 <= i < |q[1..]| :: q[1..][i] == q[i + 1];
      }
    }
  }
}
