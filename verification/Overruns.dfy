/** Which engines stay within their CPU limit in all runs. */
module Overruns {
  import opened Options
  import opened Containers
  import opened Arithmetic
  import opened Strategy
  import opened Schedulers
  import opened CpuShares
  import opened Placement
  import opened Capacity
  import opened Safety
  import opened PlainRuns

  /** A run from this state on whose requests are not negative. */
  ghost predicate NaturalRun(sch: Scheduler, s0: State, states: seq<State>, steps: seq<Step>) {
    && IsRun(sch, states, steps) && states[0] == s0
    && forall i | 0 <= i < |steps| && steps[i].Begin? :: Natural(steps[i].config)
  }

  /** A container that asks for CPUs and nothing else. */
  function Request(w: string, cpus: int): Config {
    Config(w, map[], 0, cpus, "", {}, map[], [], [], Exprs([]), Exprs([]), Exprs([]))
  }

  function Requested(s: State, e: string, w: string, cpus: int): State {
    Reserve(s, w, Pending(Request(w, cpus), "", e))
  }

  /** A state in which such containers can be reserved on the engine. */
  ghost predicate Going(s: State, e: string) {
    Sound(s) && AllNatural(s) && Ready(s, e) && forall v :: !Registered(s, v)
  }

  ghost function RequestStep(w: string, cpus: int, n: Nodes.Node): Step {
    Begin(w, Request(w, cpus), None, "", n)
  }

  lemma RequestBegins(sch: Scheduler, s: State, e: string, w: string, cpus: nat) returns (n: Nodes.Node)
    requires Going(s, e) && w != "" && w !in s.pending
    requires cpus <= TotalCpus(s.engines[e].machine)
    requires cpus > 0 ==> Used(s, e, Cpus) + cpus <= Limit(TotalCpus(s.engines[e].machine))
    ensures Next(sch, s, RequestStep(w, cpus, n), Requested(s, e, w, cpus))
    ensures Going(Requested(s, e, w, cpus), e)
    ensures Used(Requested(s, e, w, cpus), e, Cpus) == Used(s, e, Cpus) + cpus
  {
    TotalPositive(s.engines[e].machine.memory, s.engines[e].machine.overcommit);
    assert HasLeft(s, e, Request(w, cpus), Cpus) && HasLeft(s, e, Request(w, cpus), Memory);
    n := PlainBegins(sch, s, e, Request(w, cpus));
    StillReady(s, e, Request(w, cpus));
    assert Amount(Request(w, cpus), Cpus) == cpus;
  }

  /** What engine `e` reports of the first request. */
  function Reported(s: State, e: string, w: string, cpus: int): Container
    requires e in s.engines && s.engines[e].machine.cpus > 0
  {
    Container("c", [], map[], Request(w, Booked(cpus, s.engines[e].machine.cpus)), NO_INFO, e,
              s.engines[e].machine.name)
  }

  lemma RequestRegisters(sch: Scheduler, s: State, e: string, w: string, cpus: nat)
    requires Going(s, e) && w in s.pending && s.pending[w] == Pending(Request(w, cpus), "", e)
    ensures var c := Reported(s, e, w, cpus);
      && Next(sch, s, Register(w, c), AddContainer(s, e, c))
      && Used(AddContainer(s, e, c), e, Cpus)
         == Used(s, e, Cpus) + Booked(cpus, s.engines[e].machine.cpus) - cpus
  {
    var c := Reported(s, e, w, cpus);
    assert Registers(s, w, c);
    UsedAdd(s, w, c, e, Cpus);
  }

  lemma RunMore(sch: Scheduler, s0: State, states: seq<State>, steps: seq<Step>, step: Step, s': State)
    requires NaturalRun(sch, s0, states, steps) && Sane(states[|steps|]) && Next(sch, states[|steps|], step, s')
    requires step.Begin? ==> Natural(step.config)
    ensures NaturalRun(sch, s0, states + [s'], steps + [step])
  {
    var ss, ts := states + [s'], steps + [step];
    forall i | 0 <= i < |ts| ensures Sane(ss[i]) && Next(sch, ss[i], ts[i], ss[i + 1]) {
      if i < |steps| {
        assert Sane(states[i]) && Next(sch, states[i], steps[i], states[i + 1]);
      }
    }
  }

  /** One more request in a run. */
  lemma RequestRun(sch: Scheduler, s0: State, states: seq<State>, steps: seq<Step>, s: State, e: string, w: string,
                   cpus: nat) returns (longer: seq<State>, more: seq<Step>)
    requires NaturalRun(sch, s0, states, steps) && states[|steps|] == s && Going(s, e) && w != "" && w !in s.pending
    requires cpus <= TotalCpus(s.engines[e].machine)
    requires cpus > 0 ==> Used(s, e, Cpus) + cpus <= Limit(TotalCpus(s.engines[e].machine))
    ensures NaturalRun(sch, s0, longer, more) && longer[|more|] == Requested(s, e, w, cpus)
    ensures Going(Requested(s, e, w, cpus), e)
    ensures Used(Requested(s, e, w, cpus), e, Cpus) == Used(s, e, Cpus) + cpus
  {
    var n := RequestBegins(sch, s, e, w, cpus);
    RunMore(sch, s0, states, steps, RequestStep(w, cpus, n), Requested(s, e, w, cpus));
    longer, more := states + [Requested(s, e, w, cpus)], steps + [RequestStep(w, cpus, n)];
  }

  /** A run of three requests that fills an engine up to its limit. */
  lemma FillingRun(sch: Scheduler, s0: State, e: string, r: nat)
    returns (states: seq<State>, steps: seq<Step>, s: State)
    requires Going(s0, e) && s0.pending == map[] && Used(s0, e, Cpus) == 0
    requires r <= TotalCpus(s0.engines[e].machine)
    ensures NaturalRun(sch, s0, states, steps) && states[|steps|] == s && Going(s, e)
    ensures s.engines == s0.engines && Used(s, e, Cpus) == Limit(TotalCpus(s0.engines[e].machine))
    ensures "1" in s.pending && s.pending["1"] == Pending(Request("1", r), "", e)
  {
    var total := TotalCpus(s0.engines[e].machine);
    TotalPositive(s0.engines[e].machine.cpus, s0.engines[e].machine.overcommit);
    var p := Min(total, Limit(total) - r);
    var q := Limit(total) - r - p;
    states, steps := RequestRun(sch, s0, [s0], [], s0, e, "1", r);
    var s1 := Requested(s0, e, "1", r);
    states, steps := RequestRun(sch, s0, states, steps, s1, e, "2", p);
    var s2 := Requested(s1, e, "2", p);
    states, steps := RequestRun(sch, s0, states, steps, s2, e, "3", q);
    s := Requested(s2, e, "3", q);
  }

  /** When some request that fits the engine is booked for more, there is a run that exceeds its limit: others fill
      the engine up before that one is registered. */
  lemma ExceedingRun(sch: Scheduler, s0: State, e: string, r: nat) returns (states: seq<State>, steps: seq<Step>)
    requires Empty(s0) && Ready(s0, e)
    requires r <= TotalCpus(s0.engines[e].machine) && Booked(r, s0.engines[e].machine.cpus) > r
    ensures NaturalRun(sch, s0, states, steps)
    ensures e in states[|steps|].engines && !InLimit(states[|steps|], e, Cpus)
  {
    EmptyIsReady(s0, e);
    var s;
    states, steps, s := FillingRun(sch, s0, e, r);
    RequestRegisters(sch, s, e, "1", r);
    var c := Reported(s, e, "1", r);
    RunMore(sch, s0, states, steps, Register("1", c), AddContainer(s, e, c));
    states, steps := states + [AddContainer(s, e, c)], steps + [Register("1", c)];
  }

  // ---- Exactly which engines can be exceeded ----

  /** Whatever fits the engine is booked for what it asks for. */
  ghost predicate BooksExactly(m: Machine)
    requires m.cpus > 0
  {
    forall r | 0 <= r <= TotalCpus(m) :: Booked(r, m.cpus) == r
  }

  lemma SameMachine(sch: Scheduler, s: State, step: Step, s': State, e: string)
    requires Sane(s) && Next(sch, s, step, s') && e in s.engines
    ensures e in s'.engines && s'.engines[e].machine == s.engines[e].machine
  {
  }

  lemma StaysInLimit(sch: Scheduler, s: State, step: Step, s': State, e: string)
    requires Sound(s) && AllNatural(s) && Next(sch, s, step, s') && (step.Begin? ==> Natural(step.config))
    requires e in s.engines && BooksExactly(s.engines[e].machine) && InLimit(s, e, Cpus)
    ensures e in s'.engines && s'.engines[e].machine == s.engines[e].machine && InLimit(s', e, Cpus)
  {
    SameMachine(sch, s, step, s', e);
    NextUsed(sch, s, step, s', e, Cpus);
    if step.Register? && step.reserved in s.pending {
      assert ReservationSound(s, step.reserved) && Natural(s.pending[step.reserved].config);
    }
  }

  /** The engine is within its CPU limit in all states. */
  ghost predicate StaysIn(states: seq<State>, e: string) {
    forall i | 0 <= i < |states| :: e in states[i].engines && InLimit(states[i], e, Cpus)
  }

  lemma StaysThroughout(sch: Scheduler, s0: State, states: seq<State>, steps: seq<Step>, e: string)
    requires NaturalRun(sch, s0, states, steps) && Sound(s0) && Capped(s0)
    requires e in s0.engines && BooksExactly(s0.engines[e].machine) && InLimit(s0, e, Cpus)
    ensures StaysIn(states, e)
  {
    CapacityKept(sch, states, steps);
    for k := 0 to |steps|
      invariant forall i | 0 <= i <= k :: e in states[i].engines && InLimit(states[i], e, Cpus)
      invariant states[k].engines[e].machine == s0.engines[e].machine
    {
      assert Sound(states[k]) && Capped(states[k]) && Next(sch, states[k], steps[k], states[k + 1]);
      StaysInLimit(sch, states[k], steps[k], states[k + 1], e);
    }
  }

  /** An engine stays within its CPU limit in all runs from an empty cluster exactly when every request that fits it is
      booked for what it asks for. */
  lemma AlwaysInLimitIff(sch: Scheduler, s0: State, e: string)
    requires Empty(s0) && Ready(s0, e)
    ensures (forall states, steps | NaturalRun(sch, s0, states, steps) :: StaysIn(states, e))
            <==> BooksExactly(s0.engines[e].machine)
  {
    EmptyIsSafe(s0);
    EmptyIsReady(s0, e);
    if BooksExactly(s0.engines[e].machine) {
      forall states, steps | NaturalRun(sch, s0, states, steps) ensures StaysIn(states, e) {
        StaysThroughout(sch, s0, states, steps, e);
      }
    } else {
      var r: int :| 0 <= r <= TotalCpus(s0.engines[e].machine) && Booked(r, s0.engines[e].machine.cpus) != r;
      BookedBounds(r, s0.engines[e].machine.cpus);
      var states, steps := ExceedingRun(sch, s0, e, r);
      assert NaturalRun(sch, s0, states, steps) && !StaysIn(states, e);
    }
  }

  /** Those are all engines of at most 1024 CPUs and, unless the cluster undercommits its engines, no others. */
  lemma LargeEnginesExceed(m: Machine)
    requires m.cpus > 0
    ensures m.cpus <= SHARES ==> BooksExactly(m)
    ensures m.overcommit >= 0 ==> (BooksExactly(m) <==> m.cpus <= SHARES)
  {
    RoundTripIff(m.cpus);
    if m.cpus > SHARES {
      OneTooMany(m.cpus);
      if m.overcommit >= 0 {
        assert m.cpus * m.overcommit >= 0;
        assert TotalCpus(m) >= m.cpus;
      }
    }
  }
}
