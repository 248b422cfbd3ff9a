/** What the placement protocol guarantees over whole runs. */
module Safety {
  import opened Options
  import opened Containers
  import opened Nodes
  import opened Filters
  import opened Arithmetic
  import opened Strategy
  import opened Schedulers
  import opened CpuShares
  import opened Sums
  import opened Placement
  import opened Capacity
  import opened Exclusive
  import opened Names

  /** Any number of clients' creations and removals, interleaved in any order. */
  ghost predicate IsRun(sch: Scheduler, states: seq<State>, steps: seq<Step>) {
    && |states| == |steps| + 1
    && forall i | 0 <= i < |steps| :: Sane(states[i]) && Next(sch, states[i], steps[i], states[i + 1])
  }

  /** An engine takes part once it reported CPUs and memory; overcommitment exceeds -100%. */
  ghost predicate Usable(m: Machine) {
    m.cpus > 0 && m.memory > 0 && m.overcommit > -100
  }

  ghost predicate Empty(s: State) {
    && s.pending == map[] && s.asked == map[]
    && forall e | e in s.engines :: Usable(s.engines[e].machine) && s.engines[e].containers == map[]
  }

  lemma TotalPositive(amount: int, overcommit: int)
    requires amount > 0 && overcommit > -100
    ensures Overcommitted(amount, overcommit) > 0
  {
    if overcommit < 0 {
      assert -(amount * overcommit) == amount * -overcommit <= amount * 99;
    } else {
      assert amount * overcommit >= 0;
    }
  }

  lemma EmptyIsSafe(s: State)
    requires Empty(s)
    ensures Sound(s) && NameSafe(s) && PortSafe(s) && SlotSafe(s) && Capped(s)
  {
    assert forall e, k :: !OnEngine(s, e, k);
    assert forall e, k, w :: !Carries(s, e, k, w);
    forall e, r | e in s.engines
      ensures InFlight(s, e) == {} && Used(s, e, r) == 0 && Total(s.engines[e].machine, r) > 0
    {
      assert InFlight(s, e) == {};
      assert Held(s.engines[e].containers, r) == map[];
      assert Asked(s.pending, {}, r) == map[];
      TotalPositive(s.engines[e].machine.cpus, s.engines[e].machine.overcommit);
      TotalPositive(s.engines[e].machine.memory, s.engines[e].machine.overcommit);
    }
    forall e | e in s.engines ensures Count(s, e) == 0 {
      assert Used(s, e, Cpus) == 0;
    }
  }

  ghost predicate Safe(sch: Scheduler, s: State) {
    && Sound(s) && NameSafe(s)
    && (Port in sch.filters ==> PortSafe(s))
    && (Slots in sch.filters ==> SlotSafe(s))
  }

  /** In every state of every run: no two creations in flight or registered hold the same name; with the
      port filter on, no two bridge-mode containers of an engine, registered or in flight, have conflicting
      host-port bindings; with the slots filter on, no engine holds more containers than its label allows. */
  lemma {:induction false} SafeThroughout(sch: Scheduler, states: seq<State>, steps: seq<Step>)
    requires IsRun(sch, states, steps) && Safe(sch, states[0])
    ensures forall i | 0 <= i < |states| :: Safe(sch, states[i])
    decreases |steps|
  {
    if steps != [] {
      var n := |steps|;
      RunPrefix(sch, states, steps);
      SafeThroughout(sch, states[..n], steps[..n - 1]);
      assert Safe(sch, states[..n][n - 1]);
      NextSafe(sch, states[n - 1], steps[n - 1], states[n]);
      forall i | 0 <= i < n ensures Safe(sch, states[i]) {
        assert Safe(sch, states[..n][i]);
      }
    }
  }

  lemma NextSafe(sch: Scheduler, s: State, step: Step, s': State)
    requires Safe(sch, s) && Next(sch, s, step, s')
    ensures Safe(sch, s')
  {
    NextSound(sch, s, step, s');
    NextNameSafe(sch, s, step, s');
    if Port in sch.filters { NextPortSafe(sch, s, step, s'); }
    if Slots in sch.filters { NextSlotSafe(sch, s, step, s'); }
  }

  lemma RunPrefix(sch: Scheduler, states: seq<State>, steps: seq<Step>)
    requires IsRun(sch, states, steps) && steps != []
    ensures IsRun(sch, states[..|steps|], steps[..|steps| - 1])
    ensures Sane(states[|steps| - 1]) && Next(sch, states[|steps| - 1], steps[|steps| - 1], states[|steps|])
  {
    forall i | 0 <= i < |steps| - 1
      ensures Sane(states[..|steps|][i])
              && Next(sch, states[..|steps|][i], steps[..|steps| - 1][i], states[..|steps|][i + 1])
    {
      assert Next(sch, states[i], steps[i], states[i + 1]);
    }
  }

  /** With any filters, no engine's CPUs (up to 1024) or memory are ever given out beyond the limit
      of the percentage test, counting registered and in-flight containers once each. */
  lemma {:induction false} CapacityKept(sch: Scheduler, states: seq<State>, steps: seq<Step>)
    requires IsRun(sch, states, steps) && Sound(states[0]) && Capped(states[0])
    requires forall i | 0 <= i < |steps| && steps[i].Begin? :: Natural(steps[i].config)
    ensures forall i | 0 <= i < |states| :: Sound(states[i]) && Capped(states[i])
    decreases |steps|
  {
    if steps != [] {
      var n := |steps|;
      RunPrefix(sch, states, steps);
      CapacityKept(sch, states[..n], steps[..n - 1]);
      assert Capped(states[..n][n - 1]);
      NextSound(sch, states[n - 1], steps[n - 1], states[n]);
      NextCapped(sch, states[n - 1], steps[n - 1], states[n]);
      forall i | 0 <= i < n ensures Sound(states[i]) && Capped(states[i]) {
        assert Capped(states[..n][i]);
      }
    }
  }

  lemma {:induction false} SoundThroughout(sch: Scheduler, states: seq<State>, steps: seq<Step>)
    requires IsRun(sch, states, steps) && Sound(states[0])
    ensures forall i | 0 <= i < |states| :: Sound(states[i])
    decreases |steps|
  {
    if steps != [] {
      var n := |steps| - 1;
      RunPrefix(sch, states, steps);
      SoundThroughout(sch, states[..n + 1], steps[..n]);
      assert forall i | 0 <= i <= n :: states[..n + 1][i] == states[i];
      NextSound(sch, states[n], steps[n], states[n + 1]);
    }
  }

  /** With engines of any size: all of them stay within their limits exactly when no registration books more for a
      container than its engine has left. */
  lemma CapacityKeptIff(sch: Scheduler, states: seq<State>, steps: seq<Step>)
    requires IsRun(sch, states, steps) && Sound(states[0]) && AllInLimit(states[0])
    requires forall i | 0 <= i < |steps| && steps[i].Begin? :: Natural(steps[i].config)
    ensures (forall i | 0 <= i < |states| :: AllInLimit(states[i]))
            <==> forall i | 0 <= i < |steps| :: Fits(states[i], steps[i])
  {
    SoundThroughout(sch, states, steps);
    forall i | 0 <= i < |steps| && AllInLimit(states[i])
      ensures AllInLimit(states[i + 1]) <==> Fits(states[i], steps[i])
    {
      NextInLimitIff(sch, states[i], steps[i], states[i + 1]);
    }
    if forall i | 0 <= i < |steps| :: Fits(states[i], steps[i]) {
      for k := 0 to |steps|
        invariant forall i | 0 <= i <= k :: AllInLimit(states[i])
      {
        assert AllInLimit(states[k]) && Fits(states[k], steps[k]);
        assert AllInLimit(states[k + 1]);
      }
    }
    if forall i | 0 <= i < |states| :: AllInLimit(states[i]) {
      forall i | 0 <= i < |steps| ensures Fits(states[i], steps[i]) {
        assert AllInLimit(states[i]) && AllInLimit(states[i + 1]);
      }
    }
  }

  /** What the limit means for an engine with few units of a resource. */
  lemma NeverBeyondTotal(s: State, e: string, r: Resource)
    requires Capped(s) && e in s.engines && Exact(s.engines[e].machine, r)
    requires 1 <= Total(s.engines[e].machine, r) <= 100
    ensures Used(s, e, r) <= Total(s.engines[e].machine, r)
  {
    assert Used(s, e, r) <= Limit(Total(s.engines[e].machine, r));
  }
}
