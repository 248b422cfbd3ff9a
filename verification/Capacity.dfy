/** No node is ever given more than it has, up to the rounding of the percentage test. */
module Capacity {
  import opened Options
  import opened Containers
  import opened Nodes
  import opened Arithmetic
  import opened Strategy
  import opened Schedulers
  import opened CpuShares
  import opened Sums
  import opened Placement

  /** The bookings of an engine's resource are exact: they equal what was asked for. */
  predicate Exact(m: Machine, r: Resource) {
    r.Memory? || m.cpus <= SHARES
  }

  predicate Natural(config: Config) {
    config.cpuShares >= 0 && config.memory >= 0
  }

  ghost predicate AllNatural(s: State) {
    && (forall e, k | OnEngine(s, e, k) :: Natural(At(s, e, k).config))
    && (forall w | w in s.pending :: Natural(s.pending[w].config))
  }

  ghost predicate Capped(s: State) {
    && AllNatural(s)
    && forall e, r | e in s.engines && Exact(s.engines[e].machine, r) ::
      Used(s, e, r) <= Limit(Total(s.engines[e].machine, r))
  }

  lemma UsedNatural(s: State, e: string, r: Resource)
    requires AllNatural(s) && e in s.engines
    ensures Used(s, e, r) >= 0
  {
    assert forall k | k in s.engines[e].containers :: OnEngine(s, e, k) && Natural(At(s, e, k).config);
    SumNatural(Held(s.engines[e].containers, r));
    SumNatural(Asked(s.pending, InFlight(s, e), r));
  }

  lemma AskedNew(ps: map<string, Pending>, ws: set<string>, w: string, p: Pending, r: Resource)
    requires w !in ps && ws <= ps.Keys
    ensures Asked(ps[w := p], ws, r) == Asked(ps, ws, r)
    ensures Sum(Asked(ps[w := p], ws + {w}, r)) == Sum(Asked(ps, ws, r)) + Amount(p.config, r)
  {
    assert Asked(ps[w := p], ws, r) == Asked(ps, ws, r);
    AskedPut(ps[w := p], ws, w, r);
  }

  lemma UsedReserve(s: State, w: string, p: Pending, e: string, r: Resource)
    requires Sound(s) && Reservable(s, w, p) && e in s.engines
    ensures Used(Reserve(s, w, p), e, r) == Used(s, e, r) + if p.engine == e then Amount(p.config, r) else 0
  {
    InFlightReserve(s, w, p, e);
    AskedNew(s.pending, InFlight(s, e), w, p, r);
    if p.engine != e {
      assert InFlight(s, e) + {} == InFlight(s, e);
    }
  }

  /** By how much the booking of a request exceeds it, on an engine with `cpus` CPUs. */
  function Excess(config: Config, cpus: int, r: Resource): int
    requires cpus > 0
  {
    if r.Cpus? then Booked(config.cpuShares, cpus) - config.cpuShares else 0
  }

  lemma ExcessBounds(config: Config, cpus: int, r: Resource)
    requires cpus > 0 && Natural(config)
    ensures 0 <= Excess(config, cpus, r) && ((cpus <= SHARES || r.Memory?) ==> Excess(config, cpus, r) == 0)
  {
    BookedBounds(config.cpuShares, cpus);
    RoundTripIff(cpus);
  }

  lemma UsedAdd(s: State, w: string, c: Container, e: string, r: Resource)
    requires Sound(s) && Registers(s, w, c) && e in s.engines
    ensures Used(AddContainer(s, s.pending[w].engine, c), e, r)
            == Used(s, e, r)
               + if e == s.pending[w].engine then Excess(s.pending[w].config, s.engines[e].machine.cpus, r) else 0
  {
    InFlightAdd(s, w, c, e);
    var ws := InFlight(s, e);
    if e == s.pending[w].engine {
      assert !Present(s, e, w) && w in ws;
      AskedDrop(s.pending, ws, w, r);
      HeldPut(s.engines[e].containers, c.id, c, r);
    } else {
      assert ws - {w} == ws;
    }
  }

  lemma UsedUnreserve(s: State, w: string, e: string, r: Resource)
    requires Sound(s) && AllNatural(s) && w in s.pending && e in s.engines
    ensures Used(Unreserve(s, w), e, r) <= Used(s, e, r)
  {
    InFlightUnreserve(s, w, e);
    var ws := InFlight(s, e);
    assert Asked(s.pending - {w}, ws - {w}, r) == Asked(s.pending, ws - {w}, r);
    if w in ws {
      AskedDrop(s.pending, ws, w, r);
    } else {
      assert ws - {w} == ws;
    }
  }

  lemma UsedDrop(s: State, f: string, k: string, e: string, r: Resource)
    requires Sound(s) && AllNatural(s) && OnEngine(s, f, k) && e in s.engines
    ensures Used(DropContainer(s, f, k), e, r) <= Used(s, e, r)
  {
    InFlightDrop(s, f, k, e);
    var ws, w := InFlight(s, e), At(s, f, k).config.swarmID;
    if e == f {
      HeldDrop(s.engines[e].containers, k, r);
      assert OnEngine(s, e, k) && Natural(At(s, e, k).config);
      if w in s.pending {
        NoLessBooked(s, w, e, k, r);
        AskedPut(s.pending, ws, w, r);
      } else {
        assert ws + {} == ws;
      }
    } else {
      assert ws + {} == ws;
    }
  }

  lemma NoLessBooked(s: State, w: string, e: string, k: string, r: Resource)
    requires Sound(s) && AllNatural(s) && w in s.pending && Carries(s, e, k, w)
    ensures Amount(At(s, e, k).config, r) >= Amount(s.pending[w].config, r)
  {
    assert CopySound(s, w, e, k) && Natural(s.pending[w].config);
    BookedBounds(s.pending[w].config.cpuShares, s.engines[e].machine.cpus);
  }

  /** The test that made the node eligible leaves room for the reservation, on top of
      everything that is registered or in flight. */
  lemma BeginsWithRoom(sch: Scheduler, s: State, w: string, config: Config, image: Option<Expr>, name: string,
                       n: Node, r: Resource)
    requires Begins(sch, s, w, config, image, name, n) && AllNatural(s)
    ensures Amount(config, r) > 0 ==> Used(s, n.id, r) + Amount(config, r) <= Limit(Total(s.engines[n.id].machine, r))
  {
    UsedNatural(s, n.id, Cpus);
    UsedNatural(s, n.id, Memory);
    EligibleIsRoom(n, WithImage(config, image));
  }

  /** Engine `e` registers a container that it books for more than was asked for. */
  ghost function Overbooked(s: State, step: Step, e: string, r: Resource): int
    requires Sane(s) && e in s.engines
  {
    if step.Register? && step.reserved in s.pending && s.pending[step.reserved].engine == e
    then Excess(s.pending[step.reserved].config, s.engines[e].machine.cpus, r) else 0
  }

  /** A step leaves what an engine has given away as it is or lower, or within the limit; a registration adds exactly
      what is booked beyond the request. */
  lemma NextUsed(sch: Scheduler, s: State, step: Step, s': State, e: string, r: Resource)
    requires Sound(s) && Next(sch, s, step, s') && AllNatural(s) && e in s.engines
    requires step.Begin? ==> Natural(step.config)
    ensures e in s'.engines
    ensures if step.Register? then Used(s', e, r) == Used(s, e, r) + Overbooked(s, step, e, r)
            else Used(s', e, r) <= Used(s, e, r) || Used(s', e, r) <= Limit(Total(s.engines[e].machine, r))
  {
    match step
    case Begin(w, config, image, name, n) =>
      BeginsReservable(sch, s, w, config, image, name, n);
      BeginsWithRoom(sch, s, w, config, image, name, n, r);
      UsedReserve(s, w, Pending(config, name, n.id), e, r);
    case Register(w, c) => UsedAdd(s, w, c, e, r);
    case End(w) => UsedUnreserve(s, w, e, r);
    case Remove(f, k) => UsedDrop(s, f, k, e, r);
    case Observe(_, _, _) =>
      assert forall k, v :: Carries(s', e, k, v) <==> Carries(s, e, k, v);
      assert InFlight(s', e) == InFlight(s, e);
  }

  lemma NextCapped(sch: Scheduler, s: State, step: Step, s': State)
    requires Sound(s) && Next(sch, s, step, s') && Capped(s)
    requires step.Begin? ==> Natural(step.config)
    ensures Capped(s')
  {
    NextNatural(sch, s, step, s');
    forall e, r | e in s'.engines && Exact(s'.engines[e].machine, r)
      ensures Used(s', e, r) <= Limit(Total(s'.engines[e].machine, r))
    {
      assert Used(s, e, r) <= Limit(Total(s.engines[e].machine, r));
      NextUsed(sch, s, step, s', e, r);
      if step.Register? {
        ExcessBounds(s.pending[step.reserved].config, s.engines[e].machine.cpus, r);
      }
    }
  }

  /** All engines are within their limits, those with more than 1024 CPUs as well. */
  ghost predicate InLimit(s: State, e: string, r: Resource)
    requires e in s.engines
  {
    Used(s, e, r) <= Limit(Total(s.engines[e].machine, r))
  }

  ghost predicate AllInLimit(s: State) {
    AllNatural(s) && forall e, r | e in s.engines :: InLimit(s, e, r)
  }

  /** The engine of a registration has room for what it books beyond the request. */
  ghost predicate Fits(s: State, step: Step)
    requires Sane(s)
  {
    forall e, r | e in s.engines && Overbooked(s, step, e, r) > 0 ::
      Used(s, e, r) + Overbooked(s, step, e, r) <= Limit(Total(s.engines[e].machine, r))
  }

  /** A step keeps all engines within their limits exactly when it is no registration that is booked beyond them. */
  lemma NextInLimitIff(sch: Scheduler, s: State, step: Step, s': State)
    requires Sound(s) && Next(sch, s, step, s') && AllInLimit(s)
    requires step.Begin? ==> Natural(step.config)
    ensures AllInLimit(s') <==> Fits(s, step)
  {
    NextNatural(sch, s, step, s');
    forall e, r | e in s.engines
      ensures e in s'.engines
              && (InLimit(s', e, r) <==> (Overbooked(s, step, e, r) > 0 ==>
                    Used(s, e, r) + Overbooked(s, step, e, r) <= Limit(Total(s.engines[e].machine, r))))
    {
      assert InLimit(s, e, r);
      NextUsed(sch, s, step, s', e, r);
      OverbookedNatural(s, step, e, r);
    }
  }

  lemma OverbookedNatural(s: State, step: Step, e: string, r: Resource)
    requires Sane(s) && AllNatural(s) && e in s.engines
    ensures Overbooked(s, step, e, r) >= 0
  {
    if step.Register? && step.reserved in s.pending {
      ExcessBounds(s.pending[step.reserved].config, s.engines[e].machine.cpus, r);
    }
  }

  lemma NextNatural(sch: Scheduler, s: State, step: Step, s': State)
    requires Sound(s) && Next(sch, s, step, s') && AllNatural(s)
    requires step.Begin? ==> Natural(step.config)
    ensures AllNatural(s')
  {
    match step
    case Register(w, c) =>
      BookedBounds(s.pending[w].config.cpuShares, s.engines[s.pending[w].engine].machine.cpus);
      forall e, k | OnEngine(s', e, k) ensures Natural(At(s', e, k).config) {
        if e != s.pending[w].engine || k != c.id {
          assert OnEngine(s, e, k);
        }
      }
    case _ =>
      assert forall e, k :: OnEngine(s', e, k) ==> OnEngine(s, e, k) && At(s', e, k) == At(s, e, k);
  }
}
