/** What the steps of a creation undo. */
module Lifecycle {
  import opened Options
  import opened Containers
  import opened Schedulers
  import opened Nodes
  import opened Filters
  import opened Meanings
  import opened Placement

  /** A creation that fails leaves no trace: engines and reservations are as before, and the name is free again. */
  lemma FailedCreation(sch: Scheduler, s: State, begin: Step, s1: State, end: Step, s2: State)
    requires Sound(s) && begin.Begin? && Next(sch, s, begin, s1)
    requires Sane(s1) && end == End(begin.w) && Next(sch, s1, end, s2)
    ensures s2.engines == s.engines && s2.pending == s.pending && NameFree(s2, begin.name)
  {
    assert forall e, k :: OnEngine(s2, e, k) <==> OnEngine(s, e, k);
  }

  /** One that succeeds leaves its container on the engine that was chosen, and no reservation. */
  lemma Creation(sch: Scheduler, s: State, begin: Step, s1: State, register: Step, s2: State, end: Step, s3: State)
    requires Sound(s) && begin.Begin? && Next(sch, s, begin, s1)
    requires Sane(s1) && register.Register? && register.reserved == begin.w && Next(sch, s1, register, s2)
    requires Sane(s2) && end == End(begin.w) && Next(sch, s2, end, s3)
    ensures var e, c := begin.chosen.id, register.container;
      && e in s.engines && c.id !in s.engines[e].containers && c.config.swarmID == begin.w
      && s3.pending == s.pending
      && s3.engines == s.engines[e := s.engines[e].(containers := s.engines[e].containers[c.id := c])]
  {
  }

  /** And removing that container undoes it. */
  lemma RemovalUndoes(sch: Scheduler, s: State, w: string, c: Container, s1: State, s2: State)
    requires Sound(s) && Next(sch, s, Register(w, c), s1)
    requires Sane(s1) && Next(sch, s1, Remove(s.pending[w].engine, c.id), s2)
    ensures s2 == s
  {
    var e := s.pending[w].engine;
    assert s.engines[e].containers[c.id := c] - {c.id} == s.engines[e].containers;
    assert s2.engines[e] == s.engines[e];
    assert s2.engines == s.engines;
  }

  /** A retry with an affinity to an image asks for a node that has the image, on top of everything else; without one
      nothing is added. */
  lemma ImageRetry(sch: Scheduler, n: Node, config: Config, image: Option<Expr>)
    requires Affinity in sch.filters && AllParse(sch.filters, config)
    ensures image == None ==> WithImage(config, image) == config
    ensures image.Some? && !image.value.soft ==>
              (MeetsAll(n, AllDemands(sch.filters, WithImage(config, image), false)) <==>
               MeetsAll(n, AllDemands(sch.filters, config, false)) && Meets(n, BeNear(image.value)))
  {
    if image.Some? && !image.value.soft {
      var fs, want := sch.filters, WithImage(config, image);
      forall f | f in fs ensures Parses(f, config) && Parses(f, want) {
      }
      assert AllParse(fs, want);
      PassesIff(n, fs, config, false);
      PassesIff(n, fs, want, false);
      forall f | f in fs
        ensures Passes(n, f, want, false) <==>
                Passes(n, f, config, false) && (f.Affinity? ==> AffinityHolds(image.value, n))
      {
        assert forall e :: e in config.affinities.exprs + [image.value] <==>
                             e in config.affinities.exprs || e == image.value;
      }
    }
  }

  /** A container in flight shows what was asked for, and answers to its name. */
  lemma InFlightAnswers(p: Pending, engineName: string)
    ensures var c := ToContainer(p, engineName);
      && c.id == "" && c.config == p.config && c.labels == p.config.labels && c.info == NO_INFO
      && c.engineID == p.engine && c.engineName == engineName
      && (p.name != "" ==> Matches(ByName, c, p.name) && c.names == ["/" + p.name])
      && (p.name == "" ==> c.names == [])
  {
    var c := ToContainer(p, engineName);
    if p.name != "" {
      assert c.names[0] == "/" + p.name;
    }
  }
}
