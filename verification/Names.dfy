/** No two creations ever hold the same name. */
module Names {
  import opened Options
  import opened Containers
  import opened Nodes
  import opened Schedulers
  import opened Placement

  /** The creation with swarm ID `w` is in flight or registered. */
  ghost predicate Alive(s: State, w: string) {
    w in s.asked && (w in s.pending || Registered(s, w))
  }

  ghost predicate NameSafe(s: State) {
    && (forall w | w in s.pending :: w in s.asked && s.asked[w] == s.pending[w].name)
    && (forall w, e, k | w in s.asked && s.asked[w] != "" && Carries(s, e, k, w) :: Named(At(s, e, k), s.asked[w]))
    && (forall w, v | Alive(s, w) && Alive(s, v) && w != v && s.asked[w] == s.asked[v] :: s.asked[w] == "")
  }

  /** A name that passes the check is asked for by no creation that is alive. */
  lemma FreeNameUnasked(s: State, name: string, v: string)
    requires NameSafe(s) && NameFree(s, name) && name != "" && Alive(s, v)
    ensures s.asked[v] != name
  {
    if v !in s.pending {
      var e, k :| Carries(s, e, k, v);
      assert OnEngine(s, e, k) && !Named(At(s, e, k), name);
    }
  }

  lemma BeginNameSafe(s: State, w: string, p: Pending)
    requires NameSafe(s) && Reservable(s, w, p) && NameFree(s, p.name)
    ensures NameSafe(Reserve(s, w, p))
  {
    var s' := Reserve(s, w, p);
    assert forall e, k, v :: Carries(s', e, k, v) <==> Carries(s, e, k, v);
    forall v | Alive(s', v) && v != w ensures Alive(s, v) && (p.name != "" ==> s'.asked[v] != p.name) {
      assert Registered(s', v) <==> Registered(s, v);
      if p.name != "" {
        FreeNameUnasked(s, p.name, v);
      }
    }
    forall v, e, k | v in s'.asked && s'.asked[v] != "" && Carries(s', e, k, v)
      ensures Named(At(s', e, k), s'.asked[v])
    {
      assert v != w;
      assert Named(At(s, e, k), s.asked[v]);
    }
  }

  lemma RegisterNameSafe(s: State, w: string, c: Container)
    requires Sound(s) && NameSafe(s) && Registers(s, w, c)
    ensures NameSafe(AddContainer(s, s.pending[w].engine, c))
  {
    var s', e0 := AddContainer(s, s.pending[w].engine, c), s.pending[w].engine;
    assert ReservationSound(s, w);
    forall e, k, v | Carries(s', e, k, v) ensures (e == e0 && k == c.id && v == w) || Carries(s, e, k, v) {
    }
    forall v | Alive(s', v) ensures Alive(s, v) {
      if v !in s.pending {
        var e, k :| Carries(s', e, k, v);
        assert Carries(s, e, k, v);
      }
    }
  }

  lemma LessNameSafe(s': State, s: State)
    requires NameSafe(s) && Within(s', s) && s'.asked == s.asked
    ensures NameSafe(s')
  {
    assert forall e, k, v :: Carries(s', e, k, v) ==> Carries(s, e, k, v);
    forall v | Alive(s', v) ensures Alive(s, v) {
      if v !in s.pending {
        var e, k :| Carries(s', e, k, v);
        assert Carries(s, e, k, v);
      }
    }
  }

  lemma NextNameSafe(sch: Scheduler, s: State, step: Step, s': State)
    requires Sound(s) && Next(sch, s, step, s') && NameSafe(s)
    ensures NameSafe(s')
  {
    match step
    case Begin(w, config, image, name, n) =>
      BeginsReservable(sch, s, w, config, image, name, n);
      BeginNameSafe(s, w, Pending(config, name, n.id));
    case Register(w, c) => RegisterNameSafe(s, w, c);
    case _ => LessNameSafe(s', s);
  }

  /** On the reported names themselves: a registered container reports the name its creation asked for, with or without
      a slash before it, and that name is asked for by no other creation that is in flight or registered. */
  lemma ReportedNames(s: State, w: string, e: string, k: string, v: string)
    requires NameSafe(s) && Carries(s, e, k, w) && w in s.asked && s.asked[w] != ""
    ensures s.asked[w] in At(s, e, k).names || "/" + s.asked[w] in At(s, e, k).names
    ensures Alive(s, v) && v != w ==> s.asked[v] != s.asked[w]
    ensures w in s.pending ==> s.pending[w].name == s.asked[w]
  {
    assert Named(At(s, e, k), s.asked[w]);
    assert Registered(s, w) && Alive(s, w);
  }

  /** A container that reports a name, with or without a slash before it, keeps it from being free. */
  lemma ReportedIsTaken(s: State, e: string, k: string, name: string)
    requires OnEngine(s, e, k) && name != "" && (name in At(s, e, k).names || "/" + name in At(s, e, k).names)
    ensures !NameFree(s, name)
  {
    assert Named(At(s, e, k), name);
  }
}
