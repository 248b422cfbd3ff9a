/** The watchdog: it reschedules the containers of failed engines and removes the duplicates when they return. */
module Watchdogs {

  /** What the watchdog looks at in a container. */
  datatype Held = Held(swarmID: string, name: string, onNodeFailure: bool, networked: bool)

  type Shelf = map<string, Held>

  /** `view` is what the manager believes its engines hold, `actual` what they do hold; the engines in
      `members` belong to the cluster. */
  datatype World = World(members: set<string>, view: map<string, Shelf>, actual: map<string, Shelf>)

  /** How the attempt to create a container again ends. */
  datatype Outcome = NoEngine | Failed | Created(on: string, id: string)

  datatype Step =
    | Refresh(engine: string)
    | Reschedule(from: string, key: string, outcome: Outcome)
    | RemoveDuplicate(doubled: string, copy: string, other: string, otherKey: string, ok: bool)

  predicate Nameless(c: Held) {
    c.name == "" || c.name == "/"
  }

  predicate InView(w: World, e: string, k: string) {
    e in w.view && k in w.view[e]
  }

  function SetView(w: World, e: string, s: Shelf): World {
    w.(view := w.view[e := s])
  }

  /** What becomes of one container of a failed engine that has the rescheduling policy: it is taken off the
      engine in the manager's view; a nameless one stays off; if creating it elsewhere fails it is put back. */
  function Rescheduled(w: World, e: string, k: string, o: Outcome): World
    requires InView(w, e, k) && (o.Created? ==> o.on in w.view && o.on in w.actual)
  {
    var c := w.view[e][k];
    var off := SetView(w, e, w.view[e] - {k});
    if Nameless(c) then off
    else if o.Created? then
      World(w.members, off.view[o.on := off.view[o.on][o.id := c]], w.actual[o.on := w.actual[o.on][o.id := c]])
    else SetView(off, e, off.view[e][k := c])
  }

  function After(w: World, step: Step): World
    requires Legal(w, step)
  {
    match step
    case Refresh(e) => SetView(w, e, w.actual[e])
    case Reschedule(e, k, o) => Rescheduled(w, e, k, o)
    case RemoveDuplicate(e, k, _, _, ok) =>
      if ok then World(w.members, w.view[e := w.view[e] - {k}], w.actual[e := w.actual[e] - {k}]) else w
  }

  ghost predicate Legal(w: World, step: Step) {
    match step
    case Refresh(e) => e in w.actual
    case Reschedule(e, k, o) =>
      && InView(w, e, k) && w.view[e][k].onNodeFailure && (o.NoEngine? ==> w.view[e][k].networked)
      && (o.Created? ==> o.on in w.members && o.on in w.view && o.on in w.actual && o.id !in w.actual[o.on])
    case RemoveDuplicate(e, k, f, j, _) =>
      && InView(w, e, k) && e in w.actual && InView(w, f, j) && f in w.members && e != f
      && w.view[e][k].swarmID == w.view[f][j].swarmID != ""
  }

  ghost predicate LegalRun(w: World, steps: seq<Step>)
    decreases |steps|
  {
    steps != [] ==> Legal(w, steps[0]) && LegalRun(After(w, steps[0]), steps[1..])
  }

  ghost function AfterAll(w: World, steps: seq<Step>): World
    requires LegalRun(w, steps)
    decreases |steps|
  {
    if steps == [] then w else AfterAll(After(w, steps[0]), steps[1..])
  }

  predicate InActual(w: World, e: string, k: string) {
    e in w.actual && k in w.actual[e]
  }

  /** `names` gives the name each swarm ID was created with. */
  ghost predicate Proper(c: Held, names: map<string, string>) {
    c.swarmID != "" ==> c.swarmID in names && c.name == names[c.swarmID]
  }

  /** The manager sees only containers there are, as they are. */
  ghost predicate Accurate(w: World) {
    && w.view.Keys == w.actual.Keys
    && (forall e, k {:trigger InView(w, e, k)} | InView(w, e, k) :: InActual(w, e, k) && w.actual[e][k] == w.view[e][k])
  }

  /** Moreover, containers with one swarm ID have one name. */
  ghost predicate Sound(w: World, names: map<string, string>) {
    && Accurate(w)
    && (forall e, k {:trigger InActual(w, e, k)} | InActual(w, e, k) :: Proper(w.actual[e][k], names))
  }

  // ---- What the steps do ----

  /** A container that is refreshed or not touched by a step is seen afterwards exactly if it is there. */
  lemma RefreshShows(w: World, e: string)
    requires Legal(w, Refresh(e))
    ensures var v := After(w, Refresh(e));
      && v.members == w.members && v.actual == w.actual && e in v.view && v.view[e] == w.actual[e]
      && forall f | f in w.view && f != e :: f in v.view && v.view[f] == w.view[f]
  {
  }

  /** The container `c` is at `k` of engine `e`, in the manager's view and in fact. */
  predicate Sits(w: World, e: string, k: string, c: Held) {
    InView(w, e, k) && w.view[e][k] == c && InActual(w, e, k) && w.actual[e][k] == c
  }

  /** Rescheduling takes a container out of the manager's view of its engine and, when creating it elsewhere
      succeeds, puts it into view there, where it is new; one that has a name but could not be created stays. In
      fact it stays on its engine in any case. */
  lemma RescheduleMoves(w: World, e: string, k: string, o: Outcome, names: map<string, string>)
    requires Sound(w, names) && Legal(w, Reschedule(e, k, o))
    ensures var c, v := w.view[e][k], After(w, Reschedule(e, k, o));
      var nameless := c.name == "" || c.name == "/";
      && (forall f, j | InActual(w, f, j) :: InActual(v, f, j) && v.actual[f][j] == w.actual[f][j])
      && (nameless ==> forall f, j :: InView(v, f, j) <==> InView(w, f, j) && !(f == e && j == k))
      && (!nameless && !o.Created? ==> Sits(v, e, k, c) && forall f, j :: InView(v, f, j) <==> InView(w, f, j))
      && (!nameless && o.Created? ==>
            && Sits(v, o.on, o.id, c) && !InActual(w, o.on, o.id)
            && forall f, j :: InView(v, f, j) <==>
                 (f == o.on && j == o.id) || (InView(w, f, j) && !(f == e && j == k)))
  {
    assert InActual(w, e, k);
  }

  /** Removing a duplicate that succeeds takes it away from its engine and from view, and nothing else. */
  lemma RemoveDuplicateTakes(w: World, step: Step)
    requires step.RemoveDuplicate? && Legal(w, step)
    ensures var v, e, k := After(w, step), step.doubled, step.copy;
      && (forall f, j :: InView(v, f, j) <==> InView(w, f, j) && !(step.ok && f == e && j == k))
      && (forall f, j :: InActual(v, f, j) <==> InActual(w, f, j) && !(step.ok && f == e && j == k))
  {
  }

  /** How often the steps reschedule the container at `k` of engine `e`. */
  ghost function Times(steps: seq<Step>, e: string, k: string): nat {
    if steps == [] then 0 else Times(steps[..|steps| - 1], e, k) + Once(steps[|steps| - 1], e, k)
  }

  ghost function Once(step: Step, e: string, k: string): nat {
    if step.Reschedule? && step.from == e && step.key == k then 1 else 0
  }

  lemma {:induction false} TimesConcat(steps: seq<Step>, more: seq<Step>, e: string, k: string)
    ensures Times(steps + more, e, k) == Times(steps, e, k) + Times(more, e, k)
    decreases |more|
  {
    if more == [] {
      assert steps + more == steps;
    } else {
      assert (steps + more)[..|steps + more| - 1] == steps + more[..|more| - 1];
      TimesConcat(steps, more[..|more| - 1], e, k);
    }
  }

  lemma TimesSnoc(steps: seq<Step>, step: Step, e: string, k: string)
    ensures Times(steps + [step], e, k) == Times(steps, e, k) + Once(step, e, k)
  {
    assert (steps + [step])[..|steps|] == steps;
  }

  /** What sits somewhere still does after a refresh. */
  lemma RefreshKeeps(w: World, e: string)
    requires Accurate(w) && e in w.actual
    ensures Accurate(After(w, Refresh(e)))
    ensures forall f, k, c | Sits(w, f, k, c) :: Sits(After(w, Refresh(e)), f, k, c)
  {
    var v := After(w, Refresh(e));
    assert forall f, k :: InActual(v, f, k) <==> InActual(w, f, k);
    assert forall f, k | f != e :: InView(v, f, k) ==> InView(w, f, k);
  }

  /** And after the rescheduling of another container. */
  lemma RescheduleOthers(w: World, e: string, k: string, o: Outcome)
    requires Accurate(w) && Legal(w, Reschedule(e, k, o))
    ensures Accurate(After(w, Reschedule(e, k, o)))
    ensures forall f, j, c | Sits(w, f, j, c) && !(f == e && j == k) :: Sits(After(w, Reschedule(e, k, o)), f, j, c)
  {
    var v := After(w, Reschedule(e, k, o));
    assert InActual(w, e, k);
    forall f, j | InView(v, f, j) ensures InActual(v, f, j) && v.actual[f][j] == v.view[f][j] {
      if InView(w, f, j) {
        assert InActual(w, f, j);
      }
    }
  }

  ghost predicate Shows(w: World, e: string, k: string, id: string) {
    InView(w, e, k) && w.view[e][k].swarmID == id && !Nameless(w.view[e][k])
  }

  /** The manager sees a named container with the swarm ID on some engine. */
  ghost predicate Present(w: World, id: string) {
    exists e, k :: Shows(w, e, k, id)
  }

  lemma RefreshSound(w: World, e: string, names: map<string, string>)
    requires Sound(w, names) && e in w.actual
    ensures Sound(SetView(w, e, w.actual[e]), names)
    ensures forall id | Present(w, id) :: Present(SetView(w, e, w.actual[e]), id)
  {
    var v := SetView(w, e, w.actual[e]);
    assert forall f, k :: InActual(v, f, k) ==> InActual(w, f, k);
    assert forall f, k | f != e :: InView(v, f, k) ==> InView(w, f, k);
    forall id | Present(w, id) ensures Present(v, id) {
      var f, k :| Shows(w, f, k, id);
      assert InActual(w, f, k);
      assert Shows(v, f, k, id);
    }
  }

  lemma RescheduleSound(w: World, e: string, k: string, o: Outcome, names: map<string, string>)
    requires Sound(w, names) && Legal(w, Reschedule(e, k, o))
    ensures Sound(Rescheduled(w, e, k, o), names)
  {
    var v, c := Rescheduled(w, e, k, o), w.view[e][k];
    forall f, j | InActual(v, f, j) ensures Proper(v.actual[f][j], names) {
      assert InActual(w, e, k);
      if !(o.Created? && f == o.on && j == o.id) {
        assert InActual(w, f, j);
      }
    }
    forall f, j | InView(v, f, j) ensures InActual(v, f, j) && v.actual[f][j] == v.view[f][j] {
      if InView(w, f, j) {
        assert InActual(w, f, j);
      }
    }
  }

  lemma RescheduleKeeps(w: World, e: string, k: string, o: Outcome, id: string, names: map<string, string>)
    requires Sound(w, names) && Legal(w, Reschedule(e, k, o)) && Present(w, id)
    ensures Present(Rescheduled(w, e, k, o), id)
  {
    var v := Rescheduled(w, e, k, o);
    var f, j :| Shows(w, f, j, id);
    assert InActual(w, f, j);
    if f == e && j == k && o.Created? {
      assert Shows(v, o.on, o.id, id);
    } else {
      assert Shows(v, f, j, id);
    }
  }

  lemma RemoveDuplicateSound(w: World, step: Step, names: map<string, string>)
    requires Sound(w, names) && step.RemoveDuplicate? && Legal(w, step)
    ensures Sound(After(w, step), names)
    ensures forall id | Present(w, id) :: Present(After(w, step), id)
  {
    var v := After(w, step);
    assert forall f, j :: InActual(v, f, j) ==> InActual(w, f, j);
    assert forall f, j :: InView(v, f, j) ==> InView(w, f, j);
    forall id | Present(w, id) ensures Present(v, id) {
      var e, k :| Shows(w, e, k, id);
      if e == step.doubled && k == step.copy {
        OtherNamed(w, step, names);
        assert Shows(v, step.other, step.otherKey, id);
      } else {
        assert Shows(v, e, k, id);
      }
    }
  }

  lemma OtherNamed(w: World, step: Step, names: map<string, string>)
    requires Sound(w, names) && step.RemoveDuplicate? && Legal(w, step)
    ensures w.view[step.doubled][step.copy].name == w.view[step.other][step.otherKey].name
  {
    assert InView(w, step.doubled, step.copy) && InView(w, step.other, step.otherKey);
    assert InActual(w, step.doubled, step.copy) && InActual(w, step.other, step.otherKey);
  }

  lemma StepSound(w: World, step: Step, names: map<string, string>)
    requires Sound(w, names) && Legal(w, step)
    ensures Sound(After(w, step), names)
    ensures forall id | Present(w, id) :: Present(After(w, step), id)
  {
    match step
    case Refresh(e) => RefreshSound(w, e, names);
    case Reschedule(e, k, o) =>
      RescheduleSound(w, e, k, o, names);
      forall id | Present(w, id) ensures Present(After(w, step), id) {
        RescheduleKeeps(w, e, k, o, id, names);
      }
    case RemoveDuplicate(_, _, _, _, _) => RemoveDuplicateSound(w, step, names);
  }

  /** However reschedulings, refreshes of returning engines and removals of duplicates interleave, container by
      container: a swarm ID that a named container carries never gets lost. */
  lemma {:induction false} NothingLost(w: World, steps: seq<Step>, names: map<string, string>)
    requires Sound(w, names) && LegalRun(w, steps)
    ensures Sound(AfterAll(w, steps), names)
    ensures forall id | Present(w, id) :: Present(AfterAll(w, steps), id)
    decreases |steps|
  {
    if steps != [] {
      StepSound(w, steps[0], names);
      NothingLost(After(w, steps[0]), steps[1..], names);
    }
  }

  /** Some container with the swarm ID, named or not, is seen on engine `e` at `k` . */
  predicate Carries(w: World, e: string, k: string, id: string) {
    InView(w, e, k) && w.view[e][k].swarmID == id
  }

  ghost predicate Seen(w: World, id: string) {
    exists e, k :: Carries(w, e, k, id)
  }

  /** The container at `k` of engine `e` is the only one with its swarm ID. */
  ghost predicate Only(w: World, e: string, k: string, id: string) {
    forall f, j :: Carries(w, f, j, id) <==> f == e && j == k
  }

  /** A nameless container that is the only one with its swarm ID is lost to the manager when it is
      rescheduled; a step loses a swarm ID from sight in no other case. */
  lemma LostIff(w: World, step: Step, id: string, names: map<string, string>)
    requires Sound(w, names) && Legal(w, step) && Seen(w, id)
    ensures !Seen(After(w, step), id) <==>
            step.Reschedule? && Nameless(w.view[step.from][step.key]) && Only(w, step.from, step.key, id)
  {
    var v := After(w, step);
    var e, k :| Carries(w, e, k, id);
    match step
    case Refresh(f) =>
      assert InView(w, e, k);
      assert Carries(v, e, k, id);
    case RemoveDuplicate(f, j, g, l, _) =>
      if e == f && k == j {
        assert Carries(v, g, l, id);
      } else {
        assert Carries(v, e, k, id);
      }
    case Reschedule(f, j, o) =>
      if Nameless(w.view[f][j]) {
        assert forall g, l :: Carries(v, g, l, id) <==> Carries(w, g, l, id) && !(g == f && l == j);
      } else if o.Created? && ((e == f && k == j) || (e == o.on && k == o.id)) {
        assert InView(w, e, k) && Carries(v, o.on, o.id, id);
      } else {
        assert Carries(v, e, k, id);
      }
  }

  lemma {:induction false} RunConcat(w: World, steps: seq<Step>, more: seq<Step>)
    requires LegalRun(w, steps) && LegalRun(AfterAll(w, steps), more)
    ensures LegalRun(w, steps + more) && AfterAll(w, steps + more) == AfterAll(AfterAll(w, steps), more)
    decreases |steps|
  {
    if steps == [] {
      assert steps + more == more;
    } else {
      RunConcat(After(w, steps[0]), steps[1..], more);
      assert (steps + more)[1..] == steps[1..] + more;
    }
  }

  lemma RunSnoc(w: World, steps: seq<Step>, step: Step)
    requires LegalRun(w, steps) && Legal(AfterAll(w, steps), step)
    ensures LegalRun(w, steps + [step]) && AfterAll(w, steps + [step]) == After(AfterAll(w, steps), step)
  {
    var v := AfterAll(w, steps);
    assert [step][1..] == [];
    assert LegalRun(After(v, step), []);
    RunConcat(w, steps, [step]);
  }

  /** Engine `f` of the cluster holds the swarm ID at `j` too. */
  predicate Doubles(w: World, e: string, f: string, j: string, id: string) {
    f in w.members && f != e && Carries(w, f, j, id)
  }

  /** The swarm ID of the container at `k` is on no other engine of the cluster. */
  ghost predicate Single(w: World, e: string, k: string) {
    InView(w, e, k) && w.view[e][k].swarmID != "" ==> forall f, j :: !Doubles(w, e, f, j, w.view[e][k].swarmID)
  }

  /** Two worlds that differ at most in the containers `w` still has on engine `e`. */
  ghost predicate Shrinks(v: World, w: World, e: string) {
    && v.members == w.members && v.view.Keys == w.view.Keys
    && (forall f | f in w.view && f != e :: v.view[f] == w.view[f])
    && (e in w.view ==> v.view[e].Keys <= w.view[e].Keys && forall k | k in v.view[e] :: v.view[e][k] == w.view[e][k])
  }

  lemma SingleAfter(v: World, w: World, e: string, k: string)
    requires Shrinks(v, w, e) && InView(w, e, k)
    requires InView(v, e, k) ==> forall f, j :: !Doubles(w, e, f, j, w.view[e][k].swarmID)
    ensures Single(v, e, k)
  {
    if InView(v, e, k) {
      ShrinksSingle(v, w, e, k);
    }
  }

  lemma ShrinksSingle(v: World, w: World, e: string, k: string)
    requires Shrinks(v, w, e) && Single(w, e, k)
    ensures Single(v, e, k)
  {
    if InView(v, e, k) && v.view[e][k].swarmID != "" {
      forall f, j ensures !Doubles(v, e, f, j, v.view[e][k].swarmID) {
        assert !Doubles(w, e, f, j, w.view[e][k].swarmID);
      }
    }
  }

  /** The steps remove duplicates from engine `e` and refresh it, and nothing else. */
  ghost predicate Cleans(steps: seq<Step>, e: string) {
    forall s | s in steps :: (s.Refresh? && s.engine == e) || (s.RemoveDuplicate? && s.doubled == e)
  }

  /** All removals among the steps succeed. */
  ghost predicate Succeeds(steps: seq<Step>) {
    forall s | s in steps && s.RemoveDuplicate? :: s.ok
  }

  lemma ShrinksTwice(u: World, v: World, w: World, e: string)
    requires Shrinks(u, v, e) && Shrinks(v, w, e)
    ensures Shrinks(u, w, e)
    ensures forall k | InView(u, e, k) :: InView(v, e, k) && InView(w, e, k)
  {
  }

  lemma IsDuplicate(v: World, w: World, e: string, k: string, f: string, j: string)
    requires Shrinks(v, w, e) && InView(w, e, k) && InView(w, f, j) && f in w.members && f != e && e in v.actual
    requires w.view[e][k].swarmID == w.view[f][j].swarmID != ""
    ensures InView(v, e, k) ==> Legal(v, RemoveDuplicate(e, k, f, j, true))
  {
  }

  /** A run from `w` to `v` that does nothing but that, and of which `ok` tells whether it succeeded. */
  ghost predicate Cleaned(w: World, v: World, steps: seq<Step>, e: string, ok: bool) {
    LegalRun(w, steps) && v == AfterAll(w, steps) && Cleans(steps, e) && (ok <==> Succeeds(steps))
  }

  lemma CleanedMore(w: World, v: World, u: World, steps: seq<Step>, more: seq<Step>, e: string, ok: bool, next: bool)
    requires Cleaned(w, v, steps, e, ok) && Cleaned(v, u, more, e, next)
    ensures Cleaned(w, u, steps + more, e, ok && next)
  {
    RunConcat(w, steps, more);
    assert forall s :: s in steps + more <==> s in steps || s in more;
  }

  class Watchdog {
    var members: set<string>
    var view: map<string, Shelf>
    var actual: map<string, Shelf>

    function W(): World
      reads this
    {
      World(members, view, actual)
    }

    constructor (members: set<string>, view: map<string, Shelf>, actual: map<string, Shelf>)
      ensures W() == World(members, view, actual)
    {
      this.members, this.view, this.actual := members, view, actual;
    }

    method RefreshContainers(e: string)
      requires e in actual
      modifies this`view
      ensures W() == After(old(W()), Refresh(e))
    {
      view := view[e := actual[e]];
    }

    /** Any engine may be refreshed at any time, also while the watchdog is at work. */
    method Interfere() returns (ghost steps: seq<Step>)
      requires Accurate(W())
      modifies this`view
      ensures LegalRun(old(W()), steps) && W() == AfterAll(old(W()), steps)
      ensures Accurate(W()) && forall f, j, c | Sits(old(W()), f, j, c) :: Sits(W(), f, j, c)
      ensures forall f, j :: Times(steps, f, j) == 0
    {
      steps := [];
      var n: nat := *;
      while n > 0
        invariant LegalRun(old(W()), steps) && W() == AfterAll(old(W()), steps)
        invariant Accurate(W()) && forall f, j, c | Sits(old(W()), f, j, c) :: Sits(W(), f, j, c)
        invariant forall f, j :: Times(steps, f, j) == 0
      {
        if actual.Keys != {} {
          var e :| e in actual.Keys;
          RefreshKeeps(W(), e);
          RunSnoc(old(W()), steps, Refresh(e));
          forall f, j ensures Times(steps + [Refresh(e)], f, j) == 0 {
            TimesSnoc(steps, Refresh(e), f, j);
          }
          RefreshContainers(e);
          steps := steps + [Refresh(e)];
        }
        n := n - 1;
      }
    }

    /** Where and whether a new container comes up is not the watchdog's choice. */
    method CreateContainer(networked: bool) returns (o: Outcome)
      ensures o.NoEngine? ==> networked
      ensures o.Created? ==> o.on in members && o.on in view && o.on in actual && o.id !in actual[o.on]
    {
      var fate: bool, on: string, id: string := *, *, *;
      if networked && fate {
        return NoEngine;
      }
      if on in members && on in view && on in actual && id !in actual[on] {
        return Created(on, id);
      }
      o := Failed;
    }

    /** The loop body of rescheduleContainers for a container that has the policy. */
    method RescheduleOne(e: string, k: string) returns (ghost step: Step)
      requires InView(W(), e, k) && view[e][k].onNodeFailure
      modifies this`view, this`actual
      ensures Legal(old(W()), step) && W() == After(old(W()), step)
      ensures step.Reschedule? && step.from == e && step.key == k
    {
      var c := view[e][k];
      var o := CreateContainer(c.networked);
      step := Reschedule(e, k, o);
      view := view[e := view[e] - {k}];
      if Nameless(c) {
        return;
      }
      match o {
        case NoEngine | Failed => view := view[e := view[e][k := c]];
        case Created(on, id) =>
          view := view[on := view[on][id := c]];
          actual := actual[on := actual[on][id := c]];
      }
    }

    /** rescheduleContainers: a run of legal steps, whatever is refreshed in between, that reschedules exactly the
        containers seen on the engine that have the policy, each of them once. */
    method RescheduleContainers(e: string) returns (ghost steps: seq<Step>)
      requires e in view && Accurate(W())
      modifies this`view, this`actual
      ensures LegalRun(old(W()), steps) && W() == AfterAll(old(W()), steps)
      ensures forall f, k :: Times(steps, f, k)
                             == if f == e && k in old(view[e]) && old(view[e])[k].onNodeFailure then 1 else 0
    {
      steps := [];
      var containers, todo := view[e], view[e].Keys;
      assert forall k | k in todo :: InView(W(), e, k);
      while todo != {}
        invariant LegalRun(old(W()), steps) && W() == AfterAll(old(W()), steps) && Accurate(W())
        invariant todo <= containers.Keys && forall k | k in todo :: Sits(W(), e, k, containers[k])
        invariant forall f, k :: Times(steps, f, k)
                    == if f == e && k in containers && k !in todo && containers[k].onNodeFailure then 1 else 0
      {
        var k :| k in todo;
        ghost var before := steps;
        ghost var between := Interfere();
        RunConcat(old(W()), steps, between);
        steps := steps + between;
        forall f, j ensures Times(steps, f, j) == Times(before, f, j) {
          TimesConcat(before, between, f, j);
        }
        if containers[k].onNodeFailure {
          ghost var w, now := W(), steps;
          ghost var step := RescheduleOne(e, k);
          RescheduleOthers(w, e, k, step.outcome);
          RunSnoc(old(W()), steps, step);
          steps := steps + [step];
          forall f, j ensures Times(steps, f, j) == Times(now, f, j) + Once(step, f, j) {
            TimesSnoc(now, step, f, j);
          }
        }
        todo := todo - {k};
      }
    }

    /** Engine.RemoveContainer on a container of which a copy was found elsewhere: it may fail. */
    method RemoveContainer(e: string, k: string, ghost f: string, ghost j: string)
      returns (ok: bool, ghost steps: seq<Step>)
      requires e in view && e in actual
      requires InView(W(), e, k) ==> Legal(W(), RemoveDuplicate(e, k, f, j, true))
      modifies this`view, this`actual
      ensures Cleaned(old(W()), W(), steps, e, ok) && Shrinks(W(), old(W()), e)
      ensures ok ==> !InView(W(), e, k)
      ensures e in view && e in actual
    {
      if k !in view[e] {
        return true, [];
      }
      ok := *;
      steps := [RemoveDuplicate(e, k, f, j, ok)];
      assert steps[1..] == [];
      if ok {
        view := view[e := view[e] - {k}];
        actual := actual[e := actual[e] - {k}];
      }
    }

    /** The inner loop of removeDuplicateContainers: look through the cluster for copies of one container. */
    method RemoveIfDouble(e: string, k: string) returns (ok: bool, ghost steps: seq<Step>)
      requires InView(W(), e, k) && e in actual && view[e][k].swarmID != ""
      modifies this`view, this`actual
      ensures Cleaned(old(W()), W(), steps, e, ok) && Shrinks(W(), old(W()), e)
      ensures ok ==> Single(W(), e, k)
      ensures e in view && e in actual
    {
      ok, steps := true, [];
      var id, cluster := view[e][k].swarmID, view;
      ghost var w := W();
      var fs := members;
      while fs != {}
        invariant Cleaned(w, W(), steps, e, ok) && Shrinks(W(), w, e) && e in view && e in actual
        invariant fs <= members
        invariant ok && InView(W(), e, k) ==> forall f, j | f !in fs :: !Doubles(w, e, f, j, id)
      {
        var f :| f in fs;
        if f in cluster && f != e {
          ghost var before := W();
          var removed;
          ghost var more;
          removed, more := RemoveIfOn(e, k, id, f, cluster[f], w);
          CleanedMore(w, before, W(), steps, more, e, ok, removed);
          ok, steps := ok && removed, steps + more;
        }
        fs := fs - {f};
      }
      if ok {
        SingleAfter(W(), w, e, k);
      }
    }

    /** The same for the containers of one other engine, as they were listed. */
    method RemoveIfOn(e: string, k: string, id: string, f: string, listed: Shelf, ghost w: World)
      returns (ok: bool, ghost steps: seq<Step>)
      requires e in view && e in actual && f in members && f != e
      requires Shrinks(W(), w, e) && InView(w, e, k) && f in w.view && listed == w.view[f]
      requires id == w.view[e][k].swarmID != ""
      modifies this`view, this`actual
      ensures Cleaned(old(W()), W(), steps, e, ok) && Shrinks(W(), w, e)
      ensures e in view && e in actual && Shrinks(W(), old(W()), e)
      ensures ok && InView(W(), e, k) ==> forall j :: !Doubles(w, e, f, j, id)
    {
      ok, steps := true, [];
      ghost var start := W();
      var js := listed.Keys;
      while js != {}
        invariant Cleaned(start, W(), steps, e, ok) && Shrinks(W(), w, e) && e in view && e in actual
        invariant js <= listed.Keys && Shrinks(W(), start, e)
        invariant ok && InView(W(), e, k) ==> forall j | j in listed && j !in js :: listed[j].swarmID != id
      {
        var j :| j in js;
        if listed[j].swarmID == id {
          ghost var before := W();
          var removed;
          ghost var more;
          IsDuplicate(before, w, e, k, f, j);
          removed, more := RemoveContainer(e, k, f, j);
          CleanedMore(start, before, W(), steps, more, e, ok, removed);
          ShrinksTwice(W(), before, w, e);
          ShrinksTwice(W(), before, start, e);
          ok, steps := ok && removed, steps + more;
        }
        js := js - {j};
      }
    }

    /** removeDuplicateContainers, when an engine comes back: a run of legal steps at that engine after which, if all
        removals among them succeeded, no swarm ID is both on that engine and on another one of the cluster. */
    method RemoveDuplicateContainers(e: string) returns (ok: bool, ghost steps: seq<Step>)
      requires e in view && e in actual
      modifies this`view, this`actual
      ensures Cleaned(old(W()), W(), steps, e, ok)
      ensures ok ==> forall k :: Single(W(), e, k)
    {
      var reachable: bool := *;
      ok, steps := true, [];
      if reachable {
        RefreshContainers(e);
        steps := [Refresh(e)];
        assert steps[1..] == [];
      }
      ghost var w := old(W());
      var todo := view[e].Keys;
      while todo != {}
        invariant Cleaned(w, W(), steps, e, ok) && e in view && e in actual
        invariant ok ==> forall k | k !in todo :: Single(W(), e, k)
      {
        var k :| k in todo;
        if k in view[e] && view[e][k].swarmID != "" {
          ghost var before := W();
          var removed;
          ghost var more;
          removed, more := RemoveIfDouble(e, k);
          CleanedMore(w, before, W(), steps, more, e, ok, removed);
          forall j | Single(before, e, j) ensures Single(W(), e, j) {
            ShrinksSingle(W(), before, e, j);
          }
          ok, steps := ok && removed, steps + more;
        }
        todo := todo - {k};
      }
    }
  }
}
