/** The health states of an engine. */
module EngineHealth {
  import opened Arithmetic

  datatype EngineState = Pending | Unhealthy | Healthy | Disconnected

  /** Events about reachability: the failure threshold was crossed, the engine answered again, it was removed. */
  datatype Event = Lost | Back | Removed

  /** How a call to the engine ended. */
  datatype Answer = Fine | ConnectionError | OtherError

  /** `client` tells whether there is a client that can reach the engine. */
  datatype Health = Health(id: string, state: EngineState, failureCount: int, client: bool, events: seq<Event>)

  /** How the calls of updateSpecs end: the first one fails, it reports no resources, the second one fails, it
      reports a version that is too old, or both are fine and the engine reports its ID. */
  datatype Reply =
    | NoInfo(unreachable: bool)
    | NothingToOffer
    | NoVersion(unreachable: bool)
    | TooOld
    | Reports(id: string)

  datatype Step =
    | Validated
    | Checked(answer: Answer)
    | Disconnecting
    | Specs(reply: Reply)
    | Connecting(reply: Reply)

  function AfterValidation(h: Health): Health {
    if h.state.Pending? then h.(state := Healthy, failureCount := 0) else h
  }

  function AfterFailure(h: Health, retry: int): Health {
    var g := h.(failureCount := h.failureCount + 1);
    if g.state.Healthy? && g.failureCount >= retry then g.(state := Unhealthy, events := g.events + [Lost]) else g
  }

  function AfterSuccess(h: Health): Health {
    if h.state.Unhealthy? then h.(state := Healthy, events := h.events + [Back], failureCount := 0)
    else h.(failureCount := 0)
  }

  function AfterCheck(h: Health, answer: Answer, retry: int): Health {
    match answer
    case Fine => AfterSuccess(h)
    case ConnectionError => AfterFailure(h, retry)
    case OtherError => h
  }

  function AfterDisconnect(h: Health): Health {
    if h.state.Disconnected? then h else h.(state := Disconnected, client := false, events := h.events + [Removed])
  }

  function Failing(unreachable: bool): Answer {
    if unreachable then ConnectionError else OtherError
  }

  /** updateSpecs: a first ID is taken, another one than before makes the engine pending again. Without a client
      there is no answer. */
  function AfterSpecs(h: Health, reply: Reply, retry: int): Health {
    if !h.client then h
    else match reply
      case NoInfo(unreachable) => AfterCheck(h, Failing(unreachable), retry)
      case NothingToOffer => AfterSuccess(h)
      case NoVersion(unreachable) => AfterCheck(AfterSuccess(h), Failing(unreachable), retry)
      case TooOld => AfterSuccess(AfterSuccess(h))
      case Reports(id) => AfterReport(AfterSuccess(AfterSuccess(h)), id)
  }

  function AfterReport(h: Health, id: string): Health {
    if h.id == "" then h.(id := id) else if h.id != id then h.(state := Pending) else h
  }

  function After(h: Health, step: Step, retry: int): Health {
    match step
    case Validated => AfterValidation(h)
    case Checked(answer) => AfterCheck(h, answer, retry)
    case Disconnecting => AfterDisconnect(h)
    case Specs(reply) => AfterSpecs(h, reply, retry)
    case Connecting(reply) => AfterSpecs(h.(client := true), reply, retry)
  }

  function AfterAll(h: Health, steps: seq<Step>, retry: int): Health {
    if steps == [] then h else After(AfterAll(h, steps[..|steps| - 1], retry), steps[|steps| - 1], retry)
  }

  const FULL_HEALTH := 100

  function Indicator(h: Health, retry: int): int
    requires retry >= 1
  {
    if !h.state.Healthy? || h.failureCount >= retry then 0
    else FULL_HEALTH - h.failureCount * 100 / retry
  }

  const NEW := Health("", Pending, 0, false, [])

  function Expected(i: nat): Event {
    if i % 2 == 0 then Lost else Back
  }

  /** Losses and returns strictly alternate, beginning with a loss. */
  ghost predicate Alternates(events: seq<Event>) {
    forall i | 0 <= i < |events| :: events[i] == Expected(i)
  }

  /** The events of the life an engine is in: those since it was last removed. */
  function Since(events: seq<Event>): seq<Event> {
    if events == [] || events[|events| - 1] == Removed then []
    else Since(events[..|events| - 1]) + [events[|events| - 1]]
  }

  lemma SinceSnoc(events: seq<Event>, e: Event)
    ensures Since(events + [e]) == if e == Removed then [] else Since(events) + [e]
  {
    assert (events + [e])[..|events|] == events;
  }

  /** In each life losses and returns alternate, and an engine is unhealthy exactly while a loss has no return yet.
      A removed engine has no events after its removal. */
  ghost predicate Orderly(h: Health) {
    && Alternates(Since(h.events))
    && (h.state.Unhealthy? <==> |Since(h.events)| % 2 == 1)
    && (h.state.Disconnected? ==> h.events != [] && h.events[|h.events| - 1] == Removed)
  }

  ghost predicate Consistent(h: Health, retry: int) {
    && h.failureCount >= 0
    && (h.state.Healthy? ==> h.failureCount < retry)
    && (h.state.Unhealthy? ==> h.failureCount >= retry)
    && Orderly(h)
  }

  lemma AfterConsistent(h: Health, step: Step, retry: int)
    requires retry >= 1 && Consistent(h, retry)
    ensures Consistent(After(h, step, retry), retry)
  {
    match step
    case Validated =>
    case Checked(answer) => CheckConsistent(h, answer, retry);
    case Disconnecting => SinceSnoc(h.events, Removed);
    case Specs(reply) => SpecsConsistent(h, reply, retry);
    case Connecting(reply) => SpecsConsistent(h.(client := true), reply, retry);
  }

  lemma FailureConsistent(h: Health, retry: int)
    requires retry >= 1 && Consistent(h, retry)
    ensures Consistent(AfterFailure(h, retry), retry)
  {
    if h.state.Healthy? {
      AlternatesSnoc(h.events, Lost);
    }
  }

  lemma SuccessConsistent(h: Health, retry: int)
    requires retry >= 1 && Consistent(h, retry)
    ensures Consistent(AfterSuccess(h), retry)
  {
    if h.state.Unhealthy? {
      AlternatesSnoc(h.events, Back);
    }
  }

  lemma CheckConsistent(h: Health, answer: Answer, retry: int)
    requires retry >= 1 && Consistent(h, retry)
    ensures Consistent(AfterCheck(h, answer, retry), retry)
  {
    FailureConsistent(h, retry);
    SuccessConsistent(h, retry);
  }

  lemma AlternatesSnoc(events: seq<Event>, e: Event)
    requires Alternates(Since(events)) && e == Expected(|Since(events)|)
    ensures Alternates(Since(events + [e])) && |Since(events + [e])| == |Since(events)| + 1
  {
    SinceSnoc(events, e);
    LongerAlternates(Since(events), e);
  }

  lemma LongerAlternates(events: seq<Event>, e: Event)
    requires Alternates(events) && e == Expected(|events|)
    ensures Alternates(events + [e])
  {
  }

  lemma SpecsConsistent(h: Health, reply: Reply, retry: int)
    requires retry >= 1 && Consistent(h, retry)
    ensures Consistent(AfterSpecs(h, reply, retry), retry)
  {
    var g := AfterSuccess(h);
    CheckConsistent(h, Fine, retry);
    CheckConsistent(g, Fine, retry);
    match reply
    case NoInfo(unreachable) => CheckConsistent(h, Failing(unreachable), retry);
    case NoVersion(unreachable) => CheckConsistent(g, Failing(unreachable), retry);
    case _ =>
  }

  lemma IndicatorTells(h: Health, retry: int)
    requires retry >= 1 && Consistent(h, retry)
    ensures Indicator(h, retry) > 0 <==> h.state.Healthy?
    ensures 0 <= Indicator(h, retry) <= FULL_HEALTH
  {
    if h.state.Healthy? {
      Share(h.failureCount, retry);
    }
  }

  lemma Share(failures: int, retry: int)
    requires 0 <= failures < retry
    ensures 0 <= failures * 100 / retry < 100
  {
    QuotientAtMost(failures * 100, retry, 99);
  }

  // ---- What the steps do ----

  /** Validation makes a pending engine healthy, with full health, and leaves every other one as it is. */
  lemma ValidationHeals(h: Health, retry: int)
    requires retry >= 1
    ensures var g := After(h, Validated, retry);
      if h.state.Pending? then g == Health(h.id, Healthy, 0, h.client, h.events) && Indicator(g, retry) == FULL_HEALTH
      else g == h
  {
  }

  /** So an engine that connects and is validated is healthy. */
  lemma ComesUp(id: string, retry: int, steps: seq<Step>)
    requires retry >= 1 && id != "" && steps == [Connecting(Reports(id)), Validated]
    ensures var h := AfterAll(NEW, steps, retry);
      h == Health(id, Healthy, 0, true, []) && Indicator(h, retry) == FULL_HEALTH
  {
    assert steps[..1] == [steps[0]] && steps[..1][..0] == [];
    assert AfterAll(NEW, steps[..1], retry) == After(AfterAll(NEW, [], retry), steps[0], retry);
  }

  /** Removal makes an engine disconnected and takes its client away, once. */
  lemma DisconnectRemoves(h: Health, retry: int)
    ensures var g := After(h, Disconnecting, retry);
      && g.state.Disconnected? && g.id == h.id && g.failureCount == h.failureCount
      && (!h.state.Disconnected? ==> !g.client && g.events == h.events + [Removed])
      && (h.state.Disconnected? ==> g == h)
  {
  }

  /** The failures since the last good answer; an error that is none of the connection does not count. */
  function Trailing(answers: seq<Answer>): nat {
    if answers == [] then 0
    else match answers[|answers| - 1]
      case Fine => 0
      case ConnectionError => Trailing(answers[..|answers| - 1]) + 1
      case OtherError => Trailing(answers[..|answers| - 1])
  }

  function AfterAnswers(h: Health, answers: seq<Answer>, retry: int): Health {
    if answers == [] then h
    else AfterCheck(AfterAnswers(h, answers[..|answers| - 1], retry), answers[|answers| - 1], retry)
  }

  /** From full health on, an engine is unhealthy exactly when it failed as often as the threshold says since it last
      answered, and that is what it counts. */
  lemma {:induction false} AnswersDecide(h: Health, answers: seq<Answer>, retry: int)
    requires retry >= 1 && h.state.Healthy? && h.failureCount == 0
    ensures var g := AfterAnswers(h, answers, retry);
      && g.failureCount == Trailing(answers) && g.id == h.id && g.client == h.client
      && g.state == if Trailing(answers) >= retry then Unhealthy else Healthy
  {
    if answers != [] {
      AnswersDecide(h, answers[..|answers| - 1], retry);
    }
  }

  /** While an engine is pending or removed, answers change its count and nothing else. */
  lemma {:induction false} AnswersWait(h: Health, answers: seq<Answer>, retry: int)
    requires (h.state.Pending? || h.state.Disconnected?) && h.failureCount == 0
    ensures AfterAnswers(h, answers, retry) == h.(failureCount := Trailing(answers))
  {
    if answers != [] {
      AnswersWait(h, answers[..|answers| - 1], retry);
    }
  }

  /** What the calls of updateSpecs say about the connection. */
  function AnswersOf(reply: Reply): seq<Answer> {
    match reply
    case NoInfo(unreachable) => [if unreachable then ConnectionError else OtherError]
    case NothingToOffer => [Fine]
    case NoVersion(unreachable) => [Fine] + [if unreachable then ConnectionError else OtherError]
    case TooOld => [Fine] + [Fine]
    case Reports(_) => [Fine] + [Fine]
  }

  lemma AnswersSnoc(h: Health, answers: seq<Answer>, a: Answer, retry: int)
    ensures AfterAnswers(h, answers + [a], retry) == AfterCheck(AfterAnswers(h, answers, retry), a, retry)
    ensures AfterAnswers(h, [a], retry) == AfterCheck(h, a, retry)
  {
    assert (answers + [a])[..|answers|] == answers;
    assert [a][..0] == [];
    assert AfterAnswers(h, [a][..0], retry) == h;
  }

  /** Reading the specs is a series of checks; then the first ID reported is taken, and another one than before makes
      the engine pending. Without a client nothing happens, and connecting makes a client. */
  lemma SpecsAre(h: Health, reply: Reply, retry: int)
    ensures !h.client ==> After(h, Specs(reply), retry) == h
    ensures After(h, Connecting(reply), retry) == After(h.(client := true), Specs(reply), retry)
    ensures var g := AfterAnswers(h, AnswersOf(reply), retry);
      h.client ==> After(h, Specs(reply), retry)
                   == if !reply.Reports? || reply.id == h.id then g
                      else if h.id == "" then g.(id := reply.id) else g.(state := Pending)
  {
    var unreachable := reply.NoVersion? && reply.unreachable;
    AnswersSnoc(h, [], if reply.NoInfo? && reply.unreachable then ConnectionError else OtherError, retry);
    AnswersSnoc(h, [], Fine, retry);
    AnswersSnoc(h, [Fine], if unreachable then ConnectionError else OtherError, retry);
    AnswersSnoc(h, [Fine], Fine, retry);
  }

  /** In every run of an engine, from its creation on: the failure count stays below the threshold while the
      engine is healthy and at or above it while unhealthy, the indicator is positive exactly while healthy, and
      losses and returns strictly alternate between removals. */
  lemma {:induction false} AlwaysConsistent(steps: seq<Step>, retry: int)
    requires retry >= 1
    ensures Consistent(AfterAll(NEW, steps, retry), retry)
    ensures Indicator(AfterAll(NEW, steps, retry), retry) > 0 <==> AfterAll(NEW, steps, retry).state.Healthy?
  {
    if steps != [] {
      var front := steps[..|steps| - 1];
      AlwaysConsistent(front, retry);
      AfterConsistent(AfterAll(NEW, front, retry), steps[|steps| - 1], retry);
    }
    IndicatorTells(AfterAll(NEW, steps, retry), retry);
  }

  /** A removed engine is connected again and answers with another ID than it had. */
  predicate Reincarnates(h: Health, step: Step) {
    h.state.Disconnected? && h.id != ""
    && match step {
         case Connecting(Reports(id)) => id != h.id
         case Specs(Reports(id)) => h.client && id != h.id
         case _ => false
       }
  }

  /** Nothing else brings an engine back once it is removed. */
  lemma RemovalIsFinal(h: Health, step: Step, retry: int)
    requires h.state.Disconnected?
    ensures After(h, step, retry).state.Disconnected? <==> !Reincarnates(h, step)
  {
  }

  ghost predicate RemovedAfter(h: Health, steps: seq<Step>, k: nat, retry: int)
    requires k <= |steps|
  {
    AfterAll(h, steps[..k], retry).state.Disconnected?
  }

  ghost predicate ReincarnatesAt(h: Health, steps: seq<Step>, k: nat, retry: int)
    requires k < |steps|
  {
    Reincarnates(AfterAll(h, steps[..k], retry), steps[k])
  }

  lemma RemovedNext(h: Health, steps: seq<Step>, k: nat, retry: int)
    requires k < |steps| && RemovedAfter(h, steps, k, retry)
    ensures RemovedAfter(h, steps, k + 1, retry) <==> !ReincarnatesAt(h, steps, k, retry)
  {
    assert steps[..k + 1][..k] == steps[..k];
    RemovalIsFinal(AfterAll(h, steps[..k], retry), steps[k], retry);
  }

  /** So removal is absorbing over a run exactly when no step of it reincarnates the engine. */
  lemma StaysRemovedIff(h: Health, steps: seq<Step>, retry: int)
    requires h.state.Disconnected?
    ensures (forall k | 0 <= k <= |steps| :: RemovedAfter(h, steps, k, retry))
            <==> forall k | 0 <= k < |steps| :: !ReincarnatesAt(h, steps, k, retry)
  {
    if forall k | 0 <= k < |steps| :: !ReincarnatesAt(h, steps, k, retry) {
      for n := 0 to |steps|
        invariant forall k | 0 <= k <= n :: RemovedAfter(h, steps, k, retry)
      {
        RemovedNext(h, steps, n, retry);
      }
    }
    if forall k | 0 <= k <= |steps| :: RemovedAfter(h, steps, k, retry) {
      forall k | 0 <= k < |steps| ensures !ReincarnatesAt(h, steps, k, retry) {
        assert RemovedAfter(h, steps, k + 1, retry);
        RemovedNext(h, steps, k, retry);
      }
    }
  }

  /** With at most four retries one failure more costs more health than any load can outweigh. */
  lemma FewerFailuresHealthier(g: Health, h: Health, retry: int)
    requires 1 <= retry <= 4 && Consistent(g, retry) && Consistent(h, retry)
    requires g.state.Healthy? && h.state.Healthy? && g.failureCount < h.failureCount
    ensures Indicator(g, retry) >= Indicator(h, retry) + 21
  {
  }

  /** A successful check that saw an unhealthy engine goes on in two critical sections: it sets the state, and it
      resets the count. One that saw another state only resets the count. */
  function SetHealthy(h: Health): Health {
    h.(state := Healthy, events := h.events + [Back])
  }

  function Reset(h: Health): Health {
    h.(failureCount := 0)
  }

  /** The sections have the effect of the whole check exactly when the engine is still unhealthy before the
      first one; a removal before it is undone. */
  lemma TornCheck(h: Health)
    ensures Reset(SetHealthy(h)) == AfterSuccess(h) <==> h.state.Unhealthy?
    ensures Reset(h) == AfterSuccess(h) <==> !h.state.Unhealthy?
    ensures h.state.Unhealthy? ==> Reset(SetHealthy(AfterDisconnect(h))).state.Healthy?
  {
    assert |h.events + [Back]| != |h.events|;
  }

  /** Between the sections a healthy engine has a failure count beyond the threshold: its indicator is zero, and one
      failure more makes it unhealthy again. */
  lemma TornMiddle(h: Health, retry: int)
    requires retry >= 1 && Consistent(h, retry) && h.state.Unhealthy?
    ensures SetHealthy(h).state.Healthy? && !Consistent(SetHealthy(h), retry) && Indicator(SetHealthy(h), retry) == 0
    ensures AfterFailure(SetHealthy(h), retry).state.Unhealthy?
  {
  }

  /** The last section keeps an engine consistent exactly when it is not unhealthy by then. */
  lemma TornResetIff(h: Health, retry: int)
    requires retry >= 1 && h.failureCount >= 0 && Orderly(h)
    ensures Consistent(Reset(h), retry) <==> !h.state.Unhealthy?
  {
  }

  class Engine {
    const addr: string
    const failureRetry: int
    var id: string
    var state: EngineState
    var failureCount: int
    var client: bool
    ghost var events: seq<Event>

    ghost function H(): Health
      reads this
    {
      Health(id, state, failureCount, client, events)
    }

    constructor (addr: string, failureRetry: int)
      ensures this.addr == addr && this.failureRetry == failureRetry && H() == NEW
    {
      this.addr, this.failureRetry := addr, failureRetry;
      id, state, failureCount, client, events := "", Pending, 0, false, [];
    }

    method HealthIndicator() returns (indicator: int)
      requires failureRetry >= 1
      ensures indicator == Indicator(H(), failureRetry)
    {
      if state != Healthy || failureCount >= failureRetry {
        return 0;
      }
      indicator := 100 - failureCount * 100 / failureRetry;
    }

    method ValidationComplete()
      modifies this`state, this`failureCount
      ensures H() == AfterValidation(old(H()))
    {
      if state != Pending {
        return;
      }
      state := Healthy;
      failureCount := 0;
    }

    method IncFailureCount()
      modifies this`state, this`failureCount, this`events
      ensures H() == AfterFailure(old(H()), failureRetry)
    {
      failureCount := failureCount + 1;
      if state == Healthy && failureCount >= failureRetry {
        state := Unhealthy;
        events := events + [Lost];
      }
    }

    method CheckConnectionErr(answer: Answer)
      modifies this`state, this`failureCount, this`events
      ensures H() == AfterCheck(old(H()), answer, failureRetry)
    {
      if answer == Fine {
        if state == Unhealthy {
          events := events + [Back];
          state := Healthy;
        }
        failureCount := 0;
        return;
      }
      if answer == ConnectionError {
        IncFailureCount();
      }
    }

    method Disconnect()
      modifies this`state, this`client, this`events
      ensures H() == AfterDisconnect(old(H()))
    {
      if state == Disconnected {
        return;
      }
      client := false;
      state := Disconnected;
      events := events + [Removed];
    }

    /** updateSpecs fails without a client, with a bad answer, and when another ID is reported than before. */
    method UpdateSpecs(reply: Reply) returns (ok: bool)
      modifies this`id, this`state, this`failureCount, this`events
      ensures H() == AfterSpecs(old(H()), reply, failureRetry)
      ensures ok <==> client && reply.Reports? && (old(id) == "" || old(id) == reply.id)
    {
      if !client {
        return false;
      }
      if reply.NoInfo? {
        CheckConnectionErr(if reply.unreachable then ConnectionError else OtherError);
        return false;
      }
      CheckConnectionErr(Fine);
      if reply.NothingToOffer? {
        return false;
      }
      if reply.NoVersion? {
        CheckConnectionErr(if reply.unreachable then ConnectionError else OtherError);
        return false;
      }
      CheckConnectionErr(Fine);
      if reply.TooOld? {
        return false;
      }
      if id == "" {
        id := reply.id;
      } else if id != reply.id {
        state := Pending;
        return false;
      }
      ok := true;
    }

    /** Connect makes a new client, whatever the state of the engine. */
    method Connect(reply: Reply) returns (ok: bool)
      modifies this`id, this`state, this`failureCount, this`client, this`events
      ensures H() == After(old(H()), Connecting(reply), failureRetry)
      ensures ok <==> reply.Reports? && (old(id) == "" || old(id) == reply.id)
    {
      client := true;
      ok := UpdateSpecs(reply);
    }
  }
}
