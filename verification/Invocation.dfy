/** The router: one invocation's stream of events, whatever its command handler does.

    Models `run_invocation`, `_screen`, `_Ordering`, `_completion_fields` and
    `_report_terminal` (agent/src/reporting_agent/main.py) for a reader that keeps reading. */
module Invocation {
  import opened Options
  import opened Errors
  import opened Events
  import opened StepTracker
  import RunStatus

  // --- what a handler does ---

  /** How a handler, or the router reading it, can fail. */
  datatype Failure = Raised(error: AgentError) | Unimplemented | Emission | StepInvariant | Unexpected

  /** A handler gets its `tool` and `progress` events from the tracker only. */
  type Offered = e: Event | !(e.ToolStart? || e.ToolEnd? || e.Progress?) witness Delta

  /** The work of the document phases that no event shows, as it is attempted. */
  datatype Effect =
    | ReportPhase(phase: RunStatus.Status)
    | WriteVerificationResult
    | RecordVerification
    | WriteReportArtifacts
    | WriteStyledDiagnostics

  /** One thing a handler does. A tracker call that raises is either caught by the handler or
      ends it. */
  datatype Action =
    | StartStep(name: string, caption: string, status: string, stepId: Option<string>, caught: bool)
    | CountStep(id: string, done: int, total: int, unit: string, badge: Option<string>, caught: bool)
    | EndStep(id: string, caught: bool)
    | Offer(event: Offered)
    | OfferUndeclared
    | Work(effect: Effect)

  /** A handler's run: what it does in order, and what it raises at the end, if anything. */
  datatype Script = Script(actions: seq<Action>, ending: Option<Failure>)

  // --- the router's state ---

  datatype Router = Router(
    tracker: Tracker, seenVerification: bool, passed: bool, seenSnapshot: bool, completion: Completion,
    sent: seq<Event>)

  const NOTHING_COLLECTED: Completion := Completion(None, None, None)
  const FRESH: Router := Router(EMPTY, false, false, false, NOTHING_COLLECTED, [])

  datatype Turn = Turn(router: Router, failure: Option<Failure>)

  function Sends(r: Router, e: Event): Router {
    r.(sent := r.sent + [e])
  }

  /** An event the tracker did not make, screened. */
  function TakeOffer(r: Router, e: Offered): Turn {
    if e.Verification? then
      if r.seenVerification then Turn(r, Some(Emission))
      else Turn(Sends(r, e).(seenVerification := true, passed := e.pass), None)
    else if e.ReportFile? && !r.passed then Turn(r, Some(Emission))
    else if e.Done? then Turn(r, Some(Emission))
    else if e.SnapshotReady? then
      if r.seenSnapshot then Turn(r, None)
      else Turn(Sends(r, e).(seenSnapshot := true, completion := e.completion), None)
    else Turn(Sends(r, e), None)
  }

  function TakeTracked(r: Router, result: (Tracker, Option<Event>), caught: bool): Turn {
    var (tracker, event) := result;
    var after := r.(tracker := tracker);
    if event.Some? then Turn(Sends(after, event.value), None)
    else Turn(after, if caught then None else Some(StepInvariant))
  }

  function Take(r: Router, action: Action): Turn {
    match action
    case StartStep(name, caption, status, stepId, caught) =>
      TakeTracked(r, AfterStart(r.tracker, name, caption, status, stepId), caught)
    case CountStep(id, done, total, unit, badge, caught) =>
      TakeTracked(r, AfterProgress(r.tracker, id, done, total, unit, badge), caught)
    case EndStep(id, caught) => TakeTracked(r, AfterEnd(r.tracker, id), caught)
    case Offer(event) => TakeOffer(r, event)
    case OfferUndeclared => Turn(r, Some(Emission))
    case Work(_) => Turn(r, None)
  }

  /** Everything up to the end of the handler or the first failure. */
  function Handle(r: Router, actions: seq<Action>, ending: Option<Failure>): Turn
    decreases |actions|
  {
    if actions == [] then Turn(r, ending)
    else
      var turn := Take(r, actions[0]);
      if turn.failure.Some? then turn else Handle(turn.router, actions[1..], ending)
  }

  // --- how an invocation ends ---

  datatype Invocation = Invocation(rejection: Option<Code>, handled: bool, reporting: bool)

  /** The terminal callback. */
  datatype Callback = Callback(outcome: Outcome, errorCode: Option<Code>, completion: Completion)

  datatype Result = Result(events: seq<Event>, callback: Option<Callback>)

  const UNSUPPORTED_COMMAND: Code := InvocationLevel("UNSUPPORTED_COMMAND")
  const COMMAND_UNIMPLEMENTED: Code := InvocationLevel("COMMAND_UNIMPLEMENTED")

  function CodeOf(failure: Failure): Code {
    match failure
    case Raised(error) => Agent(error.code)
    case Unimplemented => COMMAND_UNIMPLEMENTED
    case _ => InternalError
  }

  function EndsRun(failure: Failure): bool {
    failure.Raised? ==> failure.error.terminal
  }

  /** What the terminal tail works from. */
  datatype Verdict = Verdict(router: Router, errorCode: Option<Code>, terminal: bool)

  function Judge(inv: Invocation, script: Script): Verdict {
    if inv.rejection.Some? then Verdict(FRESH, inv.rejection, true)
    else if !inv.handled then Verdict(FRESH, Some(UNSUPPORTED_COMMAND), true)
    else
      var turn := Handle(FRESH, script.actions, script.ending);
      match turn.failure
      case None => Verdict(turn.router, None, false)
      case Some(failure) => Verdict(turn.router, Some(CodeOf(failure)), EndsRun(failure))
  }

  function OutcomeOf(verdict: Verdict): Outcome {
    if verdict.errorCode.Some? && verdict.terminal then Failed else Completed
  }

  function TerminalCallback(verdict: Verdict): Callback {
    if OutcomeOf(verdict) == Completed then Callback(Completed, None, verdict.router.completion)
    else Callback(Failed, RowErrorCode(verdict.errorCode), NOTHING_COLLECTED)
  }

  function BeforeClosing(verdict: Verdict): seq<Event> {
    verdict.router.sent +
    if verdict.errorCode.Some? then [Error(verdict.errorCode.value, verdict.terminal)] else []
  }

  function Run(inv: Invocation, script: Script): Result {
    var verdict := Judge(inv, script);
    Result(BeforeClosing(verdict) + Ends(verdict.router.tracker.open) + [Done(OutcomeOf(verdict))],
           if inv.reporting then Some(TerminalCallback(verdict)) else None)
  }

  // --- the router itself ---

  class Ordering {
    var seenVerification: bool
    var passed: bool

    constructor ()
      ensures !seenVerification && !passed
    {
      seenVerification, passed := false, false;
    }

    /** Answers whether the event may pass; a second `verification` and an early
        `report_file` may not. */
    method Screen(e: Event) returns (ok: bool)
      modifies this
      ensures ok <==> (e.Verification? ==> !old(seenVerification)) && (e.ReportFile? ==> old(passed))
      ensures seenVerification == (old(seenVerification) || e.Verification?)
      ensures passed == if e.Verification? && ok then e.pass else old(passed)
    {
      if e.Verification? {
        if seenVerification {
          return false;
        }
        seenVerification, passed := true, e.pass;
        return true;
      }
      return !(e.ReportFile? && !passed);
    }
  }

  /** The state the router's objects and variables stand for. */
  function Held(steps: StepTracker, ordering: Ordering, seenSnapshot: bool, completion: Completion, sent: seq<Event>)
    : Router
    reads steps, ordering
  {
    Router(steps.Value(), ordering.seenVerification, ordering.passed, seenSnapshot, completion, sent)
  }

  method CallTracker(steps: StepTracker, action: Action) returns (event: Option<Event>)
    requires action.StartStep? || action.CountStep? || action.EndStep?
    modifies steps
    ensures (steps.Value(), event) == Tracked(old(steps.Value()), action)
  {
    match action
    case StartStep(name, caption, status, stepId, _) =>
      event := steps.Start(name, caption, status, stepId);
    case CountStep(id, done, total, unit, badge, _) =>
      event := steps.Advance(id, done, total, unit, badge);
    case EndStep(id, _) =>
      event := steps.End(id);
  }

  function Tracked(t: Tracker, action: Action): (Tracker, Option<Event>)
    requires action.StartStep? || action.CountStep? || action.EndStep?
  {
    match action
    case StartStep(name, caption, status, stepId, _) => AfterStart(t, name, caption, status, stepId)
    case CountStep(id, done, total, unit, badge, _) => AfterProgress(t, id, done, total, unit, badge)
    case EndStep(id, _) => AfterEnd(t, id)
  }

  /** The loop over the handler's events. */
  method ReadHandler(steps: StepTracker, script: Script)
    returns (completion: Completion, sent: seq<Event>, failure: Option<Failure>)
    requires steps.Value() == EMPTY
    modifies steps
    ensures var turn := Handle(FRESH, script.actions, script.ending);
            && steps.Value() == turn.router.tracker && completion == turn.router.completion
            && sent == turn.router.sent && failure == turn.failure
  {
    var ordering := new Ordering();
    var seenSnapshot := false;
    completion, sent, failure := NOTHING_COLLECTED, [], None;
    var i := 0;
    while i < |script.actions|
      invariant i <= |script.actions|
      invariant Handle(FRESH, script.actions, script.ending) ==
                Handle(Held(steps, ordering, seenSnapshot, completion, sent), script.actions[i..], script.ending)
    {
      var action := script.actions[i];
      ghost var before := Held(steps, ordering, seenSnapshot, completion, sent);
      match action {
        case Offer(event) =>
          var ok := ordering.Screen(event);
          if !ok || event.Done? {
            return completion, sent, Some(Emission);
          }
          if !event.SnapshotReady? {
            sent := sent + [event];
          } else if !seenSnapshot {
            seenSnapshot, completion := true, event.completion;
            sent := sent + [event];
          }
        case OfferUndeclared =>
          return completion, sent, Some(Emission);
        case Work(_) =>
        case _ =>
          var event := CallTracker(steps, action);
          if event.Some? {
            sent := sent + [event.value];
          } else if !action.caught {
            return completion, sent, Some(StepInvariant);
          }
      }
      assert Take(before, action) == Turn(Held(steps, ordering, seenSnapshot, completion, sent), None);
      i := i + 1;
    }
    failure := script.ending;
  }

  method RunInvocation(inv: Invocation, script: Script) returns (events: seq<Event>, callback: Option<Callback>)
    ensures Result(events, callback) == Run(inv, script)
  {
    var steps := new StepTracker();
    var outcome := Failed;
    var errorCode: Option<Code> := None;
    var completion := NOTHING_COLLECTED;
    if inv.rejection.Some? {
      errorCode := inv.rejection;
      events := [Error(inv.rejection.value, true)];
    } else if !inv.handled {
      errorCode := Some(UNSUPPORTED_COMMAND);
      events := [Error(UNSUPPORTED_COMMAND, true)];
    } else {
      var failure;
      completion, events, failure := ReadHandler(steps, script);
      outcome := if failure.None? || !EndsRun(failure.value) then Completed else Failed;
      if failure.Some? {
        errorCode := Some(CodeOf(failure.value));
        events := events + [Error(CodeOf(failure.value), EndsRun(failure.value))];
      }
    }
    ghost var verdict := Judge(inv, script);
    assert outcome == OutcomeOf(verdict) && errorCode == verdict.errorCode && events == BeforeClosing(verdict);
    FreshIsSound();
    HandleKeeps(FRESH, script.actions, script.ending);
    events, callback := TerminalTail(steps, events, inv.reporting, outcome, errorCode, completion);
  }

  /** On every path: close the open steps, send the terminal callback, end with `done`. */
  method TerminalTail(steps: StepTracker, before: seq<Event>, reporting: bool, outcome: Outcome,
                      errorCode: Option<Code>, completion: Completion)
    returns (events: seq<Event>, callback: Option<Callback>)
    requires WellFormed(steps.Value())
    modifies steps
    ensures events == before + Ends(old(steps.open)) + [Done(outcome)]
    ensures callback.Some? <==> reporting
    ensures reporting && outcome == Completed ==> callback.value == Callback(Completed, None, completion)
    ensures reporting && outcome == Failed ==>
              callback.value == Callback(Failed, RowErrorCode(errorCode), NOTHING_COLLECTED)
  {
    var closing := steps.CloseAll();
    events := before + closing;
    callback := None;
    if reporting {
      if outcome == Completed {
        callback := Some(Callback(Completed, None, completion));
      } else {
        callback := Some(Callback(Failed, RowErrorCode(errorCode), NOTHING_COLLECTED));
      }
    }
    events := events + [Done(outcome)];
  }

  // --- what every step of the router keeps ---

  /** The two orderings, and that only the tail ends a stream. */
  ghost predicate Ordered(sent: seq<Event>) {
    && (forall k :: 0 <= k < |sent| ==> !sent[k].Done?)
    && (forall i, j :: 0 <= i < j < |sent| ==> !(sent[i].Verification? && sent[j].Verification?))
    && (forall i, j :: 0 <= i < j < |sent| ==> !(sent[i].SnapshotReady? && sent[j].SnapshotReady?))
    && (forall k :: 0 <= k < |sent| && sent[k].ReportFile? ==>
          exists i :: 0 <= i < k && sent[i] == Verification(true))
  }

  ghost predicate Remembers(r: Router) {
    && (r.seenVerification <==> exists k :: 0 <= k < |r.sent| && r.sent[k].Verification?)
    && (r.passed <==> exists k :: 0 <= k < |r.sent| && r.sent[k] == Verification(true))
    && (r.seenSnapshot <==> exists k :: 0 <= k < |r.sent| && r.sent[k].SnapshotReady?)
    && (forall k :: 0 <= k < |r.sent| && r.sent[k].SnapshotReady? ==> r.sent[k].completion == r.completion)
    && (!r.seenSnapshot ==> r.completion == NOTHING_COLLECTED)
  }

  ghost predicate Sound(r: Router) {
    WellFormed(r.tracker) && Agrees(r.sent, r.tracker) && Ordered(r.sent) && Remembers(r)
  }

  lemma PlainEventKeeps(r: Router, e: Event)
    requires Ordered(r.sent) && Remembers(r)
    requires !e.Done? && !e.Verification? && !e.SnapshotReady? && (e.ReportFile? ==> r.passed)
    ensures Ordered(Sends(r, e).sent) && Remembers(Sends(r, e))
  {
    PlainEventIsRemembered(r, e);
    assert forall k :: 0 <= k < |r.sent| ==> Sends(r, e).sent[k] == r.sent[k];
  }

  lemma PlainEventIsRemembered(r: Router, e: Event)
    requires Remembers(r) && !e.Verification? && !e.SnapshotReady?
    ensures Remembers(Sends(r, e))
  {
    assert forall k :: 0 <= k < |r.sent| ==> Sends(r, e).sent[k] == r.sent[k];
  }

  lemma VerificationKeeps(r: Router, pass: bool)
    requires Ordered(r.sent) && Remembers(r) && !r.seenVerification
    ensures var after := Sends(r, Verification(pass)).(seenVerification := true, passed := pass);
            Ordered(after.sent) && Remembers(after)
  {
    var after := Sends(r, Verification(pass)).(seenVerification := true, passed := pass);
    assert forall k :: 0 <= k < |r.sent| ==> after.sent[k] == r.sent[k];
    assert after.sent[|r.sent|] == Verification(pass);
  }

  lemma SnapshotKeeps(r: Router, completion: Completion)
    requires Ordered(r.sent) && Remembers(r) && !r.seenSnapshot
    ensures var after := Sends(r, SnapshotReady(completion)).(seenSnapshot := true, completion := completion);
            Ordered(after.sent) && Remembers(after)
  {
    var after := Sends(r, SnapshotReady(completion)).(seenSnapshot := true, completion := completion);
    assert forall k :: 0 <= k < |r.sent| ==> after.sent[k] == r.sent[k];
    assert after.sent[|r.sent|] == SnapshotReady(completion);
  }

  lemma OtherEventsLeaveSteps(events: seq<Event>, e: Offered, t: Tracker)
    requires Agrees(events, t)
    ensures Agrees(events + [e], t)
  {
    forall id
      ensures LifeOf(events + [e], id) == LifeIn(t, id)
    {
      LifeAfter(events, e, id);
      assert LifeOf(events, id) == LifeIn(t, id);
    }
  }

  lemma OfferKeeps(r: Router, e: Offered)
    requires Sound(r)
    ensures Sound(TakeOffer(r, e).router)
  {
    OtherEventsLeaveSteps(r.sent, e, r.tracker);
    if e.Verification? {
      if !r.seenVerification {
        VerificationKeeps(r, e.pass);
      }
    } else if e.SnapshotReady? {
      if !r.seenSnapshot {
        SnapshotKeeps(r, e.completion);
      }
    } else if !e.Done? && (e.ReportFile? ==> r.passed) {
      PlainEventKeeps(r, e);
    }
  }

  lemma TrackedKeeps(r: Router, action: Action)
    requires Sound(r)
    requires action.StartStep? || action.CountStep? || action.EndStep?
    ensures Sound(Take(r, action).router)
  {
    match action {
      case StartStep(name, caption, status, stepId, _) => StartAgrees(r.sent, r.tracker, name, caption, status, stepId);
      case CountStep(id, done, total, unit, badge, _) =>
        ProgressAgrees(r.sent, r.tracker, id, done, total, unit, badge);
      case EndStep(id, _) => EndAgrees(r.sent, r.tracker, id);
    }
    TrackerEvents(r.tracker, action);
    var (tracker, event) := Tracked(r.tracker, action);
    HandedOutKeeps(r, tracker, event, action.caught);
  }

  lemma TrackerEvents(t: Tracker, action: Action)
    requires action.StartStep? || action.CountStep? || action.EndStep?
    ensures var (_, event) := Tracked(t, action);
            event.Some? ==> event.value.ToolStart? || event.value.Progress? || event.value.ToolEnd?
  {
  }

  lemma HandedOutKeeps(r: Router, tracker: Tracker, event: Option<Event>, caught: bool)
    requires Sound(r) && WellFormed(tracker)
    requires Agrees(if event.Some? then r.sent + [event.value] else r.sent, tracker)
    requires event.Some? ==> event.value.ToolStart? || event.value.Progress? || event.value.ToolEnd?
    ensures Sound(TakeTracked(r, (tracker, event), caught).router)
  {
    if event.Some? {
      PlainEventKeeps(r.(tracker := tracker), event.value);
    }
  }

  lemma FreshIsSound()
    ensures Sound(FRESH)
  {
    assert forall id :: LifeOf([], id) == LifeIn(EMPTY, id);
  }

  lemma {:induction false} HandleKeeps(r: Router, actions: seq<Action>, ending: Option<Failure>)
    requires Sound(r)
    ensures Sound(Handle(r, actions, ending).router)
    decreases |actions|
  {
    if actions != [] {
      match actions[0] {
        case StartStep(_, _, _, _, _) => TrackedKeeps(r, actions[0]);
        case CountStep(_, _, _, _, _, _) => TrackedKeeps(r, actions[0]);
        case EndStep(_, _) => TrackedKeeps(r, actions[0]);
        case Offer(event) => OfferKeeps(r, event);
        case _ =>
      }
      var turn := Take(r, actions[0]);
      if turn.failure.None? {
        HandleKeeps(turn.router, actions[1..], ending);
      }
    }
  }

  // --- the grammar of every stream ---

  /** `done` once and last; every step whole before it; one `verification` and one
      `snapshot_ready` at most; no `report_file` before a passing `verification`. */
  ghost predicate Grammatical(events: seq<Event>) {
    && events != [] && events[|events| - 1].Done?
    && Ordered(events[..|events| - 1])
    && StepsAreWhole(events)
  }

  predicate IsPlain(e: Event) {
    !e.Done? && !e.Verification? && !e.SnapshotReady? && !e.ReportFile?
  }

  lemma PlainEventsFollow(sent: seq<Event>, more: seq<Event>)
    requires Ordered(sent)
    requires forall k :: 0 <= k < |more| ==> IsPlain(more[k])
    ensures Ordered(sent + more)
  {
    var all := sent + more;
    forall k | 0 <= k < |all| && all[k].ReportFile?
      ensures exists i :: 0 <= i < k && all[i] == Verification(true)
    {
      assert k < |sent| && sent[k].ReportFile?;
      var i :| 0 <= i < k && sent[i] == Verification(true);
      assert all[i] == Verification(true);
    }
    assert forall k :: |sent| <= k < |all| ==> IsPlain(all[k]);
  }

  lemma {:induction false} EndsArePlain(open: seq<Step>)
    ensures forall k :: 0 <= k < |Ends(open)| ==> IsPlain(Ends(open)[k])
  {
    if open != [] {
      EndsArePlain(open[..|open| - 1]);
    }
  }

  lemma VerdictIsSound(inv: Invocation, script: Script)
    ensures Sound(Judge(inv, script).router)
  {
    FreshIsSound();
    HandleKeeps(FRESH, script.actions, script.ending);
  }

  /** Whatever the handler does, the stream is grammatical and the terminal callback tells
      what `done` tells. */
  lemma EveryStreamIsGrammatical(inv: Invocation, script: Script)
    ensures var result := Run(inv, script);
            && Grammatical(result.events)
            && (result.callback.Some? <==> inv.reporting)
            && (inv.reporting ==>
                  result.events[|result.events| - 1] == Done(result.callback.value.outcome))
  {
    var verdict := Judge(inv, script);
    VerdictIsSound(inv, script);
    TailIsGrammatical(verdict.router, BeforeClosing(verdict)[|verdict.router.sent|..], OutcomeOf(verdict));
    assert BeforeClosing(verdict) == verdict.router.sent + BeforeClosing(verdict)[|verdict.router.sent|..];
  }

  lemma TailIsGrammatical(r: Router, errors: seq<Event>, outcome: Outcome)
    requires Sound(r)
    requires |errors| <= 1 && forall k :: 0 <= k < |errors| ==> errors[k].Error?
    ensures Grammatical(r.sent + errors + Ends(r.tracker.open) + [Done(outcome)])
  {
    var before := r.sent + errors;
    var closed := before + Ends(r.tracker.open);
    PlainEventsFollow(r.sent, errors);
    EndsArePlain(r.tracker.open);
    PlainEventsFollow(before, Ends(r.tracker.open));
    assert (closed + [Done(outcome)])[..|closed|] == closed;
    ErrorsLeaveSteps(r.sent, errors, r.tracker);
    ClosingSettles(before, r.tracker);
    forall id
      ensures LifeOf(closed + [Done(outcome)], id).Unopened? || LifeOf(closed + [Done(outcome)], id).Ended?
    {
      LifeAfter(closed, Done(outcome), id);
      assert LifeOf(closed, id).Unopened? || LifeOf(closed, id).Ended?;
    }
    WholeWhenSettled(closed + [Done(outcome)]);
  }

  lemma ErrorsLeaveSteps(sent: seq<Event>, errors: seq<Event>, t: Tracker)
    requires Agrees(sent, t)
    requires |errors| <= 1 && forall k :: 0 <= k < |errors| ==> errors[k].Error?
    ensures Agrees(sent + errors, t)
  {
    if errors == [] {
      assert sent + errors == sent;
    } else {
      var e: Offered := errors[0];
      assert errors == [e];
      OtherEventsLeaveSteps(sent, e, t);
    }
  }

  // --- the outcome ---

  /** A failed run's callback always carries a code the app accepts; a completed one's carries
      the snapshot the stream announced. */
  lemma CallbackIsAcceptable(inv: Invocation, script: Script)
    requires inv.reporting
    ensures var result := Run(inv, script);
            var callback := result.callback.value;
            && (callback.outcome == Failed ==>
                  && callback.errorCode.Some? && IsAgentErrorCode(callback.errorCode.value)
                  && exists k :: 0 <= k < |result.events| && result.events[k].Error? && result.events[k].terminal)
            && (callback.outcome == Completed ==>
                  forall k :: 0 <= k < |result.events| && result.events[k].SnapshotReady? ==>
                    callback.completion == result.events[k].completion)
  {
    var verdict := Judge(inv, script);
    var r := verdict.router;
    var result := Run(inv, script);
    VerdictIsSound(inv, script);
    if OutcomeOf(verdict) == Failed {
      assert result.events[|r.sent|] == Error(verdict.errorCode.value, true);
    }
    EndsArePlain(r.tracker.open);
    assert forall k :: |r.sent| <= k < |result.events| ==> !result.events[k].SnapshotReady?;
  }

  /** A handler's run completes exactly when nothing failed or what it raised does not end the
      run, which is so for a partial coverage always and for an unreachable region unless
      escalated. What failed is told by an `error` event, and to the app by the agent's own
      code or, for a defect of the runtime, by the one code that stands for it. */
  lemma OutcomeIsTold(inv: Invocation, script: Script)
    requires inv.rejection.None? && inv.handled && inv.reporting
    ensures var failure := Handle(FRESH, script.actions, script.ending).failure;
            var result := Run(inv, script);
            var callback := result.callback.value;
            && (callback.outcome == Completed <==>
                  failure.None? || (failure.value.Raised? && !failure.value.error.terminal))
            && (failure.Some? ==> Error(CodeOf(failure.value), callback.outcome == Failed) in result.events)
            && (failure.Some? && failure.value.Raised? ==>
                  var error := failure.value.error;
                  && (error.code == PartialCoverage ==> !error.terminal)
                  && (error.code !in {PartialCoverage, RegionUnreachable} ==> error.terminal)
                  && (error.terminal ==> callback.errorCode == Some(Agent(error.code))))
            && (failure.Some? && !failure.value.Raised? ==> callback.errorCode == Some(InternalError))
  {
    var turn := Handle(FRESH, script.actions, script.ending);
    var events := Run(inv, script).events;
    if turn.failure.Some? {
      assert events[|turn.router.sent|] == Error(CodeOf(turn.failure.value), EndsRun(turn.failure.value));
    }
  }

  /** A refused invocation: one terminal error with its own code, then `done`; the app gets the
      runtime's code unless the refusal's own is presentable. */
  lemma RefusalIsTold(inv: Invocation, script: Script)
    requires inv.rejection.Some? || !inv.handled
    ensures var code := if inv.rejection.Some? then inv.rejection.value else UNSUPPORTED_COMMAND;
            var result := Run(inv, script);
            && result.events == [Error(code, true), Done(Failed)]
            && (inv.reporting ==>
                  result.callback == Some(Callback(Failed, RowErrorCode(Some(code)), NOTHING_COLLECTED)))
  {
  }
}
