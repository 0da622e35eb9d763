/** An invocation's stream and terminal callback, read off what its handler does alone.

    The partner of `Invocation`: what `run_invocation` (agent/src/reporting_agent/main.py) makes
    of a handler, said without the router's state. */
module Transcript {
  import opened Options
  import opened Errors
  import opened Events
  import opened StepTracker
  import opened Invocation

  // --- what a handler offers, and what the tracker gives it ---

  function Offers(actions: seq<Action>): seq<Event> {
    if actions == [] then []
    else
      Offers(actions[..|actions| - 1]) +
      match actions[|actions| - 1]
      case Offer(event) => [event]
      case _ => []
  }

  predicate IsTracked(action: Action) {
    action.StartStep? || action.CountStep? || action.EndStep?
  }

  /** The tracker after the calls among some actions. */
  function TrackerAfter(actions: seq<Action>): Tracker {
    if actions == [] then EMPTY
    else
      var before, action := TrackerAfter(actions[..|actions| - 1]), actions[|actions| - 1];
      if IsTracked(action) then Tracked(before, action).0 else before
  }

  predicate HasSnapshot(events: seq<Event>) {
    exists k :: 0 <= k < |events| && events[k].SnapshotReady?
  }

  predicate HasVerification(events: seq<Event>) {
    exists k :: 0 <= k < |events| && events[k].Verification?
  }

  // --- which action is refused ---

  /** An action that ends the handler where it stands: an undeclared or `done` event, a second
      `verification`, a `report_file` before a pass, an uncaught call the tracker refuses. */
  predicate IsRefused(before: seq<Action>, action: Action) {
    match action
    case Offer(e) =>
      || e.Done?
      || (e.Verification? && HasVerification(Offers(before)))
      || (e.ReportFile? && Verification(true) !in Offers(before))
    case OfferUndeclared => true
    case Work(_) => false
    case StartStep(_, _, _, _, caught) => !caught && Tracked(TrackerAfter(before), action).1.None?
    case CountStep(_, _, _, _, _, caught) => !caught && Tracked(TrackerAfter(before), action).1.None?
    case EndStep(_, caught) => !caught && Tracked(TrackerAfter(before), action).1.None?
  }

  predicate RefusedAt(actions: seq<Action>, k: nat)
    requires k < |actions|
  {
    IsRefused(actions[..k], actions[k])
  }

  /** The first `n` actions go through and the next one, if there is one, does not. */
  ghost predicate StopsAt(actions: seq<Action>, n: nat) {
    && n <= |actions|
    && (forall k :: 0 <= k < n ==> !RefusedAt(actions, k))
    && (n < |actions| ==> RefusedAt(actions, n))
  }

  function FailureOf(action: Action): Failure {
    if IsTracked(action) then StepInvariant else Emission
  }

  /** How a handler that stops at `n` ends. */
  function EndingOf(script: Script, n: nat): Option<Failure> {
    if n < |script.actions| then Some(FailureOf(script.actions[n])) else script.ending
  }

  // --- what is sent ---

  /** The event an action puts into the stream, if it goes through. */
  function Sent(before: seq<Action>, action: Action): seq<Event> {
    match action
    case Offer(e) => if e.SnapshotReady? && HasSnapshot(Offers(before)) then [] else [e]
    case OfferUndeclared => []
    case Work(_) => []
    case _ =>
      var event := Tracked(TrackerAfter(before), action).1;
      if event.Some? then [event.value] else []
  }

  function Stream(actions: seq<Action>): seq<Event> {
    if actions == [] then []
    else
      var before := actions[..|actions| - 1];
      Stream(before) + Sent(before, actions[|actions| - 1])
  }

  /** What the first announced snapshot tells. */
  function FirstSnapshot(events: seq<Event>): Completion {
    if events == [] then NOTHING_COLLECTED
    else if events[0].SnapshotReady? then events[0].completion
    else FirstSnapshot(events[1..])
  }

  // --- the router holds no more than that ---

  ghost predicate Holds(r: Router, actions: seq<Action>) {
    && r.tracker == TrackerAfter(actions) && r.sent == Stream(actions)
    && (r.seenVerification <==> HasVerification(Offers(actions)))
    && (r.passed <==> Verification(true) in Offers(actions))
    && (r.seenSnapshot <==> HasSnapshot(Offers(actions)))
    && r.completion == FirstSnapshot(Offers(actions))
    && (r.passed ==> r.seenVerification)
  }

  lemma OneMoreAction(before: seq<Action>, action: Action)
    ensures Offers(before + [action]) == Offers(before) + if action.Offer? then [action.event] else []
    ensures TrackerAfter(before + [action]) ==
            if IsTracked(action) then Tracked(TrackerAfter(before), action).0 else TrackerAfter(before)
    ensures Stream(before + [action]) == Stream(before) + Sent(before, action)
  {
    assert (before + [action])[..|before|] == before;
  }

  lemma {:induction false} FirstSnapshotStays(events: seq<Event>, e: Event)
    ensures FirstSnapshot(events + [e]) ==
            if !HasSnapshot(events) && e.SnapshotReady? then e.completion else FirstSnapshot(events)
    ensures !HasSnapshot(events) ==> FirstSnapshot(events) == NOTHING_COLLECTED
  {
    if events == [] {
      assert [e][1..] == [];
    } else {
      assert (events + [e])[1..] == events[1..] + [e];
      FirstSnapshotStays(events[1..], e);
      if k :| 0 <= k < |events| && events[k].SnapshotReady? {
        assert k > 0 ==> events[1..][k - 1].SnapshotReady?;
      }
      if k :| 0 <= k < |events[1..]| && events[1..][k].SnapshotReady? {
        assert events[k + 1].SnapshotReady?;
      }
    }
  }

  lemma OneMoreEvent(events: seq<Event>, e: Event)
    ensures HasSnapshot(events + [e]) <==> HasSnapshot(events) || e.SnapshotReady?
    ensures HasVerification(events + [e]) <==> HasVerification(events) || e.Verification?
    ensures Verification(true) in events + [e] <==> Verification(true) in events || e == Verification(true)
  {
    var all := events + [e];
    assert all[|events|] == e;
    assert forall k :: 0 <= k < |events| ==> all[k] == events[k];
  }

  lemma OfferIsTaken(r: Router, before: seq<Action>, e: Offered)
    requires Holds(r, before)
    ensures var action := Offer(e);
            if IsRefused(before, action) then TakeOffer(r, e) == Turn(r, Some(Emission))
            else TakeOffer(r, e).failure == None && Holds(TakeOffer(r, e).router, before + [action])
  {
    OneMoreAction(before, Offer(e));
    OneMoreEvent(Offers(before), e);
    FirstSnapshotStays(Offers(before), e);
    assert Stream(before) + [] == Stream(before);
  }

  lemma CallIsTaken(r: Router, before: seq<Action>, action: Action)
    requires Holds(r, before) && IsTracked(action)
    ensures var turn := Take(r, action);
            && turn.router.tracker == TrackerAfter(before + [action])
            && (if IsRefused(before, action) then turn == Turn(r.(tracker := turn.router.tracker), Some(StepInvariant))
                else turn.failure == None && Holds(turn.router, before + [action]))
  {
    OneMoreAction(before, action);
    ResultIsTaken(r, before, action, Tracked(TrackerAfter(before), action));
  }

  lemma ResultIsTaken(r: Router, before: seq<Action>, action: Action, result: (Tracker, Option<Event>))
    requires Holds(r, before) && IsTracked(action)
    requires TrackerAfter(before + [action]) == result.0 && Offers(before + [action]) == Offers(before) + []
    requires Stream(before + [action]) == Stream(before) + if result.1.Some? then [result.1.value] else []
    ensures var turn := TakeTracked(r, result, action.caught);
            && turn.router.tracker == result.0
            && (if !action.caught && result.1.None? then
                  turn == Turn(r.(tracker := result.0), Some(StepInvariant))
                else turn.failure == None && Holds(turn.router, before + [action]))
  {
    assert Offers(before) + [] == Offers(before);
    assert Stream(before) + [] == Stream(before);
  }

  /** One action: refused exactly where the script says so, and otherwise taken. */
  lemma ActionIsTaken(r: Router, before: seq<Action>, action: Action)
    requires Holds(r, before)
    ensures var turn := Take(r, action);
            && turn.router.tracker == TrackerAfter(before + [action])
            && (IsRefused(before, action) ==>
                  turn == Turn(r.(tracker := turn.router.tracker), Some(FailureOf(action))))
            && (!IsRefused(before, action) ==> turn.failure == None && Holds(turn.router, before + [action]))
  {
    OneMoreAction(before, action);
    match action {
      case Offer(e) => OfferIsTaken(r, before, e);
      case OfferUndeclared =>
      case Work(_) =>
        assert Offers(before) + [] == Offers(before);
        assert Stream(before) + [] == Stream(before);
      case _ => CallIsTaken(r, before, action);
    }
  }

  /** What the router made of a handler that stopped at `n`. */
  ghost predicate Made(turn: Turn, script: Script, n: nat)
    requires n <= |script.actions|
  {
    var actions := script.actions;
    && turn.failure == EndingOf(script, n)
    && Holds(turn.router.(tracker := TrackerAfter(actions[..n])), actions[..n])
    && turn.router.tracker == TrackerAfter(if n < |actions| then actions[..n + 1] else actions)
  }

  lemma ReadsNext(r: Router, script: Script, k: nat)
    requires k < |script.actions|
    ensures var turn := Take(r, script.actions[k]);
            Handle(r, script.actions[k..], script.ending) ==
            if turn.failure.Some? then turn else Handle(turn.router, script.actions[k + 1..], script.ending)
  {
    assert script.actions[k..][1..] == script.actions[k + 1..];
  }

  lemma StopsHere(r: Router, script: Script, k: nat)
    requires k < |script.actions| && Holds(r, script.actions[..k]) && RefusedAt(script.actions, k)
    ensures Take(r, script.actions[k]).failure.Some? && Made(Take(r, script.actions[k]), script, k)
  {
    assert script.actions[..k + 1] == script.actions[..k] + [script.actions[k]];
    ActionIsTaken(r, script.actions[..k], script.actions[k]);
  }

  lemma GoesOn(r: Router, script: Script, k: nat)
    requires k < |script.actions| && Holds(r, script.actions[..k]) && !RefusedAt(script.actions, k)
    ensures Take(r, script.actions[k]).failure.None?
    ensures Holds(Take(r, script.actions[k]).router, script.actions[..k + 1])
  {
    assert script.actions[..k + 1] == script.actions[..k] + [script.actions[k]];
    ActionIsTaken(r, script.actions[..k], script.actions[k]);
  }

  lemma {:induction false} ReadsOn(r: Router, script: Script, k: nat) returns (n: nat)
    requires k <= |script.actions| && Holds(r, script.actions[..k])
    requires forall i :: 0 <= i < k ==> !RefusedAt(script.actions, i)
    ensures StopsAt(script.actions, n) && k <= n
    ensures Made(Handle(r, script.actions[k..], script.ending), script, n)
    decreases |script.actions| - k
  {
    n := k;
    if k == |script.actions| {
      assert script.actions[..k] == script.actions;
    } else {
      ReadsNext(r, script, k);
      if RefusedAt(script.actions, k) {
        StopsHere(r, script, k);
      } else {
        GoesOn(r, script, k);
        n := ReadsOn(Take(r, script.actions[k]).router, script, k + 1);
      }
    }
  }

  /** The whole stream and the callback of an invocation whose handler runs, from the script
      alone: the handler goes on to the first action that is refused, everything it did before
      that is in the stream in its order, then the failure if there is one, then the ends of the
      steps left open, then `done`; a completed run's callback carries what the first snapshot
      announced. */
  lemma StreamIsTheScript(inv: Invocation, script: Script) returns (n: nat)
    requires inv.rejection.None? && inv.handled
    ensures StopsAt(script.actions, n)
    ensures var actions, failure, result := script.actions, EndingOf(script, n), Run(inv, script);
            var outcome := if failure.None? || !EndsRun(failure.value) then Completed else Failed;
            && result.events ==
               Stream(actions[..n])
               + (if failure.Some? then [Error(CodeOf(failure.value), EndsRun(failure.value))] else [])
               + Ends(TrackerAfter(if n < |actions| then actions[..n + 1] else actions).open)
               + [Done(outcome)]
            && (inv.reporting ==> result.callback.Some? && result.callback.value.outcome == outcome)
            && (inv.reporting && outcome == Completed ==>
                  result.callback.value.completion == FirstSnapshot(Offers(actions[..n])))
  {
    assert script.actions[..0] == [] && script.actions[0..] == script.actions;
    n := ReadsOn(FRESH, script, 0);
  }

  // --- nothing offered is lost ---

  /** Without the tracker's events and what the router adds. */
  function Shown(events: seq<Event>): seq<Event> {
    if events == [] then []
    else
      var e := events[|events| - 1];
      Shown(events[..|events| - 1]) +
      if e.ToolStart? || e.ToolEnd? || e.Progress? || e.Error? || e.Done? then [] else [e]
  }

  /** Without a `snapshot_ready` behind the first. */
  function OneSnapshot(events: seq<Event>): seq<Event> {
    if events == [] then []
    else
      var init, e := events[..|events| - 1], events[|events| - 1];
      OneSnapshot(init) + if e.SnapshotReady? && HasSnapshot(init) then [] else [e]
  }

  lemma {:induction false} ShownAppend(a: seq<Event>, b: seq<Event>)
    ensures Shown(a + b) == Shown(a) + Shown(b)
  {
    if b == [] {
      assert a + b == a;
    } else {
      assert (a + b)[..|a + b| - 1] == a + b[..|b| - 1];
      ShownAppend(a, b[..|b| - 1]);
    }
  }

  lemma ShownOne(e: Event)
    ensures Shown([e]) == if e.ToolStart? || e.ToolEnd? || e.Progress? || e.Error? || e.Done? then [] else [e]
  {
    assert [e][..0] == [];
  }

  lemma CallsAreNotShown(before: seq<Action>, action: Action)
    requires IsTracked(action)
    ensures Shown(Sent(before, action)) == []
  {
    var event := Tracked(TrackerAfter(before), action).1;
    if event.Some? {
      ShownOne(event.value);
    }
  }

  lemma OneMoreOffer(offers: seq<Event>, e: Event)
    ensures OneSnapshot(offers + [e]) ==
            OneSnapshot(offers) + if e.SnapshotReady? && HasSnapshot(offers) then [] else [e]
  {
    assert (offers + [e])[..|offers|] == offers;
  }

  lemma {:induction false} OffersAreSent(actions: seq<Action>)
    ensures Shown(Stream(actions)) == Shown(OneSnapshot(Offers(actions)))
  {
    if actions != [] {
      var before, action := actions[..|actions| - 1], actions[|actions| - 1];
      OffersAreSent(before);
      ShownAppend(Stream(before), Sent(before, action));
      assert Offers(before) + [] == Offers(before) && Shown(Stream(before)) + [] == Shown(Stream(before));
      match action {
        case Offer(e) =>
          OneMoreOffer(Offers(before), e);
          ShownAppend(OneSnapshot(Offers(before)), Sent(before, action));
        case OfferUndeclared =>
        case Work(_) =>
        case _ => CallsAreNotShown(before, action);
      }
    }
  }

  lemma {:induction false} EndsAreNotShown(open: seq<Step>)
    ensures Shown(Ends(open)) == []
  {
    if open != [] {
      var last := open[|open| - 1];
      EndsAreNotShown(open[..|open| - 1]);
      ShownOne(ToolEnd(last.id, last.name));
      ShownAppend([ToolEnd(last.id, last.name)], Ends(open[..|open| - 1]));
    }
  }

  /** Up to the first action that is refused, the stream shows exactly what was offered, in
      order, with a `snapshot_ready` behind the first left out. */
  lemma WhatIsOfferedIsSent(inv: Invocation, script: Script) returns (n: nat)
    requires inv.rejection.None? && inv.handled
    ensures StopsAt(script.actions, n)
    ensures Shown(Run(inv, script).events) == Shown(OneSnapshot(Offers(script.actions[..n])))
  {
    n := StreamIsTheScript(inv, script);
    var actions, failure := script.actions, EndingOf(script, n);
    var open := TrackerAfter(if n < |actions| then actions[..n + 1] else actions).open;
    var error := if failure.Some? then [Error(CodeOf(failure.value), EndsRun(failure.value))] else [];
    var outcome := if failure.None? || !EndsRun(failure.value) then Completed else Failed;
    OffersAreSent(actions[..n]);
    EndsAreNotShown(open);
    TailIsNotShown(Stream(actions[..n]), error, Ends(open), outcome);
  }

  lemma TailIsNotShown(stream: seq<Event>, error: seq<Event>, ends: seq<Event>, outcome: Outcome)
    requires |error| <= 1 && (error != [] ==> error[0].Error?) && Shown(ends) == []
    ensures Shown(stream + error + ends + [Done(outcome)]) == Shown(stream)
  {
    ShownAppend(stream + error + ends, [Done(outcome)]);
    ShownAppend(stream + error, ends);
    ShownAppend(stream, error);
    ShownOne(Done(outcome));
    if error != [] {
      ShownOne(error[0]);
      assert error == [error[0]];
    }
  }
}
