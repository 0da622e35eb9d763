/** A report run from its first callback to its completed row: the reporter, the deliveries in
    their order and the row, together.

    Joins `report` and `_admit` (agent/src/reporting_agent/progress.py), the phases the document
    pipeline reports (agent/src/reporting_agent/report_pipeline.py) and the row's transition
    table (app/lib/runs/state.ts). */
module WholeRun {
  import opened Options
  import opened RunStatus
  import opened RunRow
  import CallbackBody
  import Throttle
  import ProgressReporter
  import DeliveryOrder
  import DocumentPhases

  // --- what the throttle lets through ---

  /** The phases of the calls that are sent, in order. */
  function SentPhases(calls: seq<Throttle.Call>, n: nat): seq<Status>
    requires n <= |calls|
  {
    if n == 0 then []
    else SentPhases(calls, n - 1) + if Throttle.Sent(calls, n - 1) then [calls[n - 1].phase] else []
  }

  function LastPhase(start: Status, phases: seq<Status>): Status {
    if phases == [] then start else phases[|phases| - 1]
  }

  /** Each phase is the one before it or reachable from it. */
  predicate AlongTheChain(start: Status, phases: seq<Status>) {
    forall k :: 0 <= k < |phases| ==> Reached(start, phases, k)
  }

  predicate Reached(start: Status, phases: seq<Status>, k: nat)
    requires k < |phases|
  {
    !IsTerminal(phases[k]) && phases[k] in AcceptedTargets(if k == 0 then start else phases[k - 1])
  }

  function CalledPhases(calls: seq<Throttle.Call>): (r: seq<Status>)
    ensures |r| == |calls| && forall k :: 0 <= k < |r| ==> r[k] == calls[k].phase
  {
    seq(|calls|, i requires 0 <= i < |calls| => calls[i].phase)
  }

  lemma {:induction false} OneMorePhase(start: Status, phases: seq<Status>, phase: Status)
    requires AlongTheChain(start, phases)
    requires !IsTerminal(phase) && phase in AcceptedTargets(LastPhase(start, phases))
    ensures AlongTheChain(start, phases + [phase])
  {
    var all := phases + [phase];
    forall k | 0 <= k < |all|
      ensures Reached(start, all, k)
    {
      assert k < |phases| ==> Reached(start, phases, k);
    }
  }

  lemma {:induction false} EntersIsSent(calls: seq<Throttle.Call>, k: nat)
    requires k < |calls|
    ensures Throttle.Enters(calls, k) ==> Throttle.Sent(calls, k)
  {
    if Throttle.Enters(calls, k) {
      Throttle.ChangesAndCompletionsAreSent(calls, k);
    }
  }

  /** The throttle drops refreshes, never a link of the chain: whatever the clock does, what is
      sent is along the chain and ends in the phase called last. */
  lemma {:induction false} ThrottleKeepsTheChain(start: Status, calls: seq<Throttle.Call>, n: nat)
    requires n <= |calls| && AlongTheChain(start, CalledPhases(calls))
    ensures AlongTheChain(start, SentPhases(calls, n))
    ensures LastPhase(start, SentPhases(calls, n)) == if n == 0 then start else calls[n - 1].phase
  {
    if n > 0 {
      ThrottleKeepsTheChain(start, calls, n - 1);
      assert Reached(start, CalledPhases(calls), n - 1);
      EntersIsSent(calls, n - 1);
      if Throttle.Sent(calls, n - 1) {
        OneMorePhase(start, SentPhases(calls, n - 1), calls[n - 1].phase);
      } else {
        assert SentPhases(calls, n) == SentPhases(calls, n - 1);
      }
    }
  }

  lemma {:induction false} SentIncludesEveryCall(calls: seq<Throttle.Call>, n: nat, phase: Status)
    requires n <= |calls|
    ensures phase in SentPhases(calls, n) <==> exists k :: 0 <= k < n && calls[k].phase == phase
  {
    if n > 0 {
      SentIncludesEveryCall(calls, n - 1, phase);
      EntersIsSent(calls, n - 1);
      if calls[n - 1].phase == phase && !Throttle.Sent(calls, n - 1) {
        assert calls[n - 2].phase == phase;
      }
    }
  }

  // --- what the reporter schedules ---

  /** A label the schema takes. */
  predicate Fits(r: ProgressReporter.Request) {
    !CallbackBody.OverflowsAfterCut(r.badge, MAX_PROGRESS_LABEL_LENGTH)
  }

  /** A body the reporter built is sound unless its label overflows. */
  lemma {:induction false} BuiltBodiesAreSound(runId: string, r: ProgressReporter.Request)
    requires runId != "" && ProgressReporter.IsIntermediate(r.phase) && Fits(r)
    ensures var body := ProgressReporter.BodyOf(runId, r); DeliveryOrder.IsSound(body) && body.phase == r.phase
  {
    var fields := CallbackBody.NO_FIELDS.(current := r.current, total := r.total, badge := r.badge);
    CallbackBody.BodyParsesExactlyWhen(runId, r.phase, fields);
  }

  /** The reporter's scheduled bodies are sound and have the phases of the calls that are sent. */
  lemma {:induction false} ScheduledAreTheSent(runId: string, requests: seq<ProgressReporter.Request>, n: nat)
    requires runId != "" && n <= |requests|
    requires forall k :: 0 <= k < |requests| ==> ProgressReporter.IsIntermediate(requests[k].phase) && Fits(requests[k])
    ensures var bodies := ProgressReporter.ScheduledBodies(runId, requests, n);
            && DeliveryOrder.Phases(bodies) == SentPhases(ProgressReporter.CallsOf(requests), n)
            && forall k :: 0 <= k < |bodies| ==> DeliveryOrder.IsSound(bodies[k])
  {
    if n > 0 {
      var last, calls := requests[n - 1], ProgressReporter.CallsOf(requests);
      ScheduledAreTheSent(runId, requests, n - 1);
      BuiltBodiesAreSound(runId, last);
      OneMoreBody(ProgressReporter.ScheduledBodies(runId, requests, n - 1), ProgressReporter.BodyOf(runId, last),
                  Throttle.Sent(calls, n - 1));
      assert calls[n - 1].phase == last.phase;
    }
  }

  lemma {:induction false} OneMoreBody(bodies: seq<Body>, body: Body, sent: bool)
    requires DeliveryOrder.IsSound(body) && forall k :: 0 <= k < |bodies| ==> DeliveryOrder.IsSound(bodies[k])
    ensures var more := bodies + if sent then [body] else [];
            && DeliveryOrder.Phases(more) == DeliveryOrder.Phases(bodies) + (if sent then [body.phase] else [])
            && forall k :: 0 <= k < |more| ==> DeliveryOrder.IsSound(more[k])
  {
    assert !sent ==> bodies + [] == bodies;
  }

  lemma {:induction false} SentOnTheChain(start: Status, calls: seq<Throttle.Call>, bodies: seq<Body>)
    requires AlongTheChain(start, CalledPhases(calls))
    requires DeliveryOrder.Phases(bodies) == SentPhases(calls, |calls|)
    requires forall k :: 0 <= k < |bodies| ==> DeliveryOrder.IsSound(bodies[k])
    ensures DeliveryOrder.OnTheChain(start, bodies)
  {
    ThrottleKeepsTheChain(start, calls, |calls|);
    var phases := SentPhases(calls, |calls|);
    forall k | 0 <= k < |bodies|
      ensures DeliveryOrder.Linked(start, bodies, k)
    {
      assert Reached(start, phases, k);
      assert DeliveryOrder.Phases(bodies)[k] == phases[k];
      assert k > 0 ==> DeliveryOrder.Phases(bodies)[k - 1] == phases[k - 1];
    }
  }

  // --- the run ---

  /** Every POST of the run is answered: none is given up on or handled after it was. The
      terminal callback may overtake others and may come before the proof. */
  ghost predicate Answered(row: Row, steps: seq<DeliveryOrder.Step>) {
    forall k :: 0 <= k < |steps| ==> AnsweredAt(row, steps, k)
  }

  predicate AnsweredAt(row: Row, steps: seq<DeliveryOrder.Step>, k: nat)
    requires k < |steps|
  {
    var step := steps[k];
    DeliveryOrder.Possible(DeliveryOrder.Run(row, steps[..k]), step) ==>
      && !step.GivenUp? && !step.StrayHandled? && !step.TerminalGivenUp?
      && (step.AskTerminal? ==> DeliveryOrder.IsSound(step.body) && step.body.phase == Completed)
  }

  lemma {:induction false} AnsweredAlongTheChain(row: Row, steps: seq<DeliveryOrder.Step>)
    requires Answered(row, steps)
    requires DeliveryOrder.OnTheChain(row.status, DeliveryOrder.Run(row, steps).bodies)
    ensures DeliveryOrder.AnsweredRun(row, steps)
  {
    forall k | 0 <= k < |steps|
      ensures DeliveryOrder.AnsweredAt(row, steps, k)
    {
      AnsweredStep(row, steps, k);
    }
  }

  lemma {:induction false} AnsweredStep(row: Row, steps: seq<DeliveryOrder.Step>, k: nat)
    requires k < |steps| && AnsweredAt(row, steps, k)
    requires DeliveryOrder.OnTheChain(row.status, DeliveryOrder.Run(row, steps).bodies)
    ensures DeliveryOrder.AnsweredAt(row, steps, k)
  {
    var bodies := DeliveryOrder.Run(row, steps).bodies;
    var s, step := DeliveryOrder.Run(row, steps[..k]), steps[k];
    if step.Report? && DeliveryOrder.Possible(s, step) {
      assert steps[..k + 1] == steps[..k] + [step];
      DeliveryOrder.RunAppend(row, steps[..k], step);
      DeliveryOrder.ReportsAccumulate(row, steps, k + 1);
      NextIsLinked(row.status, bodies, s.bodies, step.body);
    }
  }

  lemma {:induction false} NextIsLinked(start: Status, all: seq<Body>, before: seq<Body>, body: Body)
    requires DeliveryOrder.OnTheChain(start, all) && before + [body] <= all
    ensures DeliveryOrder.IsSound(body) && body.phase in AcceptedTargets(DeliveryOrder.LastReported(start, before))
  {
    var k := |before|;
    assert (before + [body])[k] == all[k];
    assert k > 0 ==> (before + [body])[k - 1] == all[k - 1];
    assert DeliveryOrder.Linked(start, all, k);
  }

  /** Reports of a run that collects, refreshing its count as often as it moves, and then makes
      a document. */
  ghost predicate IsDocumentRun(requests: seq<ProgressReporter.Request>, collected: nat) {
    && 0 < collected && |requests| == collected + 3
    && (forall k :: 0 <= k < collected ==> requests[k].phase == Collecting)
    && requests[collected].phase == Compiling && requests[collected + 1].phase == Rendering
    && requests[collected + 2].phase == Verifying
    && (forall k :: 0 <= k < |requests| ==> Fits(requests[k]))
  }

  /** The reports of a delivered document are those of such a run. */
  lemma {:induction false} DeliveredIsDocumentRun(requests: seq<ProgressReporter.Request>, collected: nat,
                                                  w: DocumentPhases.World, n: nat)
    requires 0 < collected <= |requests|
    requires forall k :: 0 <= k < collected ==> requests[k].phase == Collecting
    requires forall k :: 0 <= k < |requests| ==> Fits(requests[k])
    requires w.reporting && DocumentPhases.PhasesScript(w, n).ending.None?
    requires CalledPhases(ProgressReporter.CallsOf(requests[collected..])) ==
             DocumentPhases.ReportedIn(DocumentPhases.PhasesScript(w, n).actions)
    ensures IsDocumentRun(requests, collected)
  {
    DocumentPhases.DeliveredIsReported(w, n);
    var phases := CalledPhases(ProgressReporter.CallsOf(requests[collected..]));
    assert |phases| == 3;
    assert phases[0] == requests[collected].phase && phases[1] == requests[collected + 1].phase;
    assert phases[2] == requests[collected + 2].phase;
  }

  lemma {:induction false} DocumentAlongTheChain(requests: seq<ProgressReporter.Request>, collected: nat)
    requires IsDocumentRun(requests, collected)
    ensures AlongTheChain(Claimed, CalledPhases(ProgressReporter.CallsOf(requests)))
  {
    var phases := CalledPhases(ProgressReporter.CallsOf(requests));
    forall k | 0 <= k < |phases|
      ensures Reached(Claimed, phases, k)
    {
      assert phases[k] == requests[k].phase;
      assert k > 0 ==> phases[k - 1] == requests[k - 1].phase;
    }
  }

  lemma {:induction false} CollectingIsSent(calls: seq<Throttle.Call>, n: nat)
    requires n <= |calls| && forall k :: 0 <= k < n ==> calls[k].phase == Collecting
    ensures forall k :: 0 <= k < |SentPhases(calls, n)| ==> SentPhases(calls, n)[k] == Collecting
  {
    if n > 0 {
      CollectingIsSent(calls, n - 1);
    }
  }

  /** Sent are some of the refreshes, then each phase of the document once. */
  lemma {:induction false} DocumentIsSent(requests: seq<ProgressReporter.Request>, collected: nat)
    requires IsDocumentRun(requests, collected)
    ensures var calls := ProgressReporter.CallsOf(requests);
            var sent := SentPhases(calls, |calls|);
            && |sent| > 3 && sent[|sent| - 3..] == [Compiling, Rendering, Verifying]
            && forall k :: 0 <= k < |sent| - 3 ==> sent[k] == Collecting
  {
    var calls := ProgressReporter.CallsOf(requests);
    CollectingIsSent(calls, collected);
    SentIncludesEveryCall(calls, collected, Collecting);
    assert calls[0].phase == Collecting;
    EntersIsSent(calls, collected);
    EntersIsSent(calls, collected + 1);
    EntersIsSent(calls, collected + 2);
    var before := SentPhases(calls, collected);
    assert SentPhases(calls, collected + 1) == before + [Compiling];
    assert SentPhases(calls, collected + 2) == before + [Compiling] + [Rendering];
    assert SentPhases(calls, collected + 3) == before + [Compiling] + [Rendering] + [Verifying];
  }

  /** How a document run whose POSTs are all answered ends, whatever the throttle let through
      and however long the answers took: it completes exactly when a terminal POST is handled
      while the row stands at `verifying` with the proof stored, having passed through every
      phase sent, or while it still stands at `collecting`, having passed through no phase of
      the document. */
  lemma {:induction false} DocumentRunEnds(row: Row, steps: seq<DeliveryOrder.Step>, runId: string,
                        requests: seq<ProgressReporter.Request>, collected: nat)
    requires row.status == Claimed && runId != "" && Answered(row, steps) && IsDocumentRun(requests, collected)
    requires DeliveryOrder.Run(row, steps).bodies == ProgressReporter.ScheduledBodies(runId, requests, |requests|)
    ensures DeliveryOrder.Run(row, steps).row.status == Completed <==>
            exists k :: 0 <= k < |steps| && DeliveryOrder.LandsAt(row, steps, k)
    ensures forall k :: 0 <= k < |steps| && DeliveryOrder.LandsAt(row, steps, k) ==>
              EndsWhole(row, steps, k, requests) || EndsWithoutDocument(row, steps, k)
  {
    DocumentIsAnswered(row, steps, runId, requests, collected);
    DeliveryOrder.AnsweredRunEnds(row, steps);
    forall k | 0 <= k < |steps| && DeliveryOrder.LandsAt(row, steps, k)
      ensures EndsWhole(row, steps, k, requests) || EndsWithoutDocument(row, steps, k)
    {
      assert DeliveryOrder.CompletesFrom(row, steps, k);
      LandingIsWholeOrBare(row, steps, k, requests, collected);
    }
  }

  ghost predicate EndsWhole(row: Row, steps: seq<DeliveryOrder.Step>, k: nat, requests: seq<ProgressReporter.Request>)
    requires k < |steps|
  {
    var before, s := DeliveryOrder.Run(row, steps[..k]), DeliveryOrder.Run(row, steps);
    && before.row.status == Verifying && before.proofStored
    && s.visited == SentPhases(ProgressReporter.CallsOf(requests), |requests|) + [Completed]
  }

  ghost predicate EndsWithoutDocument(row: Row, steps: seq<DeliveryOrder.Step>, k: nat)
    requires k < |steps|
  {
    var before, s := DeliveryOrder.Run(row, steps[..k]), DeliveryOrder.Run(row, steps);
    && before.row.status == Collecting
    && s.visited != [] && forall j :: 0 <= j < |s.visited| - 1 ==> s.visited[j] == Collecting
  }

  lemma {:induction false} DocumentIsAnswered(row: Row, steps: seq<DeliveryOrder.Step>, runId: string,
                           requests: seq<ProgressReporter.Request>, collected: nat)
    requires row.status == Claimed && runId != "" && Answered(row, steps) && IsDocumentRun(requests, collected)
    requires DeliveryOrder.Run(row, steps).bodies == ProgressReporter.ScheduledBodies(runId, requests, |requests|)
    ensures DeliveryOrder.AnsweredRun(row, steps)
    ensures DeliveryOrder.Phases(DeliveryOrder.Run(row, steps).bodies) ==
            SentPhases(ProgressReporter.CallsOf(requests), |requests|)
  {
    assert forall k :: 0 <= k < |requests| ==> ProgressReporter.IsIntermediate(requests[k].phase);
    ScheduledAreTheSent(runId, requests, |requests|);
    DocumentAlongTheChain(requests, collected);
    SentOnTheChain(row.status, ProgressReporter.CallsOf(requests), DeliveryOrder.Run(row, steps).bodies);
    AnsweredAlongTheChain(row, steps);
  }

  lemma {:induction false} LandingIsWholeOrBare(row: Row, steps: seq<DeliveryOrder.Step>, k: nat,
                             requests: seq<ProgressReporter.Request>, collected: nat)
    requires row.status == Claimed && k < |steps| && DeliveryOrder.LandsAt(row, steps, k)
    requires DeliveryOrder.CompletesFrom(row, steps, k) && IsDocumentRun(requests, collected)
    requires DeliveryOrder.Phases(DeliveryOrder.Run(row, steps).bodies) ==
             SentPhases(ProgressReporter.CallsOf(requests), |requests|)
    ensures EndsWhole(row, steps, k, requests) || EndsWithoutDocument(row, steps, k)
  {
    var before, s := DeliveryOrder.Run(row, steps[..k]), DeliveryOrder.Run(row, steps);
    DocumentIsSent(requests, collected);
    StandsWhole(s.bodies, SentPhases(ProgressReporter.CallsOf(requests), |requests|), |before.visited|);
  }

  /** Standing at `verifying` is standing at the last callback, at `collecting` before the last
      three. */
  lemma {:induction false} StandsWhole(bodies: seq<Body>, sent: seq<Status>, g: nat)
    requires DeliveryOrder.Phases(bodies) == sent && g <= |bodies|
    requires |sent| > 3 && sent[|sent| - 3..] == [Compiling, Rendering, Verifying]
    requires forall k :: 0 <= k < |sent| - 3 ==> sent[k] == Collecting
    ensures var status := DeliveryOrder.LastReported(Claimed, bodies[..g]);
            && (status == Verifying ==> DeliveryOrder.Phases(bodies[..g]) == sent)
            && (status == Collecting ==> forall j :: 0 <= j < g ==> DeliveryOrder.Phases(bodies[..g])[j] == Collecting)
  {
    var n := |sent|;
    assert DeliveryOrder.Phases(bodies[..g]) == sent[..g];
    assert sent[n - 3] == sent[n - 3..][0] && sent[n - 2] == sent[n - 3..][1] && sent[n - 1] == sent[n - 3..][2];
    assert g > 0 ==> DeliveryOrder.LastReported(Claimed, bodies[..g]) == sent[g - 1];
    assert sent[..n] == sent;
  }

  /** When nothing is late either, a delivered run ends completed, the row having passed through
      collecting, compiling, rendering and verifying in that order and through nothing else. */
  lemma {:induction false} DeliveredRunCompletes(row: Row, steps: seq<DeliveryOrder.Step>, runId: string,
                              requests: seq<ProgressReporter.Request>, collected: nat)
    requires row.status == Claimed && runId != "" && Answered(row, steps) && IsDocumentRun(requests, collected)
    requires DeliveryOrder.Run(row, steps).bodies == ProgressReporter.ScheduledBodies(runId, requests, |requests|)
    requires DeliveryOrder.PromptRun(row, steps) && DeliveryOrder.Run(row, steps).terminal.Over?
    ensures var s := DeliveryOrder.Run(row, steps);
            && s.row.status == Completed && |s.visited| > 4
            && s.visited[|s.visited| - 4..] == [Compiling, Rendering, Verifying, Completed]
            && forall k :: 0 <= k < |s.visited| - 4 ==> s.visited[k] == Collecting
  {
    DocumentIsAnswered(row, steps, runId, requests, collected);
    DeliveryOrder.PromptRunCompletes(row, steps);
    DocumentIsSent(requests, collected);
    var sent := SentPhases(ProgressReporter.CallsOf(requests), |requests|);
    assert (sent + [Completed])[|sent| - 3..] == sent[|sent| - 3..] + [Completed];
  }
}
