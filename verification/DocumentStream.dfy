/** What a reader of a report run's stream is shown of its document.

    Joins `_document_phases` (agent/src/reporting_agent/report_pipeline.py) and the router
    (agent/src/reporting_agent/main.py). */
module DocumentStream {
  import opened Options
  import opened Events
  import opened StepTracker
  import opened Invocation
  import opened DocumentPhases
  import opened Transcript

  function Copies(n: nat, e: Event): seq<Event> {
    seq(n, i => e)
  }

  function Files(artifacts: seq<string>): seq<Event> {
    seq(|artifacts|, i requires 0 <= i < |artifacts| => ReportFile(artifacts[i]))
  }

  lemma {:induction false} OffersAppend(a: seq<Action>, b: seq<Action>)
    ensures Offers(a + b) == Offers(a) + Offers(b)
  {
    if b == [] {
      assert a + b == a;
    } else {
      assert (a + b)[..|a + b| - 1] == a + b[..|b| - 1];
      OffersAppend(a, b[..|b| - 1]);
    }
  }

  lemma Associate<T>(a: seq<T>, b: seq<T>, c: seq<T>)
    ensures a + (b + c) == a + b + c
  {
  }

  /** The events are those the actions offer, one each. */
  predicate OffersEach(actions: seq<Action>, events: seq<Event>) {
    && |actions| == |events|
    && forall k :: 0 <= k < |actions| ==> actions[k].Offer? && actions[k].event == events[k]
  }

  lemma {:induction false} OffersOfEach(actions: seq<Action>, events: seq<Event>)
    requires OffersEach(actions, events)
    ensures Offers(actions) == events
  {
    if actions != [] {
      OffersOfEach(actions[..|actions| - 1], events[..|events| - 1]);
    }
  }

  lemma {:induction false} NothingOffered(actions: seq<Action>)
    requires forall k :: 0 <= k < |actions| ==> !actions[k].Offer?
    ensures Offers(actions) == []
  {
    if actions != [] {
      NothingOffered(actions[..|actions| - 1]);
    }
  }

  predicate OffersNothing(actions: seq<Action>) {
    forall k :: 0 <= k < |actions| ==> !actions[k].Offer?
  }

  /** The parts that offer nothing. */
  lemma QuietParts(w: World, n: nat)
    ensures OffersNothing(CompileBegins(w)) && OffersNothing(CompileEnds(w, n))
    ensures OffersNothing(RenderBegins(w)) && OffersNothing(RenderEnds(n))
    ensures OffersNothing(VerifyBegins(w)) && OffersNothing(VerifyEnds(n))
    ensures OffersNothing(WRITE_RESULT) && OffersNothing(Recording(w)) && OffersNothing(UploadBegins())
    ensures OffersNothing(WRITE_REPORT) && OffersNothing(Diagnosing(w))
    ensures OffersNothing(Closing(GeneratedId(UPLOAD, n + 4)))
  {
  }

  /** Actions that offer nothing leave what was offered as it was. */
  lemma ThenNothing(a: seq<Action>, b: seq<Action>, offered: seq<Event>)
    requires Offers(a) == offered && OffersNothing(b)
    ensures Offers(a + b) == offered
  {
    OffersAppend(a, b);
    NothingOffered(b);
  }

  lemma ThenEach(a: seq<Action>, b: seq<Action>, offered: seq<Event>, events: seq<Event>)
    requires Offers(a) == offered && OffersEach(b, events)
    ensures Offers(a + b) == offered + events
  {
    OffersAppend(a, b);
    OffersOfEach(b, events);
  }

  lemma CompiledOffers(w: World, n: nat)
    ensures Offers(CompileBegins(w) + CompileEnds(w, n) + Times(w.charts, Chart) + Deltas(w)) ==
            Copies(w.charts, Chart) + Copies(w.deltas, Delta)
  {
    var begun := CompileBegins(w);
    var compiled := begun + CompileEnds(w, n);
    QuietParts(w, n);
    NothingOffered(begun);
    ThenNothing(begun, CompileEnds(w, n), []);
    ThenEach(compiled, Times(w.charts, Chart), [], Copies(w.charts, Chart));
    assert [] + Copies(w.charts, Chart) == Copies(w.charts, Chart);
    ThenEach(compiled + Times(w.charts, Chart), Deltas(w), Copies(w.charts, Chart), Copies(w.deltas, Delta));
  }

  lemma DraftedOffers(w: World, n: nat)
    ensures Offers(Drafted(w, n)) == Copies(w.charts, Chart) + Copies(w.deltas, Delta)
  {
    var told, offered := CompileBegins(w) + CompileEnds(w, n) + Times(w.charts, Chart) + Deltas(w),
                         Copies(w.charts, Chart) + Copies(w.deltas, Delta);
    CompiledOffers(w, n);
    QuietParts(w, n);
    ThenNothing(told, RenderBegins(w), offered);
    ThenNothing(told + RenderBegins(w), RenderEnds(n), offered);
    ThenNothing(told + RenderBegins(w) + RenderEnds(n), VerifyBegins(w), offered);
  }

  lemma GatedOffers(w: World, n: nat)
    ensures Offers(Gated(w, n)) ==
            Copies(w.charts, Chart) + Copies(w.deltas, Delta) + [Verification(w.result.pass)]
  {
    var offered := Copies(w.charts, Chart) + Copies(w.deltas, Delta);
    var written := Drafted(w, n) + VerifyEnds(n) + WRITE_RESULT;
    DraftedOffers(w, n);
    QuietParts(w, n);
    ThenNothing(Drafted(w, n), VerifyEnds(n), offered);
    ThenNothing(Drafted(w, n) + VerifyEnds(n), WRITE_RESULT, offered);
    RecordedOffers(written, offered, w);
  }

  lemma RecordedOffers(written: seq<Action>, offered: seq<Event>, w: World)
    requires Offers(written) == offered
    ensures Offers(written + Recorded(w)) == offered + [Verification(w.result.pass)]
  {
    var told := [Offer(Verification(w.result.pass))];
    ThenNothing(written, Recording(w), offered);
    ThenEach(written + Recording(w), told, offered, [Verification(w.result.pass)]);
    Associate(written, Recording(w), told);
  }

  function Document(w: World): seq<Event> {
    Copies(w.charts, Chart) + Copies(w.deltas, Delta) + [Verification(w.result.pass)] + Files(w.artifacts)
  }

  lemma DeliveredOffers(w: World, n: nat)
    ensures Offers(Delivered(w, n)) == Document(w)
  {
    var offered := Copies(w.charts, Chart) + Copies(w.deltas, Delta) + [Verification(w.result.pass)];
    var begun := Gated(w, n) + UploadBegins();
    GatedOffers(w, n);
    QuietParts(w, n);
    ThenNothing(Gated(w, n), UploadBegins(), offered);
    ThenNothing(begun, WRITE_REPORT, offered);
    ThenNothing(begun + WRITE_REPORT, Diagnosing(w), offered);
    UploadedOffers(begun + WRITE_REPORT + Diagnosing(w), offered, w, n);
  }

  lemma UploadedOffers(written: seq<Action>, offered: seq<Event>, w: World, n: nat)
    requires Offers(written) == offered
    ensures Offers(written + UploadEnds(w, n)) == offered + Files(w.artifacts)
  {
    var closing := Closing(GeneratedId(UPLOAD, n + 4));
    ThenNothing(written, closing, offered);
    ThenEach(written + closing, ReportFiles(w.artifacts), offered, Files(w.artifacts));
    Associate(written, closing, ReportFiles(w.artifacts));
  }

  /** Events the reader is shown and that announce no snapshot. */
  predicate ArePlain(events: seq<Event>) {
    forall k :: 0 <= k < |events| ==>
      events[k] == Chart || events[k] == Delta || events[k].Verification? || events[k].ReportFile?
  }

  lemma DocumentIsPlain(w: World)
    ensures ArePlain(Document(w))
  {
  }

  lemma {:induction false} PlainAreShown(events: seq<Event>)
    requires ArePlain(events)
    ensures Shown(events) == events
  {
    if events != [] {
      PlainAreShown(events[..|events| - 1]);
    }
  }

  lemma {:induction false} PlainStay(before: seq<Event>, events: seq<Event>)
    requires ArePlain(events)
    ensures OneSnapshot(before + events) == OneSnapshot(before) + events
  {
    if events == [] {
      assert before + events == before;
    } else {
      var init, last := events[..|events| - 1], events[|events| - 1];
      PlainStay(before, init);
      OneMoreOffer(before + init, last);
      Associate(before, init, [last]);
      Associate(OneSnapshot(before), init, [last]);
      assert events == init + [last];
    }
  }

  lemma PlainBehind(before: seq<Event>, events: seq<Event>)
    requires ArePlain(events)
    ensures Shown(OneSnapshot(before + events)) == Shown(OneSnapshot(before)) + events
  {
    PlainStay(before, events);
    ShownAppend(OneSnapshot(before), events);
    PlainAreShown(events);
  }

  /** A delivered document is shown whole: behind what collecting offered, every chart, every
      delta, the passing verification and every file, in that order, and nothing else. */
  lemma DeliveredIsShown(inv: Invocation, collecting: seq<Action>, r: Router, w: World)
    requires inv == Invocation(None, true, true)
    requires Leads(FRESH, collecting, r) && At(r, r.tracker.sequence, false, false)
    requires PhasesScript(w, r.tracker.sequence).ending.None?
    ensures w.result.pass
    ensures Shown(Run(inv, ReportScript(collecting, w, r.tracker.sequence)).events) ==
            Shown(OneSnapshot(Offers(collecting))) + Document(w)
  {
    var n := r.tracker.sequence;
    ScriptBegins(w, n);
    EndsWellExactlyWhen(w, n);
    ReportTurn(collecting, r, w);
    AllIsRead(inv, ReportScript(collecting, w, n));
    DeliveredBehind(collecting, w, n);
  }

  lemma DeliveredBehind(collecting: seq<Action>, w: World, n: nat)
    ensures Shown(OneSnapshot(Offers(collecting + Delivered(w, n)))) ==
            Shown(OneSnapshot(Offers(collecting))) + Document(w)
  {
    OffersAppend(collecting, Delivered(w, n));
    DeliveredOffers(w, n);
    DocumentIsPlain(w);
    PlainBehind(Offers(collecting), Document(w));
  }

  /** A script that ends well is read to its end. */
  lemma AllIsRead(inv: Invocation, script: Script)
    requires inv.rejection.None? && inv.handled && script.ending.None?
    requires Handle(FRESH, script.actions, script.ending).failure.None?
    ensures Shown(Run(inv, script).events) == Shown(OneSnapshot(Offers(script.actions)))
  {
    var n := WhatIsOfferedIsSent(inv, script);
    assert script.actions[..0] == [] && script.actions[0..] == script.actions;
    var m := ReadsOn(FRESH, script, 0);
    OneStop(script.actions, n, m);
    assert script.actions[..|script.actions|] == script.actions;
  }

  lemma OneStop(actions: seq<Action>, n: nat, m: nat)
    requires StopsAt(actions, n) && StopsAt(actions, m)
    ensures n == m
  {
  }

  // --- what is done unseen, and the steps of the timeline ---

  /** The actions of one kind, in their order. */
  function Only(kind: Action -> bool, actions: seq<Action>): seq<Action> {
    if actions == [] then []
    else
      var last := actions[|actions| - 1];
      Only(kind, actions[..|actions| - 1]) + if kind(last) then [last] else []
  }

  lemma {:induction false} OnlyAppend(kind: Action -> bool, a: seq<Action>, b: seq<Action>)
    ensures Only(kind, a + b) == Only(kind, a) + Only(kind, b)
  {
    if b == [] {
      assert a + b == a;
    } else {
      assert (a + b)[..|a + b| - 1] == a + b[..|b| - 1];
      OnlyAppend(kind, a, b[..|b| - 1]);
    }
  }

  predicate AllAre(kind: Action -> bool, actions: seq<Action>) {
    forall k :: 0 <= k < |actions| ==> kind(actions[k])
  }

  predicate NoneAre(kind: Action -> bool, actions: seq<Action>) {
    forall k :: 0 <= k < |actions| ==> !kind(actions[k])
  }

  lemma {:induction false} OnlyOf(kind: Action -> bool, actions: seq<Action>)
    ensures AllAre(kind, actions) ==> Only(kind, actions) == actions
    ensures NoneAre(kind, actions) ==> Only(kind, actions) == []
  {
    if actions != [] {
      OnlyOf(kind, actions[..|actions| - 1]);
    }
  }

  lemma ThenAll(kind: Action -> bool, a: seq<Action>, b: seq<Action>, kept: seq<Action>)
    requires Only(kind, a) == kept && AllAre(kind, b)
    ensures Only(kind, a + b) == kept + b
  {
    OnlyAppend(kind, a, b);
    OnlyOf(kind, b);
  }

  lemma ThenNone(kind: Action -> bool, a: seq<Action>, b: seq<Action>, kept: seq<Action>)
    requires Only(kind, a) == kept && NoneAre(kind, b)
    ensures Only(kind, a + b) == kept
  {
    OnlyAppend(kind, a, b);
    OnlyOf(kind, b);
  }

  predicate IsWork(action: Action) {
    action.Work?
  }

  /** Calls of the tracker only. */
  lemma Called(a: seq<Action>, calls: seq<Action>)
    requires AllAre(IsTracked, calls)
    ensures Only(IsWork, a + calls) == Only(IsWork, a)
    ensures Only(IsTracked, a + calls) == Only(IsTracked, a) + calls
  {
    ThenNone(IsWork, a, calls, Only(IsWork, a));
    ThenAll(IsTracked, a, calls, Only(IsTracked, a));
  }

  lemma Worked(a: seq<Action>, work: seq<Action>)
    requires AllAre(IsWork, work)
    ensures Only(IsWork, a + work) == Only(IsWork, a) + work
    ensures Only(IsTracked, a + work) == Only(IsTracked, a)
  {
    ThenAll(IsWork, a, work, Only(IsWork, a));
    ThenNone(IsTracked, a, work, Only(IsTracked, a));
  }

  /** Reporting a phase and opening its step. */
  lemma Begun(a: seq<Action>, w: World, phase: RunStatus.Status, name: string, caption: string, status: string)
    ensures Only(IsWork, a + (Phase(w, phase) + Opening(name, caption, status))) == Only(IsWork, a) + Phase(w, phase)
    ensures Only(IsTracked, a + (Phase(w, phase) + Opening(name, caption, status))) ==
            Only(IsTracked, a) + Opening(name, caption, status)
  {
    Worked(a, Phase(w, phase));
    Called(a + Phase(w, phase), Opening(name, caption, status));
    Associate(a, Phase(w, phase), Opening(name, caption, status));
  }

  lemma Offered(a: seq<Action>, offers: seq<Action>)
    requires forall k :: 0 <= k < |offers| ==> offers[k].Offer?
    ensures Only(IsWork, a + offers) == Only(IsWork, a) && Only(IsTracked, a + offers) == Only(IsTracked, a)
  {
    ThenNone(IsWork, a, offers, Only(IsWork, a));
    ThenNone(IsTracked, a, offers, Only(IsTracked, a));
  }

  lemma CompiledDoes(w: World, n: nat)
    ensures var actions := CompileBegins(w) + CompileEnds(w, n) + Times(w.charts, Chart) + Deltas(w);
            && Only(IsWork, actions) == Phase(w, RunStatus.Compiling)
            && Only(IsTracked, actions) == Opening(COMPILE, "Compiling", "Compiling figures") + CompileEnds(w, n)
  {
    var begun := CompileBegins(w);
    Begun([], w, RunStatus.Compiling, COMPILE, "Compiling", "Compiling figures");
    assert [] + begun == begun;
    Called(begun, CompileEnds(w, n));
    Offered(begun + CompileEnds(w, n), Times(w.charts, Chart));
    Offered(begun + CompileEnds(w, n) + Times(w.charts, Chart), Deltas(w));
  }

  lemma DraftedDoes(w: World, n: nat)
    ensures Only(IsWork, Drafted(w, n)) ==
            Phase(w, RunStatus.Compiling) + Phase(w, RunStatus.Rendering) + Phase(w, RunStatus.Verifying)
    ensures Only(IsTracked, Drafted(w, n)) ==
            Opening(COMPILE, "Compiling", "Compiling figures") + CompileEnds(w, n)
            + Opening(RENDER, "Rendering", "Emitting the document") + RenderEnds(n)
            + Opening(VERIFY, "Verifying", "Checking every figure")
  {
    var told := CompileBegins(w) + CompileEnds(w, n) + Times(w.charts, Chart) + Deltas(w);
    CompiledDoes(w, n);
    Begun(told, w, RunStatus.Rendering, RENDER, "Rendering", "Emitting the document");
    Called(told + RenderBegins(w), RenderEnds(n));
    Begun(told + RenderBegins(w) + RenderEnds(n), w, RunStatus.Verifying, VERIFY, "Verifying", "Checking every figure");
  }

  lemma GatedDoes(w: World, n: nat)
    ensures Only(IsWork, Gated(w, n)) == Only(IsWork, Drafted(w, n)) + WRITE_RESULT + Recording(w)
    ensures Only(IsTracked, Gated(w, n)) == Only(IsTracked, Drafted(w, n)) + VerifyEnds(n)
  {
    var told := [Offer(Verification(w.result.pass))];
    var checked := Drafted(w, n) + VerifyEnds(n);
    Called(Drafted(w, n), VerifyEnds(n));
    Worked(checked, WRITE_RESULT);
    Worked(checked + WRITE_RESULT, Recording(w));
    Offered(checked + WRITE_RESULT + Recording(w), told);
    Associate(checked + WRITE_RESULT, Recording(w), told);
  }

  lemma UploadedDoes(w: World, n: nat)
    ensures Only(IsWork, Delivered(w, n)) == Only(IsWork, Gated(w, n)) + WRITE_REPORT + Diagnosing(w)
    ensures Only(IsTracked, Delivered(w, n)) ==
            Only(IsTracked, Gated(w, n)) + UploadBegins() + Closing(GeneratedId(UPLOAD, n + 4))
  {
    var begun := Gated(w, n) + UploadBegins();
    var written := begun + WRITE_REPORT + Diagnosing(w);
    var closing := Closing(GeneratedId(UPLOAD, n + 4));
    Called(Gated(w, n), UploadBegins());
    Worked(begun, WRITE_REPORT);
    Worked(begun + WRITE_REPORT, Diagnosing(w));
    Called(written, closing);
    Offered(written + closing, ReportFiles(w.artifacts));
    Associate(written, closing, ReportFiles(w.artifacts));
  }

  /** All that a reported document run does unseen when it ends well, in this order. */
  lemma DeliveredWorks(w: World, n: nat)
    requires w.reporting && PhasesScript(w, n).ending.None?
    ensures Only(IsWork, PhasesScript(w, n).actions) ==
            [Work(ReportPhase(RunStatus.Compiling)), Work(ReportPhase(RunStatus.Rendering)),
             Work(ReportPhase(RunStatus.Verifying))]
            + [Work(WriteVerificationResult), Work(RecordVerification), Work(WriteReportArtifacts)]
            + (if w.styled && (exists k :: 0 <= k < |w.result.findings| &&
                                           w.result.findings[k].kind == StyledPdfFigureMissing)
               then [Work(WriteStyledDiagnostics)] else [])
  {
    ScriptBegins(w, n);
    DraftedDoes(w, n);
    GatedDoes(w, n);
    UploadedDoes(w, n);
    SixWorks(ReportPhase(RunStatus.Compiling), ReportPhase(RunStatus.Rendering), ReportPhase(RunStatus.Verifying),
             WriteVerificationResult, RecordVerification, WriteReportArtifacts, Diagnosing(w));
  }

  lemma SixWorks(a: Effect, b: Effect, c: Effect, d: Effect, e: Effect, f: Effect, rest: seq<Action>)
    ensures [Work(a)] + [Work(b)] + [Work(c)] + [Work(d)] + [Work(e)] + [Work(f)] + rest ==
            [Work(a), Work(b), Work(c)] + [Work(d), Work(e), Work(f)] + rest
  {
  }

  /** The steps of its timeline: four, each opened once and closed once before the next, the blocks
      counted while the first is open. */
  lemma DeliveredSteps(w: World, n: nat)
    requires PhasesScript(w, n).ending.None?
    ensures var first := GeneratedId("compile_figures", n + 1);
            Only(IsTracked, PhasesScript(w, n).actions) ==
            [StartStep("compile_figures", "Compiling", "Compiling figures", None, false)]
            + ((if w.blockCount > 0 then [CountStep(first, w.blockCount, w.blockCount, "blocks", None, false)] else [])
               + [EndStep(first, false)])
            + [StartStep("render_document", "Rendering", "Emitting the document", None, false)]
            + [EndStep(GeneratedId("render_document", n + 2), false)]
            + [StartStep("verify_document", "Verifying", "Checking every figure", None, false)]
            + [EndStep(GeneratedId("verify_document", n + 3), false)]
            + [StartStep("upload_artifact", "Storing", "Writing the report", None, false)]
            + [EndStep(GeneratedId("upload_artifact", n + 4), false)]
  {
    ScriptBegins(w, n);
    DraftedDoes(w, n);
    GatedDoes(w, n);
    UploadedDoes(w, n);
  }
}
