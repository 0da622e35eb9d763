/** The document phases: compile, render, verify, record, gate, upload.

    Models `_document_phases`, `_terminal_for` and `_styled_findings`
    (agent/src/reporting_agent/report_pipeline.py), and feeds them to the router. Compiling,
    rendering, converting, the gates and the store are arbitrary results. */
module DocumentPhases {
  import opened Options
  import opened Errors
  import opened Events
  import opened StepTracker
  import opened Invocation
  import RunStatus

  // --- what the phases work on ---

  datatype FindingKind = ReplayHashMismatch | StyledPdfFigureMissing | OtherFinding(name: string)

  datatype Finding = Finding(kind: FindingKind, blocking: bool)

  datatype Verified = Verified(pass: bool, findings: seq<Finding>)

  /** What the outside world answers. A hazard is what a call raises, if it does. */
  datatype World = World(
    reporting: bool, blockCount: nat, charts: nat, deltas: nat, styled: bool, result: Verified,
    artifacts: seq<string>,
    compile: Option<Failure>, chartEvents: Option<Failure>, deltaEvents: Option<Failure>,
    render: Option<Failure>, convert: Option<Failure>, tableOfContents: Option<Failure>, styledText: Option<Failure>,
    verify: Option<Failure>, writeResult: Option<Failure>, pointer: Option<Failure>,
    assemble: Option<Failure>, writeReport: Option<Failure>, writeDiagnostics: Option<Failure>)

  /** The kinds of the blocking findings. */
  function BlockingKinds(findings: seq<Finding>): set<FindingKind> {
    set k | 0 <= k < |findings| && findings[k].blocking :: findings[k].kind
  }

  function TerminalFor(result: Verified): AgentError {
    if BlockingKinds(result.findings) == {ReplayHashMismatch} then RawError(ReplayMismatch, true)
    else RawError(VerificationFailed, true)
  }

  predicate HasStyledFinding(result: Verified) {
    exists k :: 0 <= k < |result.findings| && result.findings[k].kind == StyledPdfFigureMissing
  }

  /** Where the phases leave what they made. */
  class Sink {
    var verification: Option<Verified>
    var artifacts: seq<string>

    constructor ()
      ensures verification == None && artifacts == []
    {
      verification, artifacts := None, [];
    }
  }

  // --- the pieces of the script ---

  function Phase(w: World, phase: RunStatus.Status): seq<Action> {
    if w.reporting then [Work(ReportPhase(phase))] else []
  }

  function Opening(name: string, caption: string, status: string): seq<Action> {
    [StartStep(name, caption, status, None, false)]
  }

  function Counting(id: string, count: nat): seq<Action> {
    if count > 0 then [CountStep(id, count, count, "blocks", None, false)] else []
  }

  function Closing(id: string): seq<Action> {
    [EndStep(id, false)]
  }

  function Times(n: nat, e: Offered): (r: seq<Action>)
    ensures |r| == n && forall k :: 0 <= k < n ==> r[k] == Offer(e)
  {
    seq(n, i => Offer(e))
  }

  function Recording(w: World): seq<Action> {
    if w.reporting then [Work(RecordVerification)] else []
  }

  function Diagnosing(w: World): seq<Action> {
    if w.styled && HasStyledFinding(w.result) then [Work(WriteStyledDiagnostics)] else []
  }

  function ReportFiles(artifacts: seq<string>): (r: seq<Action>)
    ensures |r| == |artifacts| && forall k :: 0 <= k < |r| ==> r[k] == Offer(ReportFile(artifacts[k]))
  {
    seq(|artifacts|, i requires 0 <= i < |artifacts| => Offer(ReportFile(artifacts[i])))
  }

  const COMPILE: string := "compile_figures"
  const RENDER: string := "render_document"
  const VERIFY: string := "verify_document"
  const UPLOAD: string := "upload_artifact"

  /** Each phase up to the call it is there for, and from that call's return on. `n` is the
      tracker's sequence when the phases begin. */
  function CompileBegins(w: World): seq<Action> {
    Phase(w, RunStatus.Compiling) + Opening(COMPILE, "Compiling", "Compiling figures")
  }

  function CompileEnds(w: World, n: nat): seq<Action> {
    Counting(GeneratedId(COMPILE, n + 1), w.blockCount) + Closing(GeneratedId(COMPILE, n + 1))
  }

  function Deltas(w: World): seq<Action> {
    Times(w.deltas, Delta)
  }

  function RenderBegins(w: World): seq<Action> {
    Phase(w, RunStatus.Rendering) + Opening(RENDER, "Rendering", "Emitting the document")
  }

  function RenderEnds(n: nat): seq<Action> {
    Closing(GeneratedId(RENDER, n + 2))
  }

  function VerifyBegins(w: World): seq<Action> {
    Phase(w, RunStatus.Verifying) + Opening(VERIFY, "Verifying", "Checking every figure")
  }

  function VerifyEnds(n: nat): seq<Action> {
    Closing(GeneratedId(VERIFY, n + 3))
  }

  const WRITE_RESULT: seq<Action> := [Work(WriteVerificationResult)]
  const WRITE_REPORT: seq<Action> := [Work(WriteReportArtifacts)]

  function Recorded(w: World): seq<Action> {
    Recording(w) + [Offer(Verification(w.result.pass))]
  }

  function UploadBegins(): seq<Action> {
    Opening(UPLOAD, "Storing", "Writing the report")
  }

  function UploadEnds(w: World, n: nat): seq<Action> {
    Closing(GeneratedId(UPLOAD, n + 4)) + ReportFiles(w.artifacts)
  }

  /** What the rendering calls raise, in their order. */
  function RenderHazard(w: World): Option<Failure> {
    if w.render.Some? then w.render else if w.convert.Some? then w.convert else w.tableOfContents
  }

  // --- the script as a whole ---

  /** Up to the call that verifies. */
  function Drafted(w: World, n: nat): seq<Action> {
    CompileBegins(w) + CompileEnds(w, n) + Times(w.charts, Chart) + Deltas(w) + RenderBegins(w) + RenderEnds(n) +
    VerifyBegins(w)
  }

  /** Up to the gate. */
  function Gated(w: World, n: nat): seq<Action> {
    Drafted(w, n) + VerifyEnds(n) + WRITE_RESULT + Recorded(w)
  }

  /** All of it. */
  function Delivered(w: World, n: nat): seq<Action> {
    Gated(w, n) + UploadBegins() + WRITE_REPORT + Diagnosing(w) + UploadEnds(w, n)
  }

  /** What is done up to the first call that raises, and what it raises. */
  function PhasesScript(w: World, n: nat): Script {
    var compiled := CompileBegins(w) + CompileEnds(w, n);
    var told := compiled + Times(w.charts, Chart);
    var drawn := told + Deltas(w) + RenderBegins(w);
    if w.compile.Some? then Script(CompileBegins(w), w.compile)
    else if w.chartEvents.Some? then Script(compiled, w.chartEvents)
    else if w.deltaEvents.Some? then Script(told, w.deltaEvents)
    else if RenderHazard(w).Some? then Script(drawn, RenderHazard(w))
    else if w.styledText.Some? then Script(drawn + RenderEnds(n), w.styledText)
    else if w.verify.Some? then Script(Drafted(w, n), w.verify)
    else RecordScript(w, n)
  }

  /** The same from the verification's result on. */
  function RecordScript(w: World, n: nat): Script {
    var written := Drafted(w, n) + VerifyEnds(n) + WRITE_RESULT;
    if w.writeResult.Some? then Script(written, w.writeResult)
    else if w.reporting && w.pointer.Some? then Script(written, w.pointer)
    else if !w.result.pass then Script(Gated(w, n), Some(Raised(TerminalFor(w.result))))
    else UploadScript(w, n)
  }

  /** The same from the pass on. */
  function UploadScript(w: World, n: nat): Script {
    var begun := Gated(w, n) + UploadBegins();
    if w.assemble.Some? then Script(begun, w.assemble)
    else if w.writeReport.Some? then Script(begun + WRITE_REPORT, w.writeReport)
    else if Diagnosing(w) != [] && w.writeDiagnostics.Some? then
      Script(begun + WRITE_REPORT + Diagnosing(w), w.writeDiagnostics)
    else Script(Delivered(w, n), None)
  }

  /** The verification has a result. */
  predicate Verifies(w: World) {
    && w.compile.None? && w.chartEvents.None? && w.deltaEvents.None? && RenderHazard(w).None?
    && w.styledText.None? && w.verify.None?
  }

  /** The verification is announced. */
  predicate Announces(w: World) {
    w.writeResult.None? && (w.reporting ==> w.pointer.None?)
  }

  /** The report is stored. */
  predicate Stores(w: World) {
    Announces(w) && w.result.pass && w.assemble.None? && w.writeReport.None?
  }

  /** `_document_phases`, phase by phase. */
  method DocumentPhases(w: World, n: nat, sink: Sink) returns (script: Script)
    modifies sink
    ensures script == PhasesScript(w, n)
    ensures sink.verification == if Verifies(w) then Some(w.result) else old(sink.verification)
    ensures sink.artifacts == if Verifies(w) && Stores(w) then w.artifacts else old(sink.artifacts)
  {
    var actions := CompileBegins(w);
    if w.compile.Some? {
      return Script(actions, w.compile);
    }
    actions := actions + CompileEnds(w, n);
    if w.chartEvents.Some? {
      return Script(actions, w.chartEvents);
    }
    actions := actions + Times(w.charts, Chart);
    if w.deltaEvents.Some? {
      return Script(actions, w.deltaEvents);
    }
    actions := actions + Deltas(w);
    actions := actions + RenderBegins(w);
    if w.render.Some? {
      return Script(actions, w.render);
    }
    if w.convert.Some? {
      return Script(actions, w.convert);
    }
    if w.tableOfContents.Some? {
      return Script(actions, w.tableOfContents);
    }
    actions := actions + RenderEnds(n);
    if w.styledText.Some? {
      return Script(actions, w.styledText);
    }
    actions := actions + VerifyBegins(w);
    if w.verify.Some? {
      return Script(actions, w.verify);
    }
    sink.verification := Some(w.result);
    script := Record(w, n, actions, sink);
  }

  /** Recording the verification, the gate and the upload. */
  method Record(w: World, n: nat, before: seq<Action>, sink: Sink) returns (script: Script)
    requires before == Drafted(w, n)
    modifies sink
    ensures script == RecordScript(w, n) && sink.verification == old(sink.verification)
    ensures sink.artifacts == if Stores(w) then w.artifacts else old(sink.artifacts)
  {
    var actions := before + VerifyEnds(n);
    actions := actions + WRITE_RESULT;
    if w.writeResult.Some? {
      return Script(actions, w.writeResult);
    }
    if w.reporting && w.pointer.Some? {
      return Script(actions, w.pointer);
    }
    actions := actions + Recorded(w);
    if !w.result.pass {
      return Script(actions, Some(Raised(TerminalFor(w.result))));
    }
    actions := actions + UploadBegins();
    if w.assemble.Some? {
      return Script(actions, w.assemble);
    }
    actions := actions + WRITE_REPORT;
    if w.writeReport.Some? {
      return Script(actions, w.writeReport);
    }
    sink.artifacts := w.artifacts;
    actions := actions + Diagnosing(w);
    if w.styled && HasStyledFinding(w.result) && w.writeDiagnostics.Some? {
      return Script(actions, w.writeDiagnostics);
    }
    actions := actions + UploadEnds(w, n);
    script := Script(actions, None);
  }

  // --- which failure ends the phases ---

  /** What the calls raise, in program order; the gate counts as the call that raises for a
      verification that did not pass. */
  function Calls(w: World): (calls: seq<Option<Failure>>)
    ensures |calls| == 14
  {
    [w.compile, w.chartEvents, w.deltaEvents, w.render, w.convert, w.tableOfContents, w.styledText] +
    [w.verify, w.writeResult, if w.reporting then w.pointer else None,
     if w.result.pass then None else Some(Raised(TerminalFor(w.result))), w.assemble, w.writeReport,
     if w.styled && HasStyledFinding(w.result) then w.writeDiagnostics else None]
  }

  predicate IsFirst(calls: seq<Option<Failure>>, k: nat)
    requires k < |calls|
  {
    calls[k].Some? && forall j :: 0 <= j < k ==> calls[j].None?
  }

  lemma CallsInOrder(w: World)
    ensures var calls := Calls(w);
            && calls[0] == w.compile && calls[1] == w.chartEvents && calls[2] == w.deltaEvents
            && calls[3] == w.render && calls[4] == w.convert && calls[5] == w.tableOfContents
            && calls[6] == w.styledText && calls[7] == w.verify && calls[8] == w.writeResult
            && calls[9] == (if w.reporting then w.pointer else None)
            && calls[10] == (if w.result.pass then None else Some(Raised(TerminalFor(w.result))))
            && calls[11] == w.assemble && calls[12] == w.writeReport
            && calls[13] == (if w.styled && HasStyledFinding(w.result) then w.writeDiagnostics else None)
  {
  }

  /** The phases end well exactly when no call raises and the gate passes. */
  lemma EndsWellExactlyWhen(w: World, n: nat)
    ensures PhasesScript(w, n).ending.None? <==> forall k :: 0 <= k < 14 ==> Calls(w)[k].None?
  {
    CallsInOrder(w);
  }

  /** Otherwise they end with the first failure in program order. */
  lemma EndsWithTheFirstFailure(w: World, n: nat, k: nat)
    requires k < 14 && IsFirst(Calls(w), k)
    ensures PhasesScript(w, n).ending == Calls(w)[k]
  {
    CallsInOrder(w);
  }

  // --- a script is a beginning of what would be done ---

  lemma Begins(a: seq<Action>, b: seq<Action>)
    ensures a <= a + b
  {
  }

  lemma DraftedBegins(w: World, n: nat)
    ensures var compiled := CompileBegins(w) + CompileEnds(w, n);
            var told := compiled + Times(w.charts, Chart);
            var drawn := told + Deltas(w) + RenderBegins(w);
            && CompileBegins(w) <= compiled <= told <= drawn <= drawn + RenderEnds(n) <= Drafted(w, n)
  {
    var compiled := CompileBegins(w) + CompileEnds(w, n);
    var told := compiled + Times(w.charts, Chart);
    Begins(CompileBegins(w), CompileEnds(w, n));
    Begins(compiled, Times(w.charts, Chart));
    Begins(told, Deltas(w));
    Begins(told + Deltas(w), RenderBegins(w));
    Begins(told + Deltas(w) + RenderBegins(w), RenderEnds(n));
    Begins(told + Deltas(w) + RenderBegins(w) + RenderEnds(n), VerifyBegins(w));
  }

  lemma GatedBegins(w: World, n: nat)
    ensures Drafted(w, n) <= Drafted(w, n) + VerifyEnds(n) + WRITE_RESULT <= Gated(w, n)
  {
    Begins(Drafted(w, n), VerifyEnds(n));
    Begins(Drafted(w, n) + VerifyEnds(n), WRITE_RESULT);
    Begins(Drafted(w, n) + VerifyEnds(n) + WRITE_RESULT, Recorded(w));
  }

  lemma DeliveredBegins(w: World, n: nat)
    ensures var begun := Gated(w, n) + UploadBegins();
            && Gated(w, n) <= begun <= begun + WRITE_REPORT <= begun + WRITE_REPORT + Diagnosing(w)
            && begun + WRITE_REPORT + Diagnosing(w) <= Delivered(w, n)
  {
    var begun := Gated(w, n) + UploadBegins();
    Begins(Gated(w, n), UploadBegins());
    Begins(begun, WRITE_REPORT);
    Begins(begun + WRITE_REPORT, Diagnosing(w));
    Begins(begun + WRITE_REPORT + Diagnosing(w), UploadEnds(w, n));
  }

  lemma Transitive(a: seq<Action>, b: seq<Action>, c: seq<Action>)
    requires a <= b <= c
    ensures a <= c
  {
  }

  /** Nothing behind the gate is done without a pass, and all is done when nothing raises. */
  lemma ScriptBegins(w: World, n: nat)
    ensures PhasesScript(w, n).actions <= Delivered(w, n)
    ensures !w.result.pass ==> PhasesScript(w, n).actions <= Gated(w, n) && PhasesScript(w, n).ending.Some?
    ensures PhasesScript(w, n).ending.None? ==> PhasesScript(w, n).actions == Delivered(w, n)
  {
    var actions := PhasesScript(w, n).actions;
    DraftedBegins(w, n);
    GatedBegins(w, n);
    DeliveredBegins(w, n);
    Transitive(Gated(w, n), Gated(w, n) + UploadBegins(), Delivered(w, n));
    if !Verifies(w) {
      Transitive(actions, Drafted(w, n), Gated(w, n));
      Transitive(actions, Gated(w, n), Delivered(w, n));
    }
  }

  // --- the phases run through the router unhindered ---

  lemma {:induction false} HandleAppend(r: Router, a: seq<Action>, b: seq<Action>, ending: Option<Failure>)
    ensures var turn := Handle(r, a, None);
            Handle(r, a + b, ending) == if turn.failure.Some? then turn else Handle(turn.router, b, ending)
    decreases |a|
  {
    if a == [] {
      assert a + b == b;
    } else {
      assert (a + b)[1..] == a[1..] + b;
      var turn := Take(r, a[0]);
      if turn.failure.None? {
        HandleAppend(turn.router, a[1..], b, ending);
      }
    }
  }

  /** The state between two phases: all ids are generated ones and the gate's memory is as
      given. */
  ghost predicate At(r: Router, n: nat, seen: bool, passed: bool) {
    OnlyGenerated(r.tracker) && r.tracker.sequence == n && r.seenVerification == seen && r.passed == passed
  }

  /** The state inside a phase: its step is open and uncounted. */
  ghost predicate Inside(r: Router, n: nat, seen: bool, passed: bool, id: string) {
    && At(r, n, seen, passed)
    && IsOpen(r.tracker, id) && r.tracker.open[Find(r.tracker.open, id)].lastDone == None
  }

  /** Actions that run through without a failure from a state to a state. */
  ghost predicate Leads(r: Router, actions: seq<Action>, after: Router) {
    Handle(r, actions, None) == Turn(after, None)
  }

  lemma LeadsOn(r: Router, a: seq<Action>, middle: Router, b: seq<Action>, after: Router)
    requires Leads(r, a, middle) && Leads(middle, b, after)
    ensures Leads(r, a + b, after)
  {
    HandleAppend(r, a, b, None);
  }

  lemma LeadsThrough(r: Router, a: seq<Action>, ra: Router, b: seq<Action>, rb: Router, c: seq<Action>, rc: Router,
                     d: seq<Action>, rd: Router)
    requires Leads(r, a, ra) && Leads(ra, b, rb) && Leads(rb, c, rc) && Leads(rc, d, rd)
    ensures Leads(r, a + b + c + d, rd)
  {
    LeadsOn(r, a, ra, b, rb);
    LeadsOn(r, a + b, rb, c, rc);
    LeadsOn(r, a + b + c, rc, d, rd);
  }

  /** A phase that is announced and opened. */
  lemma PhaseBegins(r: Router, work: seq<Action>, name: string, caption: string, status: string,
                    n: nat, seen: bool, passed: bool)
    returns (after: Router)
    requires At(r, n, seen, passed) && IsText(name) && IsText(caption) && IsText(status)
    requires |work| <= 1 && forall k :: 0 <= k < |work| ==> work[k].Work?
    ensures Leads(r, work + Opening(name, caption, status), after)
    ensures Inside(after, n + 1, seen, passed, GeneratedId(name, n + 1))
  {
    GeneratedStartsAreFresh(r.tracker, name, caption, status);
    var turn := Take(r, Opening(name, caption, status)[0]);
    after := turn.router;
    NewStepIsFound(r.tracker, after.tracker, GeneratedId(name, n + 1));
    assert Opening(name, caption, status)[1..] == [];
    assert Leads(r, Opening(name, caption, status), after);
    WorkIsSilent(r, work);
    LeadsOn(r, work, r, Opening(name, caption, status), after);
  }

  lemma NewStepIsFound(t: Tracker, after: Tracker, id: string)
    requires |after.open| == |t.open| + 1 && after.open[..|t.open|] == t.open
    requires !IsOpen(t, id) && after.open[|t.open|].id == id && after.open[|t.open|].lastDone == None
    ensures IsOpen(after, id) && after.open[Find(after.open, id)].lastDone == None
  {
    FindAppend(t.open, after.open[|t.open|], id);
    assert after.open == t.open + [after.open[|t.open|]];
  }

  lemma WorkIsSilent(r: Router, work: seq<Action>)
    requires |work| <= 1 && forall k :: 0 <= k < |work| ==> work[k].Work?
    ensures Leads(r, work, r)
  {
    if work != [] {
      assert work[1..] == [];
    }
  }

  lemma CountRuns(r: Router, id: string, count: nat, n: nat, seen: bool, passed: bool) returns (after: Router)
    requires Inside(r, n, seen, passed, id)
    ensures Leads(r, Counting(id, count), after)
    ensures At(after, n, seen, passed) && IsOpen(after.tracker, id)
  {
    after := r;
    if count > 0 {
      assert IsText("blocks") by {
        assert "blocks"[0] == 'b';
      }
      after := Take(r, Counting(id, count)[0]).router;
      assert Counting(id, count)[1..] == [];
      FindUpdate(r.tracker.open, Find(r.tracker.open, id), Some(count), id);
      assert forall k :: 0 <= k < |r.tracker.open| ==> after.tracker.open[k].id == r.tracker.open[k].id;
    }
  }

  lemma EndRuns(r: Router, id: string, n: nat, seen: bool, passed: bool) returns (after: Router)
    requires At(r, n, seen, passed) && IsOpen(r.tracker, id)
    ensures Leads(r, Closing(id), after)
    ensures At(after, n, seen, passed)
  {
    after := Take(r, Closing(id)[0]).router;
    assert Closing(id)[1..] == [];
    var k := Find(r.tracker.open, id);
    assert WasGenerated(r.tracker.open[k].id, n);
    assert forall j :: 0 <= j < |after.tracker.open| ==>
      after.tracker.open[j] == r.tracker.open[if j < k then j else j + 1];
  }

  predicate MayPass(action: Action, passed: bool) {
    action.Offer? && (action.event.Delta? || action.event.Chart? || (passed && action.event.ReportFile?))
  }

  /** Events the gate does not care about, and files after a pass. */
  lemma {:induction false} OffersRun(r: Router, offers: seq<Action>, n: nat, seen: bool, passed: bool)
    returns (after: Router)
    requires At(r, n, seen, passed)
    requires forall k :: 0 <= k < |offers| ==> MayPass(offers[k], passed)
    ensures Leads(r, offers, after)
    ensures At(after, n, seen, passed)
    ensures |after.sent| == |r.sent| + |offers| && after.sent[..|r.sent|] == r.sent
    ensures forall k :: 0 <= k < |offers| ==> offers[k].Offer? && after.sent[|r.sent| + k] == offers[k].event
    decreases |offers|
  {
    after := r;
    if offers != [] {
      var first := Take(r, offers[0]).router;
      after := OffersRun(first, offers[1..], n, seen, passed);
      assert after.sent[..|r.sent|] == after.sent[..|first.sent|][..|r.sent|];
      assert forall k :: 0 < k < |offers| ==> offers[k] == offers[1..][k - 1];
      assert after.sent[|r.sent|] == after.sent[..|first.sent|][|r.sent|];
    }
  }

  lemma NamesAreText()
    ensures IsText(COMPILE) && IsText("Compiling") && IsText("Compiling figures")
    ensures IsText(RENDER) && IsText("Rendering") && IsText("Emitting the document")
    ensures IsText(VERIFY) && IsText("Verifying") && IsText("Checking every figure")
    ensures IsText(UPLOAD) && IsText("Storing") && IsText("Writing the report")
  {
    StartsWithLetter(COMPILE);
    StartsWithLetter("Compiling");
    StartsWithLetter("Compiling figures");
    StartsWithLetter(RENDER);
    StartsWithLetter("Rendering");
    StartsWithLetter("Emitting the document");
    StartsWithLetter(VERIFY);
    StartsWithLetter("Verifying");
    StartsWithLetter("Checking every figure");
    StartsWithLetter(UPLOAD);
    StartsWithLetter("Storing");
    StartsWithLetter("Writing the report");
  }

  lemma StartsWithLetter(s: string)
    requires s != "" && 'A' <= s[0] <= 'z'
    ensures IsText(s)
  {
  }

  /** The stream ends with one `report_file` per artifact, in their order. */
  predicate FilesAtEnd(sent: seq<Event>, artifacts: seq<string>) {
    && |artifacts| <= |sent|
    && forall k :: 0 <= k < |artifacts| ==> sent[|sent| - |artifacts| + k] == ReportFile(artifacts[k])
  }

  lemma UploadCloses(r: Router, w: World, n: nat) returns (after: Router)
    requires Inside(r, n + 4, true, true, GeneratedId(UPLOAD, n + 4))
    ensures Leads(r, UploadEnds(w, n), after)
    ensures At(after, n + 4, true, true)
    ensures FilesAtEnd(after.sent, w.artifacts)
  {
    var id := GeneratedId(UPLOAD, n + 4);
    var files := ReportFiles(w.artifacts);
    var ended := EndRuns(r, id, n + 4, true, true);
    after := OffersRun(ended, files, n + 4, true, true);
    LeadsOn(r, Closing(id), ended, files, after);
    forall k | 0 <= k < |w.artifacts|
      ensures after.sent[|after.sent| - |w.artifacts| + k] == ReportFile(w.artifacts[k])
    {
      assert files[k] == Offer(ReportFile(w.artifacts[k]));
      assert after.sent[|ended.sent| + k] == files[k].event;
    }
  }

  lemma EndsWith(r: Router, actions: seq<Action>, after: Router, ending: Option<Failure>)
    requires Leads(r, actions, after)
    ensures Handle(r, actions, ending) == Turn(after, ending)
  {
    HandleAppend(r, actions, [], ending);
    assert actions + [] == actions;
  }

  /** What leads somewhere leads somewhere at every point before. */
  lemma LeadsPrefix(r: Router, a: seq<Action>, b: seq<Action>, after: Router) returns (middle: Router)
    requires Leads(r, a + b, after)
    ensures Leads(r, a, middle)
  {
    HandleAppend(r, a, b, None);
    middle := Handle(r, a, None).router;
  }

  lemma DraftedRuns(r: Router, w: World, n: nat) returns (after: Router)
    requires At(r, n, false, false)
    ensures Leads(r, Drafted(w, n), after) && Inside(after, n + 3, false, false, GeneratedId(VERIFY, n + 3))
  {
    NamesAreText();
    var told := ToldRuns(r, w, n);
    var compiled := CompileBegins(w) + CompileEnds(w, n) + Times(w.charts, Chart) + Deltas(w);
    var drawn := PhaseBegins(told, Phase(w, RunStatus.Rendering), RENDER, "Rendering", "Emitting the document",
                             n + 1, false, false);
    var rendered := EndRuns(drawn, GeneratedId(RENDER, n + 2), n + 2, false, false);
    after := PhaseBegins(rendered, Phase(w, RunStatus.Verifying), VERIFY, "Verifying", "Checking every figure",
                         n + 2, false, false);
    LeadsThrough(r, compiled, told, RenderBegins(w), drawn, RenderEnds(n), rendered, VerifyBegins(w), after);
  }

  lemma ToldRuns(r: Router, w: World, n: nat) returns (after: Router)
    requires At(r, n, false, false)
    ensures Leads(r, CompileBegins(w) + CompileEnds(w, n) + Times(w.charts, Chart) + Deltas(w), after)
    ensures At(after, n + 1, false, false)
  {
    var begun := CompileOpens(r, w, n);
    var ended := CompileCloses(begun, w, n);
    var charted := OffersRun(ended, Times(w.charts, Chart), n + 1, false, false);
    after := OffersRun(charted, Deltas(w), n + 1, false, false);
    LeadsThrough(r, CompileBegins(w), begun, CompileEnds(w, n), ended, Times(w.charts, Chart), charted,
                 Deltas(w), after);
  }

  lemma CompileOpens(r: Router, w: World, n: nat) returns (after: Router)
    requires At(r, n, false, false)
    ensures Leads(r, CompileBegins(w), after) && Inside(after, n + 1, false, false, GeneratedId(COMPILE, n + 1))
  {
    NamesAreText();
    after := PhaseBegins(r, Phase(w, RunStatus.Compiling), COMPILE, "Compiling", "Compiling figures", n, false, false);
  }

  lemma CompileCloses(r: Router, w: World, n: nat) returns (after: Router)
    requires Inside(r, n + 1, false, false, GeneratedId(COMPILE, n + 1))
    ensures Leads(r, CompileEnds(w, n), after) && At(after, n + 1, false, false)
  {
    var id := GeneratedId(COMPILE, n + 1);
    var counted := CountRuns(r, id, w.blockCount, n + 1, false, false);
    after := EndRuns(counted, id, n + 1, false, false);
    LeadsOn(r, Counting(id, w.blockCount), counted, Closing(id), after);
  }

  lemma GatedRuns(r: Router, w: World, n: nat) returns (after: Router)
    requires At(r, n, false, false)
    ensures Leads(r, Gated(w, n), after) && At(after, n + 3, true, w.result.pass)
  {
    var drafted := DraftedRuns(r, w, n);
    var checked := EndRuns(drafted, GeneratedId(VERIFY, n + 3), n + 3, false, false);
    WorkIsSilent(checked, WRITE_RESULT);
    after := RecordedRuns(checked, w, n + 3);
    LeadsThrough(r, Drafted(w, n), drafted, VerifyEnds(n), checked, WRITE_RESULT, checked, Recorded(w), after);
  }

  lemma RecordedRuns(r: Router, w: World, n: nat) returns (after: Router)
    requires At(r, n, false, false)
    ensures Leads(r, Recorded(w), after) && At(after, n, true, w.result.pass)
  {
    var offer := [Offer(Verification(w.result.pass))];
    WorkIsSilent(r, Recording(w));
    after := Take(r, offer[0]).router;
    assert offer[1..] == [];
    assert Leads(r, offer, after);
    LeadsOn(r, Recording(w), r, offer, after);
  }

  lemma DeliveredRuns(r: Router, w: World, n: nat) returns (after: Router)
    requires At(r, n, false, false) && w.result.pass
    ensures Leads(r, Delivered(w, n), after) && FilesAtEnd(after.sent, w.artifacts) && after.passed
  {
    var gated := GatedRuns(r, w, n);
    var begun := UploadOpens(gated, n);
    WorkIsSilent(begun, WRITE_REPORT);
    WorkIsSilent(begun, Diagnosing(w));
    LeadsThrough(r, Gated(w, n), gated, UploadBegins(), begun, WRITE_REPORT, begun, Diagnosing(w), begun);
    after := UploadCloses(begun, w, n);
    LeadsOn(r, Gated(w, n) + UploadBegins() + WRITE_REPORT + Diagnosing(w), begun, UploadEnds(w, n), after);
  }

  lemma UploadOpens(r: Router, n: nat) returns (after: Router)
    requires At(r, n + 3, true, true)
    ensures Leads(r, UploadBegins(), after) && Inside(after, n + 4, true, true, GeneratedId(UPLOAD, n + 4))
  {
    NamesAreText();
    after := PhaseBegins(r, [], UPLOAD, "Storing", "Writing the report", n + 3, true, true);
    assert [] + UploadBegins() == UploadBegins();
  }

  /** For every answer of the world the phases pass the router's screen: what ends them is what
      they raise themselves. Phases that end well announce every artifact. */
  lemma PhasesPassTheScreen(r: Router, w: World)
    requires At(r, r.tracker.sequence, false, false)
    ensures var script := PhasesScript(w, r.tracker.sequence);
            var turn := Handle(r, script.actions, script.ending);
            && turn.failure == script.ending
            && (script.ending.None? ==> turn.router.passed && FilesAtEnd(turn.router.sent, w.artifacts))
  {
    var n := r.tracker.sequence;
    var script := PhasesScript(w, n);
    ScriptBegins(w, n);
    if w.result.pass {
      var after := DeliveredRuns(r, w, n);
      BeginningPasses(r, script, Delivered(w, n), after);
      EndsWith(r, Delivered(w, n), after, None);
    } else {
      var after := GatedRuns(r, w, n);
      BeginningPasses(r, script, Gated(w, n), after);
    }
  }

  lemma BeginningPasses(r: Router, script: Script, all: seq<Action>, after: Router)
    requires Leads(r, all, after) && script.actions <= all
    ensures Handle(r, script.actions, script.ending).failure == script.ending
  {
    var rest := all[|script.actions|..];
    assert all == script.actions + rest;
    var middle := LeadsPrefix(r, script.actions, rest, after);
    EndsWith(r, script.actions, middle, script.ending);
  }

  // --- what the gate remembers ---

  /** The gate's memory is what the actions offered it. */
  lemma {:induction false} GateRemembers(r: Router, actions: seq<Action>, ending: Option<Failure>)
    requires !r.seenVerification && !r.passed
    ensures Handle(r, actions, ending).router.passed ==> Offer(Verification(true)) in actions
    decreases |actions|
  {
    if actions != [] {
      var turn := Take(r, actions[0]);
      if turn.failure.None? {
        if turn.router.seenVerification {
          assert actions[0] == Offer(Verification(turn.router.passed));
          SeenStays(turn.router, actions[1..], ending);
        } else {
          GateRemembers(turn.router, actions[1..], ending);
        }
      }
    }
  }

  lemma {:induction false} SeenStays(r: Router, actions: seq<Action>, ending: Option<Failure>)
    requires r.seenVerification
    ensures Handle(r, actions, ending).router.passed == r.passed
    decreases |actions|
  {
    if actions != [] {
      var turn := Take(r, actions[0]);
      if turn.failure.None? {
        SeenStays(turn.router, actions[1..], ending);
      }
    }
  }

  // --- write, record, announce, gate, upload: in this order on every path ---

  /** What must have been done before an action. */
  function Needed(w: World, action: Action): set<Action> {
    match action
    case Work(RecordVerification) => {Work(WriteVerificationResult)}
    case Offer(event) =>
      if event.Verification? then
        {Work(WriteVerificationResult)} + if w.reporting then {Work(RecordVerification)} else {}
      else if event.ReportFile? then {Work(WriteReportArtifacts)}
      else {}
    case Work(WriteReportArtifacts) => {Offer(Verification(true))}
    case Work(WriteStyledDiagnostics) => {Work(WriteReportArtifacts)}
    case _ => {}
  }

  ghost predicate InOrder(w: World, actions: seq<Action>) {
    forall k :: 0 <= k < |actions| ==> Prepares(w, actions[..k], actions[k])
  }

  predicate Prepares(w: World, before: seq<Action>, action: Action) {
    forall a :: a in Needed(w, action) ==> a in before
  }

  lemma InOrderAppend(w: World, a: seq<Action>, b: seq<Action>)
    requires InOrder(w, a)
    requires forall k :: 0 <= k < |b| ==> Prepares(w, a + b[..k], b[k])
    ensures InOrder(w, a + b)
  {
    var all := a + b;
    forall k | 0 <= k < |all|
      ensures Prepares(w, all[..k], all[k])
    {
      if k < |a| {
        assert all[..k] == a[..k] && Prepares(w, a[..k], a[k]);
      } else {
        assert all[..k] == a + b[..k - |a|] && all[k] == b[k - |a|];
      }
    }
  }

  predicate Quiet(actions: seq<Action>) {
    forall k :: 0 <= k < |actions| ==> IsQuiet(actions[k])
  }

  predicate IsQuiet(action: Action) {
    match action
    case Work(effect) => effect.ReportPhase?
    case Offer(event) => !event.Verification? && !event.ReportFile?
    case _ => true
  }

  lemma QuietAppend(w: World, a: seq<Action>, b: seq<Action>)
    requires InOrder(w, a) && Quiet(b)
    ensures InOrder(w, a + b)
  {
    forall k | 0 <= k < |b|
      ensures Prepares(w, a + b[..k], b[k])
    {
      assert IsQuiet(b[k]);
    }
    InOrderAppend(w, a, b);
  }

  lemma RecordedInOrder(w: World, before: seq<Action>)
    requires InOrder(w, before) && Work(WriteVerificationResult) in before
    ensures InOrder(w, before + Recorded(w))
  {
    var b := Recorded(w);
    forall k | 0 <= k < |b|
      ensures Prepares(w, before + b[..k], b[k])
    {
      assert Work(WriteVerificationResult) in before + b[..k];
      if w.reporting && k == 1 {
        assert b[..k][0] == Work(RecordVerification);
      }
    }
    InOrderAppend(w, before, b);
  }

  lemma UploadedInOrder(w: World, before: seq<Action>, n: nat)
    requires InOrder(w, before) && Work(WriteReportArtifacts) in before
    ensures InOrder(w, before + UploadEnds(w, n))
  {
    var b := UploadEnds(w, n);
    forall k | 0 <= k < |b|
      ensures Prepares(w, before + b[..k], b[k])
    {
      assert Work(WriteReportArtifacts) in before + b[..k];
    }
    InOrderAppend(w, before, b);
  }

  lemma OneInOrder(w: World, before: seq<Action>, action: Action)
    requires InOrder(w, before) && Prepares(w, before, action)
    ensures InOrder(w, before + [action])
  {
    assert before + [action][..0] == before;
    InOrderAppend(w, before, [action]);
  }

  lemma DraftedIsQuiet(w: World, n: nat)
    ensures Quiet(Drafted(w, n) + VerifyEnds(n))
  {
    assert Quiet(CompileBegins(w)) && Quiet(CompileEnds(w, n)) && Quiet(Deltas(w)) && Quiet(RenderBegins(w));
    assert Quiet(RenderEnds(n)) && Quiet(VerifyBegins(w)) && Quiet(VerifyEnds(n));
    BothQuiet(CompileBegins(w), CompileEnds(w, n));
    BothQuiet(CompileBegins(w) + CompileEnds(w, n), Times(w.charts, Chart));
    var told := CompileBegins(w) + CompileEnds(w, n) + Times(w.charts, Chart);
    BothQuiet(told, Deltas(w));
    BothQuiet(told + Deltas(w), RenderBegins(w));
    BothQuiet(told + Deltas(w) + RenderBegins(w), RenderEnds(n));
    BothQuiet(told + Deltas(w) + RenderBegins(w) + RenderEnds(n), VerifyBegins(w));
    BothQuiet(Drafted(w, n), VerifyEnds(n));
  }

  lemma BothQuiet(a: seq<Action>, b: seq<Action>)
    requires Quiet(a) && Quiet(b)
    ensures Quiet(a + b)
  {
  }

  lemma GatedInOrder(w: World, n: nat)
    ensures InOrder(w, Gated(w, n)) && Offer(Verification(w.result.pass)) in Gated(w, n)
  {
    var checked := Drafted(w, n) + VerifyEnds(n);
    DraftedIsQuiet(w, n);
    assert [] + checked == checked;
    QuietAppend(w, [], checked);
    OneInOrder(w, checked, Work(WriteVerificationResult));
    var written := checked + WRITE_RESULT;
    assert written[|checked|] == Work(WriteVerificationResult);
    RecordedInOrder(w, written);
    assert Gated(w, n)[|Gated(w, n)| - 1] == Offer(Verification(w.result.pass));
  }

  lemma DeliveredInOrder(w: World, n: nat)
    requires w.result.pass
    ensures InOrder(w, Delivered(w, n))
  {
    GatedInOrder(w, n);
    var begun := Gated(w, n) + UploadBegins();
    QuietAppend(w, Gated(w, n), UploadBegins());
    assert Offer(Verification(true)) in begun;
    OneInOrder(w, begun, Work(WriteReportArtifacts));
    var stored := begun + WRITE_REPORT;
    assert stored[|begun|] == Work(WriteReportArtifacts);
    DiagnosedInOrder(w, stored);
    UploadedInOrder(w, stored + Diagnosing(w), n);
  }

  lemma DiagnosedInOrder(w: World, stored: seq<Action>)
    requires InOrder(w, stored) && Work(WriteReportArtifacts) in stored
    ensures InOrder(w, stored + Diagnosing(w)) && Work(WriteReportArtifacts) in stored + Diagnosing(w)
  {
    if Diagnosing(w) == [] {
      assert stored + [] == stored;
    } else {
      OneInOrder(w, stored, Work(WriteStyledDiagnostics));
    }
  }

  lemma InOrderPrefix(w: World, a: seq<Action>, b: seq<Action>)
    requires InOrder(w, b) && a <= b
    ensures InOrder(w, a)
  {
    forall k | 0 <= k < |a|
      ensures Prepares(w, a[..k], a[k])
    {
      assert a[..k] == b[..k] && Prepares(w, b[..k], b[k]);
    }
  }

  /** On every path the stored result precedes its callback and its event, the artifacts are
      written only after a pass was announced, and no file is announced before they are. */
  lemma PhasesInOrder(w: World, n: nat)
    ensures InOrder(w, PhasesScript(w, n).actions)
  {
    ScriptBegins(w, n);
    if w.result.pass {
      DeliveredInOrder(w, n);
      InOrderPrefix(w, PhasesScript(w, n).actions, Delivered(w, n));
    } else {
      GatedInOrder(w, n);
      InOrderPrefix(w, PhasesScript(w, n).actions, Gated(w, n));
    }
  }

  // --- what is reported ---

  /** The phases an action list reports, in order. */
  function ReportedIn(actions: seq<Action>): seq<RunStatus.Status> {
    if actions == [] then []
    else (if actions[0].Work? && actions[0].effect.ReportPhase? then [actions[0].effect.phase] else []) +
         ReportedIn(actions[1..])
  }

  lemma {:induction false} ReportedAppend(a: seq<Action>, b: seq<Action>)
    ensures ReportedIn(a + b) == ReportedIn(a) + ReportedIn(b)
  {
    if a == [] {
      assert a + b == b;
    } else {
      assert (a + b)[1..] == a[1..] + b;
      ReportedAppend(a[1..], b);
    }
  }

  lemma {:induction false} NothingReported(actions: seq<Action>)
    requires forall k :: 0 <= k < |actions| && actions[k].Work? ==> !actions[k].effect.ReportPhase?
    ensures ReportedIn(actions) == []
  {
    if actions != [] {
      NothingReported(actions[1..]);
    }
  }

  lemma BeginningReports(w: World, phase: RunStatus.Status, opening: seq<Action>)
    requires w.reporting && |opening| == 1 && opening[0].StartStep?
    ensures ReportedIn(Phase(w, phase) + opening) == [phase]
  {
    NothingReported(opening);
    ReportedAppend(Phase(w, phase), opening);
    assert Phase(w, phase)[1..] == [];
  }

  predicate IsReport(action: Action) {
    action.Work? && action.effect.ReportPhase?
  }

  lemma QuietlyGoesOn(a: seq<Action>, b: seq<Action>)
    requires forall k :: 0 <= k < |b| ==> !IsReport(b[k])
    ensures ReportedIn(a + b) == ReportedIn(a)
  {
    NothingReported(b);
    ReportedAppend(a, b);
  }

  lemma DraftedReports(w: World, n: nat)
    requires w.reporting
    ensures ReportedIn(Drafted(w, n)) == [RunStatus.Compiling, RunStatus.Rendering, RunStatus.Verifying]
  {
    BeginningReports(w, RunStatus.Compiling, Opening(COMPILE, "Compiling", "Compiling figures"));
    BeginningReports(w, RunStatus.Rendering, Opening(RENDER, "Rendering", "Emitting the document"));
    BeginningReports(w, RunStatus.Verifying, Opening(VERIFY, "Verifying", "Checking every figure"));
    QuietlyGoesOn(CompileBegins(w), CompileEnds(w, n));
    QuietlyGoesOn(CompileBegins(w) + CompileEnds(w, n), Times(w.charts, Chart));
    var told := CompileBegins(w) + CompileEnds(w, n) + Times(w.charts, Chart);
    QuietlyGoesOn(told, Deltas(w));
    ReportedAppend(told + Deltas(w), RenderBegins(w));
    QuietlyGoesOn(told + Deltas(w) + RenderBegins(w), RenderEnds(n));
    ReportedAppend(told + Deltas(w) + RenderBegins(w) + RenderEnds(n), VerifyBegins(w));
  }

  /** A document that is delivered was reported in exactly the three phases, in the order of the
      chain. */
  lemma DeliveredIsReported(w: World, n: nat)
    requires w.reporting && PhasesScript(w, n).ending.None?
    ensures ReportedIn(PhasesScript(w, n).actions) ==
            [RunStatus.Compiling, RunStatus.Rendering, RunStatus.Verifying]
  {
    ScriptBegins(w, n);
    DraftedReports(w, n);
    QuietlyGoesOn(Drafted(w, n), VerifyEnds(n));
    QuietlyGoesOn(Drafted(w, n) + VerifyEnds(n), WRITE_RESULT);
    QuietlyGoesOn(Drafted(w, n) + VerifyEnds(n) + WRITE_RESULT, Recorded(w));
    var begun := Gated(w, n) + UploadBegins();
    QuietlyGoesOn(Gated(w, n), UploadBegins());
    QuietlyGoesOn(begun, WRITE_REPORT);
    QuietlyGoesOn(begun + WRITE_REPORT, Diagnosing(w));
    QuietlyGoesOn(begun + WRITE_REPORT + Diagnosing(w), UploadEnds(w, n));
  }

  // --- a whole report run ---

  /** The handler that collects and then makes the document. */
  function ReportScript(collecting: seq<Action>, w: World, n: nat): Script {
    Script(collecting + PhasesScript(w, n).actions, PhasesScript(w, n).ending)
  }

  lemma ReportTurn(collecting: seq<Action>, r: Router, w: World)
    requires Leads(FRESH, collecting, r) && At(r, r.tracker.sequence, false, false)
    ensures var script := ReportScript(collecting, w, r.tracker.sequence);
            var turn := Handle(FRESH, script.actions, script.ending);
            && turn.failure == script.ending && Sound(turn.router)
            && (script.ending.None? ==> turn.router.passed && FilesAtEnd(turn.router.sent, w.artifacts))
            && (!w.result.pass ==> !turn.router.passed)
  {
    var phases := PhasesScript(w, r.tracker.sequence);
    var script := ReportScript(collecting, w, r.tracker.sequence);
    HandleAppend(FRESH, collecting, phases.actions, script.ending);
    PhasesPassTheScreen(r, w);
    GateRemembers(r, phases.actions, script.ending);
    if !w.result.pass {
      NoPassOffered(w, r.tracker.sequence);
    }
    FreshIsSound();
    HandleKeeps(FRESH, script.actions, script.ending);
  }

  lemma NoPassOffered(w: World, n: nat)
    requires !w.result.pass
    ensures Offer(Verification(true)) !in PhasesScript(w, n).actions
  {
    ScriptBegins(w, n);
    DraftedIsQuiet(w, n);
    var checked := Drafted(w, n) + VerifyEnds(n);
    assert forall k :: 0 <= k < |checked| ==> IsQuiet(checked[k]);
    assert Offer(Verification(true)) !in WRITE_RESULT && Offer(Verification(true)) !in Recorded(w);
    assert Offer(Verification(true)) !in Gated(w, n);
  }

  lemma OnlySentFiles(inv: Invocation, script: Script)
    ensures var events := Run(inv, script).events;
            var sent := Judge(inv, script).router.sent;
            && |sent| <= |events| && events[..|sent|] == sent
            && forall k :: |sent| <= k < |events| ==> !events[k].ReportFile?
  {
    EndsArePlain(Judge(inv, script).router.tracker.open);
  }

  /** A report run whose phases end well completes, with a passing verification and every
      artifact in its stream. */
  lemma PassDelivers(inv: Invocation, collecting: seq<Action>, r: Router, w: World)
    requires inv == Invocation(None, true, true)
    requires Leads(FRESH, collecting, r) && At(r, r.tracker.sequence, false, false)
    requires PhasesScript(w, r.tracker.sequence).ending.None?
    ensures var result := Run(inv, ReportScript(collecting, w, r.tracker.sequence));
            && result.callback.value.outcome == Completed
            && Verification(true) in result.events
            && forall k :: 0 <= k < |w.artifacts| ==> ReportFile(w.artifacts[k]) in result.events
  {
    var script := ReportScript(collecting, w, r.tracker.sequence);
    var sent := Handle(FRESH, script.actions, script.ending).router.sent;
    var events := Run(inv, script).events;
    ReportTurn(collecting, r, w);
    OnlySentFiles(inv, script);
    assert forall e :: e in sent ==> e in events;
    forall k | 0 <= k < |w.artifacts|
      ensures ReportFile(w.artifacts[k]) in sent
    {
      assert sent[|sent| - |w.artifacts| + k] == ReportFile(w.artifacts[k]);
    }
  }

  /** A document that failed its gate is withheld whole, and the row names the replay mismatch
      exactly when nothing else blocked. */
  lemma FailWithholds(inv: Invocation, collecting: seq<Action>, r: Router, w: World)
    requires inv == Invocation(None, true, true)
    requires Leads(FRESH, collecting, r) && At(r, r.tracker.sequence, false, false)
    requires Verifies(w) && Announces(w) && !w.result.pass
    ensures var result := Run(inv, ReportScript(collecting, w, r.tracker.sequence));
            && result.callback.value.outcome == Failed
            && result.callback.value.errorCode ==
               Some(Agent(if BlockingKinds(w.result.findings) == {ReplayHashMismatch} then ReplayMismatch
                          else VerificationFailed))
            && forall k :: 0 <= k < |result.events| ==> !result.events[k].ReportFile?
  {
    var script := ReportScript(collecting, w, r.tracker.sequence);
    ReportTurn(collecting, r, w);
    OnlySentFiles(inv, script);
    NoFileWithoutAPass(Handle(FRESH, script.actions, script.ending).router);
  }

  lemma NoFileWithoutAPass(r: Router)
    requires Sound(r) && !r.passed
    ensures forall k :: 0 <= k < |r.sent| ==> !r.sent[k].ReportFile?
  {
  }
}
