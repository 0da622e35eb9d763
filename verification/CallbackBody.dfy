/** The body of a progress callback, and whether the app accepts it.

    Models `_build_body` and `_coerce` (agent/src/reporting_agent/progress.py) against the
    schema and the decision of the endpoint. */
module CallbackBody {
  import opened Options
  import opened RunStatus
  import opened Errors
  import opened RunRow
  import Events
  import Invocation

  /** The fields a caller offers. */
  datatype Fields = Fields(
    errorCode: Option<Code>, errorMessage: Option<string>, snapshotId: Option<string>,
    resourceCount: Option<int>, gapCount: Option<int>,
    current: Option<int>, total: Option<int>, badge: Option<string>)

  const NO_FIELDS: Fields := Fields(None, None, None, None, None, None, None, None)

  /** Python slices by code points. */
  function Truncated(text: Option<string>, limit: nat): Option<string> {
    if text.Some? && |text.value| > limit then Some(text.value[..limit]) else text
  }

  function Floored(count: Option<int>, floor: int): Option<int> {
    if count.Some? && count.value < floor then None else count
  }

  function Presentable(code: Option<Code>): Option<Code> {
    if code.Some? && IsAgentErrorCode(code.value) then code else None
  }

  /** Each phase permits its own fields; what cannot be valid is cut short or dropped. */
  function BuildBody(runId: string, phase: Status, f: Fields): Body {
    match phase
    case Failed =>
      Body(runId, phase, Presentable(f.errorCode), Truncated(f.errorMessage, MAX_ERROR_MESSAGE_LENGTH),
           None, None, None, None, None, None)
    case Completed =>
      Body(runId, phase, None, None, f.snapshotId, Floored(f.resourceCount, 0), Floored(f.gapCount, 0),
           None, None, None)
    case _ =>
      Body(runId, phase, None, None, None, None, None, Floored(f.current, 0), Floored(f.total, 1),
           Truncated(f.badge, MAX_PROGRESS_LABEL_LENGTH))
  }

  // --- whether the body passes the schema ---

  /** The characters that take two UTF-16 units. */
  function Astral(text: string): nat {
    if text == "" then 0 else (if text[0] as int >= 0x10000 then 1 else 0) + Astral(text[1..])
  }

  lemma {:induction false} UnitsCountAstralTwice(text: string)
    ensures Units(text) == |text| + Astral(text)
  {
    if text != "" {
      UnitsCountAstralTwice(text[1..]);
    }
  }

  /** A text is too long for the schema after the cut, because the agent counts code points
      and the app counts UTF-16 units. */
  predicate OverflowsAfterCut(text: Option<string>, limit: nat) {
    var cut := Truncated(text, limit);
    cut.Some? && |cut.value| + Astral(cut.value) > limit
  }

  /** The repair is complete but for two things it does not look at: characters beyond U+FFFF
      in a text, and the form of the snapshot id. */
  lemma BodyParsesExactlyWhen(runId: string, phase: Status, f: Fields)
    requires runId != "" && IsAgentPhase(phase)
    ensures Parses(BuildBody(runId, phase, f)) <==>
            match phase
            case Failed => !OverflowsAfterCut(f.errorMessage, MAX_ERROR_MESSAGE_LENGTH)
            case Completed => f.snapshotId.Some? ==> IsDigest(f.snapshotId.value)
            case _ => !OverflowsAfterCut(f.badge, MAX_PROGRESS_LABEL_LENGTH)
  {
    var message := Truncated(f.errorMessage, MAX_ERROR_MESSAGE_LENGTH);
    var badge := Truncated(f.badge, MAX_PROGRESS_LABEL_LENGTH);
    if message.Some? {
      UnitsCountAstralTwice(message.value);
    }
    if badge.Some? {
      UnitsCountAstralTwice(badge.value);
    }
  }

  predicate PassedOn(text: Option<string>, offered: Option<string>, limit: nat) {
    && (text.Some? <==> offered.Some?)
    && (text.Some? ==>
          text.value <= offered.value && |text.value| == if |offered.value| <= limit then |offered.value| else limit)
  }

  predicate PassedOnFrom(count: Option<int>, offered: Option<int>, floor: int) {
    count == if offered.Some? && offered.value >= floor then offered else None
  }

  /** What is offered arrives: texts whole up to the limit, counts and codes unless they could not
      be valid, and only with the phase they belong to. */
  lemma BodyRepeatsTheFields(runId: string, phase: Status, f: Fields)
    ensures var body := BuildBody(runId, phase, f);
            && body.runId == runId && body.phase == phase
            && body.errorCode ==
               (if phase == Failed && f.errorCode.Some? && IsAgentErrorCode(f.errorCode.value) then f.errorCode
                else None)
            && PassedOn(body.errorMessage, if phase == Failed then f.errorMessage else None, 2000)
            && body.snapshotId == (if phase == Completed then f.snapshotId else None)
            && PassedOnFrom(body.resourceCount, if phase == Completed then f.resourceCount else None, 0)
            && PassedOnFrom(body.gapCount, if phase == Completed then f.gapCount else None, 0)
            && PassedOnFrom(body.current, if IsTerminal(phase) then None else f.current, 0)
            && PassedOnFrom(body.total, if IsTerminal(phase) then None else f.total, 1)
            && PassedOn(body.badge, if IsTerminal(phase) then None else f.badge, 64)
  {
  }

  lemma {:induction false} NoAstral(text: string)
    requires forall i :: 0 <= i < |text| ==> text[i] as int < 0x10000
    ensures Astral(text) == 0
  {
    if text != "" {
      NoAstral(text[1..]);
    }
  }

  /** Texts of the basic plane always fit after the cut, however long they were. */
  lemma BasicTextFits(text: string, limit: nat)
    requires forall i :: 0 <= i < |text| ==> text[i] as int < 0x10000
    ensures !OverflowsAfterCut(Some(text), limit)
  {
    NoAstral(Truncated(Some(text), limit).value);
  }

  function Repeated(c: char, n: nat): (r: string)
    ensures |r| == n && forall i :: 0 <= i < n ==> r[i] == c
  {
    seq(n, i => c)
  }

  lemma {:induction false} AllAstral(text: string)
    requires forall i :: 0 <= i < |text| ==> text[i] as int >= 0x10000
    ensures Astral(text) == |text|
  {
    if text != "" {
      AllAstral(text[1..]);
    }
  }

  /** A label of forty pictographs is within the agent's limit and refused by the app, and the
      transition it travels with is refused too. */
  lemma PictographsLoseTheTransition(runId: string, row: Row, proofStored: bool)
    requires runId != ""
    ensures var badge := Repeated('\U{1F4C4}', 40);
            var body := BuildBody(runId, Compiling, NO_FIELDS.(badge := Some(badge)));
            && body.badge == Some(badge)
            && Receive(row, proofStored, body) == Answer(false, row)
  {
    var badge := Repeated('\U{1F4C4}', 40);
    AllAstral(badge);
    BodyParsesExactlyWhen(runId, Compiling, NO_FIELDS.(badge := Some(badge)));
  }

  // --- a failed run's callback ---

  /** What the router hands to `report_terminal`. */
  function FieldsOf(callback: Invocation.Callback, message: Option<string>): Fields {
    if callback.outcome == Events.Failed then NO_FIELDS.(errorCode := callback.errorCode, errorMessage := message)
    else
      NO_FIELDS.(snapshotId := callback.completion.snapshotId, resourceCount := callback.completion.resourceCount,
                 gapCount := callback.completion.gapCount)
  }

  function PhaseOf(outcome: Events.Outcome): Status {
    if outcome == Events.Completed then Completed else Failed
  }

  /** For every invocation that ends in status `failed`, the callback carries a code the agent
      may present, and the app takes it on every row that is not terminal yet. */
  lemma FailedRunIsAccepted(inv: Invocation.Invocation, script: Invocation.Script, runId: string,
                            message: Option<string>, row: Row, proofStored: bool)
    requires inv.reporting && runId != ""
    requires Invocation.Run(inv, script).callback.value.outcome == Events.Failed
    ensures var body := BuildBody(runId, Failed, FieldsOf(Invocation.Run(inv, script).callback.value, message));
            && body.errorCode.Some? && IsAgentErrorCode(body.errorCode.value)
            && (!OverflowsAfterCut(message, MAX_ERROR_MESSAGE_LENGTH) ==>
                  && (Receive(row, proofStored, body).accepted <==> !IsTerminal(row.status))
                  && (!IsTerminal(row.status) ==>
                        Receive(row, proofStored, body).row == Row(Failed, body.errorCode, None, None, None)))
  {
    var fields := FieldsOf(Invocation.Run(inv, script).callback.value, message);
    Invocation.CallbackIsAcceptable(inv, script);
    BodyParsesExactlyWhen(runId, Failed, fields);
    var body := BuildBody(runId, Failed, fields);
    if Parses(body) {
      FailedLandsExactlyWhen(row, proofStored, body);
    }
  }
}
