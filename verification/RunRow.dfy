/** The app's side of a progress callback: the schema the body must meet and the decision of
    what one callback writes on the run's row.

    Models `progressCallbackSchema`, `decideTransition` and `progressColumns`
    (app/lib/runs/progress.ts), `DRIVEN` and `acceptedTargets` (app/lib/runs/state.ts) and the
    guarded write of the endpoint (app/app/api/internal/runs/[runId]/progress/route.ts). */
module RunRow {
  import opened Options
  import opened RunStatus
  import opened Errors

  /** A callback body. Text is a sequence of code points. */
  datatype Body = Body(
    runId: string, phase: Status, errorCode: Option<Code>, errorMessage: Option<string>,
    snapshotId: Option<string>, resourceCount: Option<int>, gapCount: Option<int>,
    current: Option<int>, total: Option<int>, badge: Option<string>)

  // --- the schema ---

  const MAX_ERROR_MESSAGE_LENGTH: nat := 2000
  const MAX_PROGRESS_LABEL_LENGTH: nat := 64

  /** The length of a text where the schema measures it: in UTF-16 units. */
  function Units(text: string): nat {
    if text == "" then 0 else (if text[0] as int >= 0x10000 then 2 else 1) + Units(text[1..])
  }

  predicate IsLowerHex(c: char) {
    '0' <= c <= '9' || 'a' <= c <= 'f'
  }

  predicate IsDigest(text: string) {
    |text| == 64 && forall i :: 0 <= i < |text| ==> IsLowerHex(text[i])
  }

  predicate AtLeast(count: Option<int>, floor: int) {
    count.Some? ==> count.value >= floor
  }

  predicate Within(text: Option<string>, limit: nat) {
    text.Some? ==> Units(text.value) <= limit
  }

  predicate IsAgentPhase(phase: Status) {
    phase != Queued && phase != Claimed
  }

  predicate Parses(body: Body) {
    && body.runId != ""
    && IsAgentPhase(body.phase)
    && (body.errorCode.Some? ==> IsRowErrorCode(body.errorCode.value))
    && Within(body.errorMessage, MAX_ERROR_MESSAGE_LENGTH)
    && (body.snapshotId.Some? ==> IsDigest(body.snapshotId.value))
    && AtLeast(body.resourceCount, 0) && AtLeast(body.gapCount, 0)
    && AtLeast(body.current, 0) && AtLeast(body.total, 1)
    && Within(body.badge, MAX_PROGRESS_LABEL_LENGTH)
  }

  // --- the transition table ---

  function Driven(status: Status): set<Status> {
    match status
    case Queued => {Claimed, Failed}
    case Claimed => {Collecting, Failed}
    case Collecting => {Compiling, Completed, Failed}
    case Compiling => {Rendering, Failed}
    case Rendering => {Verifying, Failed}
    case Verifying => {Completed, Failed}
    case Completed => {}
    case Failed => {}
  }

  function AcceptedTargets(status: Status): set<Status> {
    if IsTerminal(status) then {} else {status} + Driven(status)
  }

  // --- the decision ---

  datatype Row = Row(
    status: Status, errorCode: Option<Code>, current: Option<int>, total: Option<int>, badge: Option<string>)

  datatype Rejection = TerminalRow | TimeoutReserved | UnreachableTarget | MissingErrorCode | ErrorCodeNotPermitted

  datatype Decision = Rejected(reason: Rejection) | Write(row: Row)

  /** `progressColumns`: a lower count than the stored one, in the same phase, writes none of
      the three columns. */
  function ProgressColumns(row: Row, body: Body): Row {
    if row.status == body.phase && body.current.Some? && row.current.Some? && body.current.value < row.current.value
    then row
    else row.(current := body.current, total := body.total, badge := body.badge)
  }

  function DecideTransition(row: Row, body: Body): Decision {
    if AcceptedTargets(row.status) == {} then Rejected(TerminalRow)
    else if body.errorCode.Some? && body.errorCode.value in APP_WRITTEN_CODES then Rejected(TimeoutReserved)
    else if body.phase !in AcceptedTargets(row.status) then Rejected(UnreachableTarget)
    else if body.phase == Failed && body.errorCode.None? then Rejected(MissingErrorCode)
    else if body.phase == Failed && !IsAgentErrorCode(body.errorCode.value) then Rejected(ErrorCodeNotPermitted)
    else if body.phase == Failed then Write(Row(Failed, body.errorCode, None, None, None))
    else if body.phase == Completed then Write(Row(Completed, None, None, None, None))
    else Write(ProgressColumns(row, body).(status := body.phase))
  }

  datatype Answer = Answer(accepted: bool, row: Row)

  /** One POST: parsed, decided and written, with the one precondition beyond the table:
      leaving `verifying` for `completed` needs a stored passing verification. */
  function Receive(row: Row, proofStored: bool, body: Body): Answer {
    if !Parses(body) then Answer(false, row)
    else
      match DecideTransition(row, body)
      case Rejected(_) => Answer(false, row)
      case Write(written) =>
        if row.status == Verifying && written.status == Completed && !proofStored then Answer(false, row)
        else Answer(true, written)
  }

  // --- what every run of callbacks keeps ---

  /** One POST with the verification record as the endpoint found it. */
  datatype Presented = Presented(body: Body, proofStored: bool)

  function ReceiveAll(row: Row, posts: seq<Presented>): Row {
    if posts == [] then row
    else
      var before := ReceiveAll(row, posts[..|posts| - 1]);
      var post := posts[|posts| - 1];
      Receive(before, post.proofStored, post.body).row
  }

  /** The position along the chain; `failed` is past every phase it can be entered from. */
  function Rank(status: Status): nat {
    match status
    case Queued => 0
    case Claimed => 1
    case Collecting => 2
    case Compiling => 3
    case Rendering => 4
    case Verifying => 5
    case Completed => 6
    case Failed => 7
  }

  lemma OneStepAlongTheChain(row: Row, proofStored: bool, body: Body)
    ensures var after := Receive(row, proofStored, body).row;
            && (after.status == row.status || after.status in Driven(row.status))
            && Rank(row.status) <= Rank(after.status)
            && (IsTerminal(row.status) ==> after == row)
  {
  }

  /** Over every sequence of callbacks, in any order: the row moves only along the chain,
      and once terminal no column changes. */
  lemma {:induction false} RowMovesForward(row: Row, posts: seq<Presented>, k: nat)
    requires k <= |posts|
    ensures var before, after := ReceiveAll(row, posts[..k]), ReceiveAll(row, posts);
            && Rank(before.status) <= Rank(after.status)
            && (IsTerminal(before.status) ==> after == before)
    decreases |posts|
  {
    if k < |posts| {
      var n := |posts| - 1;
      RowMovesForward(row, posts[..n], k);
      assert posts[..n][..k] == posts[..k];
      OneStepAlongTheChain(ReceiveAll(row, posts[..n]), posts[n].proofStored, posts[n].body);
    } else {
      assert posts[..k] == posts;
    }
  }

  /** What the row says about itself: a code exactly when it failed, and then one the agent
      may present; no count outlives the run. */
  predicate Consistent(row: Row) {
    && (row.errorCode.Some? <==> row.status == Failed)
    && (row.status == Failed ==> IsAgentErrorCode(row.errorCode.value))
    && (IsTerminal(row.status) ==> row.current.None? && row.total.None? && row.badge.None?)
  }

  lemma {:induction false} RowStaysConsistent(row: Row, posts: seq<Presented>)
    requires Consistent(row)
    ensures Consistent(ReceiveAll(row, posts))
  {
    if posts != [] {
      RowStaysConsistent(row, posts[..|posts| - 1]);
    }
  }

  // --- what is written ---

  /** The three columns of a running phase. */
  predicate ShowsProgressOf(row: Row, current: Option<int>, total: Option<int>, badge: Option<string>) {
    row.current == current && row.total == total && row.badge == badge
  }

  /** A refused callback writes nothing. An accepted one writes its phase; with a terminal phase the
      code, if it failed, and no count; otherwise its count, total and label together, or none of
      the three, and that exactly when the same phase already showed a higher count. */
  lemma AcceptedIsWritten(row: Row, proofStored: bool, body: Body)
    ensures var answer := Receive(row, proofStored, body);
            && (!answer.accepted ==> answer.row == row)
            && (answer.accepted ==>
                  && answer.row.status == body.phase
                  && (body.phase == Failed ==> answer.row.errorCode == body.errorCode)
                  && (body.phase == Completed ==> answer.row.errorCode == None)
                  && (IsTerminal(body.phase) ==> ShowsProgressOf(answer.row, None, None, None))
                  && (!IsTerminal(body.phase) ==>
                        var falls := row.status == body.phase && body.current.Some? && row.current.Some? &&
                                     body.current.value < row.current.value;
                        && answer.row.errorCode == row.errorCode
                        && (falls ==> ShowsProgressOf(answer.row, row.current, row.total, row.badge))
                        && (!falls ==> ShowsProgressOf(answer.row, body.current, body.total, body.badge))))
  {
  }

  /** A callback is accepted exactly when it passes the schema, its phase is the row's or follows
      it on a row that is not terminal, it presents no code of the app's own, a failure presents
      a permitted code, and leaving `verifying` for `completed` finds the proof. */
  lemma AcceptedExactlyWhen(row: Row, proofStored: bool, body: Body)
    ensures Receive(row, proofStored, body).accepted <==>
            && Parses(body) && body.phase in AcceptedTargets(row.status)
            && (body.errorCode.Some? ==> body.errorCode.value !in APP_WRITTEN_CODES)
            && (body.phase == Failed ==> body.errorCode.Some? && IsAgentErrorCode(body.errorCode.value))
            && (row.status == Verifying && body.phase == Completed ==> proofStored)
  {
  }

  // --- completion ---

  predicate AsksCompletion(body: Body) {
    body.phase == Completed && Parses(body) && !(body.errorCode.Some? && body.errorCode.value in APP_WRITTEN_CODES)
  }

  /** Where the row takes a `completed` callback. Nothing asks, at `collecting`, whether a
      document was made. */
  predicate TakesCompletion(row: Row, proofStored: bool) {
    row.status == Collecting || (row.status == Verifying && proofStored)
  }

  /** One callback completes a row exactly when it asks to and the row takes it. */
  lemma CompletesExactlyWhen(row: Row, proofStored: bool, body: Body)
    requires row.status != Completed
    ensures var answer := Receive(row, proofStored, body);
            && (answer.row.status == Completed <==> AsksCompletion(body) && TakesCompletion(row, proofStored))
            && (answer.row.status == Completed ==> answer.accepted)
  {
  }

  /** The `k`-th callback moved the row from one status to another. */
  predicate HasHop(row: Row, posts: seq<Presented>, from: Status, to: Status, k: nat)
    requires k < |posts|
  {
    ReceiveAll(row, posts[..k]).status == from && ReceiveAll(row, posts[..k + 1]).status == to
  }

  /** A row is completed by one callback: from `verifying` with the proof stored at that moment,
      or straight from `collecting`, whatever was reported and refused before. */
  lemma {:induction false} CompletionHadItsProof(row: Row, posts: seq<Presented>)
    requires row.status != Completed && ReceiveAll(row, posts).status == Completed
    ensures exists k: nat {:trigger posts[k]} :: k < |posts| && posts[k].body.phase == Completed &&
              ((HasHop(row, posts, Verifying, Completed, k) && posts[k].proofStored) ||
               HasHop(row, posts, Collecting, Completed, k))
  {
    var n := |posts| - 1;
    var before := ReceiveAll(row, posts[..n]);
    assert posts[..n + 1] == posts;
    if before.status == Completed {
      CompletionHadItsProof(row, posts[..n]);
      var k: nat :| k < n && posts[..n][k].body.phase == Completed &&
        ((HasHop(row, posts[..n], Verifying, Completed, k) && posts[..n][k].proofStored) ||
         HasHop(row, posts[..n], Collecting, Completed, k));
      assert posts[..n][..k] == posts[..k] && posts[..n][..k + 1] == posts[..k + 1];
      assert posts[k].body.phase == Completed;
    } else {
      assert HasHop(row, posts, before.status, Completed, n);
      assert posts[n].body.phase == Completed;
    }
  }

  /** A row reports success before its proof is stored: `compiling` never arrived, the document's
      other phases were refused for want of it, and `completed` is taken at `collecting`. */
  lemma CompletesWithoutProof(row: Row, rendering: Body, verifying: Body, completed: Body)
    requires row.status == Collecting && rendering.phase == Rendering && verifying.phase == Verifying
    requires AsksCompletion(completed)
    ensures var posts := [Presented(rendering, false)] + [Presented(verifying, false)] + [Presented(completed, false)];
            ReceiveAll(row, posts).status == Completed
  {
    var one := [Presented(rendering, false)];
    var two := one + [Presented(verifying, false)];
    var three := two + [Presented(completed, false)];
    assert one[..0] == [] && two[..1] == one && three[..2] == two;
    assert ReceiveAll(row, one) == row;
    assert ReceiveAll(row, two) == row;
    CompletesExactlyWhen(row, false, completed);
  }

  /** Whether a `failed` callback lands depends only on the row and the code. */
  lemma FailedLandsExactlyWhen(row: Row, proofStored: bool, body: Body)
    requires Parses(body) && body.phase == Failed
    ensures Receive(row, proofStored, body).accepted <==>
            !IsTerminal(row.status) && body.errorCode.Some? && IsAgentErrorCode(body.errorCode.value)
  {
    assert !IsTerminal(row.status) ==> Failed in AcceptedTargets(row.status);
    assert !IsTerminal(row.status) ==> row.status in AcceptedTargets(row.status);
  }
}
