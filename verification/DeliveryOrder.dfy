/** The scheduled deliveries as concurrent tasks, the app that answers them, and the run's row.

    Models `_deliver_in_order` and `aclose` with the scheduling of `report` and
    `report_terminal` (agent/src/reporting_agent/progress.py) as a transition system. Any
    interleaving of the tasks, the transport and the app is a sequence of steps; a step that
    is not possible where it stands changes nothing. */
module DeliveryOrder {
  import opened Options
  import opened RunStatus
  import opened RunRow
  import TerminalDelivery

  /** A scheduled delivery: behind its predecessor, making its `attempt`-th POST, or over. */
  datatype Task = Waiting | Posting(attempt: nat) | Settled

  /** The terminal callback: not asked for, waiting for the deliveries before it, making its
      `attempt`-th POST of its `round`-th delivery, or over. */
  datatype Terminal = NotAsked | Holding(body: Body) | Sending(body: Body, attempt: nat, round: nat) | Over

  datatype Sys = Sys(
    bodies: seq<Body>, tasks: seq<Task>, terminal: Terminal,
    stray: seq<Body>, row: Row, proofStored: bool,
    started: seq<nat>, visited: seq<Status>)

  datatype Step =
    | Report(body: Body)              // an admitted intermediate callback
    | Begin(task: nat)                // a task whose predecessor is over starts its first POST
    | Answered(task: nat)             // the app answers the POST in flight
    | GivenUp(task: nat)              // the POST times out or raises
    | StrayHandled(k: nat)            // the app handles a request the agent gave up on
    | StoreProof                      // the verification row is stored
    | AskTerminal(body: Body)
    | TerminalBegins(budgetOver: bool)
    | TerminalAnswered
    | TerminalGivenUp
    | Close                           // the terminal callback is over; what is left is cancelled

  const PROGRESS_MAX_ATTEMPTS: nat := TerminalDelivery.PROGRESS_MAX_ATTEMPTS
  const ROUNDS: nat := |TerminalDelivery.TERMINAL_REFUSED_RETRY_DELAYS| + 1

  function Started(row: Row): Sys {
    Sys([], [], NotAsked, [], row, false, [], [])
  }

  predicate AllSettled(s: Sys) {
    forall i :: 0 <= i < |s.tasks| ==> s.tasks[i].Settled?
  }

  predicate Possible(s: Sys, step: Step) {
    match step
    case Report(body) => s.terminal.NotAsked? && IsAgentPhase(body.phase) && !IsTerminal(body.phase)
    case Begin(i) => i < |s.tasks| && s.tasks[i].Waiting? && (i == 0 || s.tasks[i - 1].Settled?)
    case Answered(i) => i < |s.tasks| && s.tasks[i].Posting?
    case GivenUp(i) => i < |s.tasks| && s.tasks[i].Posting?
    case StrayHandled(k) => k < |s.stray|
    case StoreProof => true
    case AskTerminal(body) => s.terminal.NotAsked? && IsTerminal(body.phase)
    case TerminalBegins(budgetOver) => s.terminal.Holding? && (budgetOver || AllSettled(s))
    case TerminalAnswered => s.terminal.Sending?
    case TerminalGivenUp => s.terminal.Sending?
    case Close => s.terminal.Over?
  }

  /** The app handles a request. */
  function Handled(s: Sys, body: Body): Sys {
    var answer := Receive(s.row, s.proofStored, body);
    s.(row := answer.row, visited := s.visited + if answer.accepted then [answer.row.status] else [])
  }

  function Accepts(s: Sys, body: Body): bool {
    Receive(s.row, s.proofStored, body).accepted
  }

  /** After a failed attempt: once more, or over. */
  function Retried(s: Sys, i: nat): Sys
    requires i < |s.tasks| && s.tasks[i].Posting?
  {
    if s.tasks[i].attempt < PROGRESS_MAX_ATTEMPTS then
      s.(tasks := s.tasks[i := Posting(s.tasks[i].attempt + 1)], started := s.started + [i])
    else s.(tasks := s.tasks[i := Settled])
  }

  function TerminalRetried(t: Terminal, refused: bool): Terminal
    requires t.Sending?
  {
    if t.attempt < PROGRESS_MAX_ATTEMPTS then t.(attempt := t.attempt + 1)
    else if refused && t.body.phase == Completed && t.round < ROUNDS then Sending(t.body, 1, t.round + 1)
    else Over
  }

  function InFlight(bodies: seq<Body>, tasks: seq<Task>): seq<Body>
    requires |bodies| == |tasks|
  {
    if tasks == [] then []
    else InFlight(bodies[..|bodies| - 1], tasks[..|tasks| - 1]) +
         if tasks[|tasks| - 1].Posting? then [bodies[|bodies| - 1]] else []
  }

  function Do(s: Sys, step: Step): Sys
    requires |s.bodies| == |s.tasks| && Possible(s, step)
  {
    match step
    case Report(body) => s.(bodies := s.bodies + [body], tasks := s.tasks + [Waiting])
    case Begin(i) => s.(tasks := s.tasks[i := Posting(1)], started := s.started + [i])
    case Answered(i) =>
      var after := Handled(s, s.bodies[i]);
      if Accepts(s, s.bodies[i]) then after.(tasks := s.tasks[i := Settled]) else Retried(after, i)
    case GivenUp(i) => Retried(s.(stray := s.stray + [s.bodies[i]]), i)
    case StrayHandled(k) => Handled(s.(stray := s.stray[..k] + s.stray[k + 1..]), s.stray[k])
    case StoreProof => s.(proofStored := true)
    case AskTerminal(body) => s.(terminal := Holding(body))
    case TerminalBegins(_) => s.(terminal := Sending(s.terminal.body, 1, 1))
    case TerminalAnswered =>
      var after := Handled(s, s.terminal.body);
      after.(terminal := if Accepts(s, s.terminal.body) then Over else TerminalRetried(s.terminal, true))
    case TerminalGivenUp =>
      s.(stray := s.stray + [s.terminal.body], terminal := TerminalRetried(s.terminal, false))
    case Close =>
      s.(tasks := seq(|s.tasks|, i => Settled), stray := s.stray + InFlight(s.bodies, s.tasks))
  }

  function Next(s: Sys, step: Step): Sys
    requires |s.bodies| == |s.tasks|
  {
    if Possible(s, step) then Do(s, step) else s
  }

  function Run(row: Row, steps: seq<Step>): (s: Sys)
    ensures |s.bodies| == |s.tasks|
  {
    if steps == [] then Started(row) else Next(Run(row, steps[..|steps| - 1]), steps[|steps| - 1])
  }

  // --- order ---

  /** Everything before a task that has begun is over, so at most one delivery is in
      progress. */
  predicate OneAtATime(tasks: seq<Task>) {
    forall i, j :: 0 <= i < j < |tasks| && !tasks[j].Waiting? ==> tasks[i].Settled?
  }

  function Count(started: seq<nat>, i: nat): nat {
    if started == [] then 0
    else Count(started[..|started| - 1], i) + if started[|started| - 1] == i then 1 else 0
  }

  predicate AttemptsMatch(task: Task, count: nat) {
    match task
    case Waiting => count == 0
    case Posting(attempt) => 1 <= attempt == count <= PROGRESS_MAX_ATTEMPTS
    case Settled => count <= PROGRESS_MAX_ATTEMPTS
  }

  /** The POSTs started in the order the callbacks were reported, at most two for each. */
  ghost predicate InReportOrder(s: Sys) {
    && OneAtATime(s.tasks)
    && (forall a :: 0 <= a < |s.started| ==> s.started[a] < |s.tasks| && !s.tasks[s.started[a]].Waiting?)
    && (forall a, b :: 0 <= a < b < |s.started| ==> s.started[a] <= s.started[b])
    && (forall i :: 0 <= i < |s.tasks| ==> AttemptsMatch(s.tasks[i], Count(s.started, i)))
  }

  lemma CountAppend(started: seq<nat>, last: nat, i: nat)
    ensures Count(started + [last], i) == Count(started, i) + if last == i then 1 else 0
  {
    assert (started + [last])[..|started|] == started;
  }

  lemma {:induction false} CountAbsent(started: seq<nat>, i: nat)
    requires forall a :: 0 <= a < |started| ==> started[a] != i
    ensures Count(started, i) == 0
  {
    if started != [] {
      CountAbsent(started[..|started| - 1], i);
    }
  }

  /** A task that is next in line, or in progress, starts a POST. */
  lemma PostStarts(s: Sys, i: nat, attempt: nat)
    requires InReportOrder(s) && i < |s.tasks| && !s.tasks[i].Settled?
    requires forall j :: 0 <= j < i ==> s.tasks[j].Settled?
    requires attempt == Count(s.started, i) + 1 <= PROGRESS_MAX_ATTEMPTS
    ensures InReportOrder(s.(tasks := s.tasks[i := Posting(attempt)], started := s.started + [i]))
  {
    NoLaterStart(s, i);
    forall j | 0 <= j < |s.tasks|
      ensures AttemptsMatch(s.tasks[i := Posting(attempt)][j], Count(s.started + [i], j))
    {
      CountAppend(s.started, i, j);
      assert AttemptsMatch(s.tasks[j], Count(s.started, j));
    }
    StartedStaySorted(s.tasks, s.started, i, attempt);
    assert OneAtATime(s.tasks[i := Posting(attempt)]);
  }

  lemma NoLaterStart(s: Sys, i: nat)
    requires InReportOrder(s) && i < |s.tasks| && !s.tasks[i].Settled?
    ensures forall a :: 0 <= a < |s.started| ==> s.started[a] <= i
  {
    forall a | 0 <= a < |s.started|
      ensures s.started[a] <= i
    {
      var x := s.started[a];
      assert !s.tasks[x].Waiting?;
    }
  }

  lemma StartedStaySorted(tasks: seq<Task>, started: seq<nat>, i: nat, attempt: nat)
    requires i < |tasks|
    requires forall a :: 0 <= a < |started| ==> started[a] <= i && !tasks[started[a]].Waiting?
    requires forall a, b :: 0 <= a < b < |started| ==> started[a] <= started[b]
    ensures var after := started + [i];
            && (forall a :: 0 <= a < |after| ==> after[a] < |tasks| && !tasks[i := Posting(attempt)][after[a]].Waiting?)
            && (forall a, b :: 0 <= a < b < |after| ==> after[a] <= after[b])
  {
  }

  lemma TaskEnds(s: Sys, i: nat)
    requires InReportOrder(s) && i < |s.tasks| && s.tasks[i].Posting?
    ensures InReportOrder(s.(tasks := s.tasks[i := Settled]))
  {
  }

  lemma EarlierAreOver(s: Sys, i: nat)
    requires InReportOrder(s) && i < |s.tasks|
    requires s.tasks[i].Posting? || (s.tasks[i].Waiting? && (i == 0 || s.tasks[i - 1].Settled?))
    ensures forall j :: 0 <= j < i ==> s.tasks[j].Settled?
  {
    if i > 0 && s.tasks[i].Waiting? {
      assert !s.tasks[i - 1].Waiting?;
    }
  }

  lemma RetryKeepsOrder(s: Sys, i: nat)
    requires InReportOrder(s) && i < |s.tasks| && s.tasks[i].Posting?
    ensures InReportOrder(Retried(s, i))
  {
    EarlierAreOver(s, i);
    assert AttemptsMatch(s.tasks[i], Count(s.started, i));
    if s.tasks[i].attempt < PROGRESS_MAX_ATTEMPTS {
      PostStarts(s, i, s.tasks[i].attempt + 1);
    } else {
      TaskEnds(s, i);
    }
  }

  lemma ReportKeepsOrder(s: Sys, body: Body)
    requires InReportOrder(s)
    ensures InReportOrder(s.(bodies := s.bodies + [body], tasks := s.tasks + [Waiting]))
  {
    CountAbsent(s.started, |s.tasks|);
  }

  lemma CloseKeepsOrder(s: Sys)
    requires InReportOrder(s)
    ensures InReportOrder(s.(tasks := seq(|s.tasks|, i => Settled)))
  {
    forall i | 0 <= i < |s.tasks|
      ensures Count(s.started, i) <= PROGRESS_MAX_ATTEMPTS
    {
      assert AttemptsMatch(s.tasks[i], Count(s.started, i));
    }
  }

  lemma BeginKeepsOrder(s: Sys, i: nat)
    requires InReportOrder(s) && i < |s.tasks| && s.tasks[i].Waiting? && (i == 0 || s.tasks[i - 1].Settled?)
    ensures InReportOrder(s.(tasks := s.tasks[i := Posting(1)], started := s.started + [i]))
  {
    EarlierAreOver(s, i);
    assert AttemptsMatch(s.tasks[i], Count(s.started, i));
    PostStarts(s, i, 1);
  }

  lemma StepKeepsOrder(s: Sys, step: Step)
    requires |s.bodies| == |s.tasks| && InReportOrder(s)
    ensures InReportOrder(Next(s, step))
  {
    if Possible(s, step) {
      match step {
        case Report(body) => ReportKeepsOrder(s, body);
        case Begin(i) => BeginKeepsOrder(s, i);
        case Answered(i) =>
          if Accepts(s, s.bodies[i]) {
            TaskEnds(s, i);
          } else {
            RetryKeepsOrder(Handled(s, s.bodies[i]), i);
          }
        case GivenUp(i) => RetryKeepsOrder(s.(stray := s.stray + [s.bodies[i]]), i);
        case Close => CloseKeepsOrder(s);
        case _ =>
      }
    }
  }

  /** For every interleaving: no POST of a later-reported callback starts before the previous
      delivery is over, and no callback is posted more than twice. */
  lemma {:induction false} PostsFollowReports(row: Row, steps: seq<Step>)
    ensures InReportOrder(Run(row, steps))
  {
    if steps != [] {
      PostsFollowReports(row, steps[..|steps| - 1]);
      StepKeepsOrder(Run(row, steps[..|steps| - 1]), steps[|steps| - 1]);
    }
  }

  // --- how often a delivery is tried ---

  /** What a step tells the `i`-th delivery of its POST in flight. */
  function TaskTold(s: Sys, step: Step, i: nat): seq<TerminalDelivery.Verdict>
    requires |s.bodies| == |s.tasks|
  {
    if !Possible(s, step) then []
    else
      match step
      case Answered(j) =>
        if j != i then []
        else if Accepts(s, s.bodies[i]) then [TerminalDelivery.Delivered] else [TerminalDelivery.Refused]
      case GivenUp(j) => if j == i then [TerminalDelivery.Unanswered] else []
      case _ => []
  }

  function TaskVerdicts(row: Row, steps: seq<Step>, i: nat): seq<TerminalDelivery.Verdict> {
    if steps == [] then []
    else
      var before := steps[..|steps| - 1];
      TaskVerdicts(row, before, i) + TaskTold(Run(row, before), steps[|steps| - 1], i)
  }

  predicate NoneDelivered(verdicts: seq<TerminalDelivery.Verdict>) {
    forall k :: 0 <= k < |verdicts| ==> verdicts[k] != TerminalDelivery.Delivered
  }

  /** A delivery is over once it is delivered, and otherwise after its second POST. */
  predicate TaskFollows(task: Task, verdicts: seq<TerminalDelivery.Verdict>, posts: nat) {
    match task
    case Waiting => posts == 0 && verdicts == []
    case Posting(attempt) => posts == attempt == |verdicts| + 1 <= 2 && NoneDelivered(verdicts)
    case Settled =>
      && posts == |verdicts|
      && ((0 < posts <= 2 && verdicts[posts - 1] == TerminalDelivery.Delivered && NoneDelivered(verdicts[..posts - 1]))
          || (posts == 2 && NoneDelivered(verdicts)))
  }

  /** What is left was cancelled. */
  ghost predicate Closed(row: Row, steps: seq<Step>) {
    exists k :: 0 <= k < |steps| && ClosesAt(row, steps, k)
  }

  predicate ClosesAt(row: Row, steps: seq<Step>, k: nat)
    requires k < |steps|
  {
    steps[k].Close? && Possible(Run(row, steps[..k]), Close)
  }

  /** A delivery after a verdict on its POST. */
  function AfterVerdict(attempt: nat, verdict: TerminalDelivery.Verdict): Task {
    if verdict == TerminalDelivery.Delivered || attempt >= PROGRESS_MAX_ATTEMPTS then Settled else Posting(attempt + 1)
  }

  lemma VerdictTaken(attempt: nat, verdicts: seq<TerminalDelivery.Verdict>, verdict: TerminalDelivery.Verdict)
    requires TaskFollows(Posting(attempt), verdicts, attempt)
    ensures var after := AfterVerdict(attempt, verdict);
            TaskFollows(after, verdicts + [verdict], if after.Posting? then attempt + 1 else attempt)
  {
    var more := verdicts + [verdict];
    assert more[..|verdicts|] == verdicts;
  }

  /** What a step does to the deliveries: to the `j`-th one, or to none. */
  ghost predicate OnlyMoves(s: Sys, after: Sys, j: nat, task: Task) {
    && j < |s.tasks| && after.tasks == s.tasks[j := task]
    && after.started == s.started + if task.Posting? then [j] else []
  }

  lemma AnsweredMoves(s: Sys, j: nat)
    requires |s.bodies| == |s.tasks| && Possible(s, Answered(j))
    ensures OnlyMoves(s, Next(s, Answered(j)), j, AfterVerdict(s.tasks[j].attempt, TaskTold(s, Answered(j), j)[0]))
  {
  }

  lemma GivenUpMoves(s: Sys, j: nat)
    requires |s.bodies| == |s.tasks| && Possible(s, GivenUp(j))
    ensures OnlyMoves(s, Next(s, GivenUp(j)), j, AfterVerdict(s.tasks[j].attempt, TaskTold(s, GivenUp(j), j)[0]))
  {
  }

  lemma CountMoves(s: Sys, after: Sys, j: nat, task: Task, i: nat)
    requires OnlyMoves(s, after, j, task) && i < |s.tasks|
    ensures after.tasks[i] == if i == j then task else s.tasks[i]
    ensures Count(after.started, i) == Count(s.started, i) + if i == j && task.Posting? then 1 else 0
  {
    CountAppend(s.started, j, i);
    assert s.started + [] == s.started;
  }

  lemma OthersStand(s: Sys, step: Step)
    requires |s.bodies| == |s.tasks| && Possible(s, step)
    requires !step.Begin? && !step.Answered? && !step.GivenUp? && !step.Close?
    ensures s.tasks <= Next(s, step).tasks && Next(s, step).started == s.started
  {
  }

  lemma TaskTakes(s: Sys, step: Step, i: nat, verdicts: seq<TerminalDelivery.Verdict>)
    requires |s.bodies| == |s.tasks| && i < |s.tasks| && TaskFollows(s.tasks[i], verdicts, Count(s.started, i))
    requires Possible(s, step) && !step.Close?
    ensures i < |Next(s, step).tasks|
    ensures TaskFollows(Next(s, step).tasks[i], verdicts + TaskTold(s, step, i), Count(Next(s, step).started, i))
  {
    var after := Next(s, step);
    assert verdicts + [] == verdicts;
    match step {
      case Begin(j) => CountMoves(s, after, j, Posting(1), i);
      case Answered(j) =>
        AnsweredMoves(s, j);
        VerdictTold(s, step, j, i, verdicts);
      case GivenUp(j) =>
        GivenUpMoves(s, j);
        VerdictTold(s, step, j, i, verdicts);
      case _ => OthersStand(s, step);
    }
  }

  lemma VerdictTold(s: Sys, step: Step, j: nat, i: nat, verdicts: seq<TerminalDelivery.Verdict>)
    requires |s.bodies| == |s.tasks| && i < |s.tasks| && TaskFollows(s.tasks[i], verdicts, Count(s.started, i))
    requires Possible(s, step) && (step == Answered(j) || step == GivenUp(j))
    requires OnlyMoves(s, Next(s, step), j, AfterVerdict(s.tasks[j].attempt, TaskTold(s, step, j)[0]))
    ensures i < |Next(s, step).tasks|
    ensures TaskFollows(Next(s, step).tasks[i], verdicts + TaskTold(s, step, i), Count(Next(s, step).started, i))
  {
    var told := TaskTold(s, step, j)[0];
    CountMoves(s, Next(s, step), j, AfterVerdict(s.tasks[j].attempt, told), i);
    if i == j {
      assert TaskTold(s, step, i) == [told];
      VerdictTaken(s.tasks[j].attempt, verdicts, told);
    } else {
      assert verdicts + TaskTold(s, step, i) == verdicts;
    }
  }

  lemma ClosedStays(row: Row, before: seq<Step>, step: Step)
    ensures Closed(row, before + [step]) <==> Closed(row, before) || (step.Close? && Possible(Run(row, before), Close))
  {
    var steps := before + [step];
    forall k | 0 <= k < |before|
      ensures ClosesAt(row, steps, k) <==> ClosesAt(row, before, k)
    {
      assert steps[..k] == before[..k];
    }
    assert steps[..|before|] == before;
    if step.Close? && Possible(Run(row, before), Close) {
      assert ClosesAt(row, steps, |before|);
    }
  }

  lemma VerdictsGrow(row: Row, before: seq<Step>, step: Step, i: nat)
    ensures TaskVerdicts(row, before + [step], i) ==
            TaskVerdicts(row, before, i) + TaskTold(Run(row, before), step, i)
  {
    assert (before + [step])[..|before|] == before;
  }

  lemma NewTask(row: Row, before: seq<Step>, step: Step, i: nat)
    requires |Run(row, before).tasks| <= i < |Next(Run(row, before), step).tasks|
    ensures TaskTold(Run(row, before), step, i) == [] && TaskVerdicts(row, before, i) == []
    ensures Next(Run(row, before), step).tasks[i] == Waiting && Count(Next(Run(row, before), step).started, i) == 0
  {
    PostsFollowReports(row, before);
    CountAbsent(Run(row, before).started, i);
    NothingToldYet(row, before, i);
  }

  lemma TriedSoFar(row: Row, before: seq<Step>, step: Step, i: nat)
    requires i < |Next(Run(row, before), step).tasks|
    requires Possible(Run(row, before), step) ==> !step.Close?
    requires i < |Run(row, before).tasks| ==>
               TaskFollows(Run(row, before).tasks[i], TaskVerdicts(row, before, i), Count(Run(row, before).started, i))
    ensures var s, after := Run(row, before), Next(Run(row, before), step);
            TaskFollows(after.tasks[i], TaskVerdicts(row, before, i) + TaskTold(s, step, i), Count(after.started, i))
  {
    var s, verdicts := Run(row, before), TaskVerdicts(row, before, i);
    if i >= |s.tasks| {
      NewTask(row, before, step, i);
    } else if Possible(s, step) {
      TaskTakes(s, step, i, verdicts);
    } else {
      assert verdicts + [] == verdicts;
    }
  }

  /** For every interleaving up to the cancelling: a delivery that is over was accepted, or was
      refused, timed out or raised twice; one that is not has a POST to come or in flight. */
  lemma {:induction false} TriedTwice(row: Row, steps: seq<Step>, i: nat)
    requires i < |Run(row, steps).tasks| && !Closed(row, steps)
    ensures TaskFollows(Run(row, steps).tasks[i], TaskVerdicts(row, steps, i), Count(Run(row, steps).started, i))
  {
    var before, step := steps[..|steps| - 1], steps[|steps| - 1];
    assert steps == before + [step];
    ClosedStays(row, before, step);
    VerdictsGrow(row, before, step, i);
    if i < |Run(row, before).tasks| {
      TriedTwice(row, before, i);
    }
    TriedSoFar(row, before, step, i);
  }

  lemma {:induction false} NothingToldYet(row: Row, steps: seq<Step>, i: nat)
    requires |Run(row, steps).tasks| <= i
    ensures TaskVerdicts(row, steps, i) == []
  {
    if steps != [] {
      NothingToldYet(row, steps[..|steps| - 1], i);
    }
  }

  /** The terminal callback that was asked for. */
  function Asked(row: Row, steps: seq<Step>): Option<Body> {
    if steps == [] then None
    else
      var before, step := steps[..|steps| - 1], steps[|steps| - 1];
      if step.AskTerminal? && Possible(Run(row, before), step) then Some(step.body) else Asked(row, before)
  }

  function TerminalTold(s: Sys, step: Step): seq<TerminalDelivery.Verdict>
    requires |s.bodies| == |s.tasks|
  {
    if !Possible(s, step) then []
    else
      match step
      case TerminalAnswered =>
        if Accepts(s, s.terminal.body) then [TerminalDelivery.Delivered] else [TerminalDelivery.Refused]
      case TerminalGivenUp => [TerminalDelivery.Unanswered]
      case _ => []
  }

  function TerminalVerdicts(row: Row, steps: seq<Step>): seq<TerminalDelivery.Verdict> {
    if steps == [] then []
    else
      var before := steps[..|steps| - 1];
      TerminalVerdicts(row, before) + TerminalTold(Run(row, before), steps[|steps| - 1])
  }

  /** Each verdict is one after which the callback is sent again. */
  predicate AllAskAgain(completed: bool, verdicts: seq<TerminalDelivery.Verdict>) {
    forall k :: 0 <= k < |verdicts| ==> TerminalDelivery.AsksAgain(completed, k, verdicts[k])
  }

  /** The terminal callback is over at the first verdict after which it is not sent again. */
  predicate TerminalFollows(t: Terminal, asked: Option<Body>, verdicts: seq<TerminalDelivery.Verdict>) {
    match t
    case NotAsked => asked == None && verdicts == []
    case Holding(body) => asked == Some(body) && verdicts == []
    case Sending(body, attempt, round) =>
      && asked == Some(body) && 1 <= attempt <= 2 && 1 <= round <= 3
      && |verdicts| == 2 * (round - 1) + (attempt - 1) && AllAskAgain(body.phase == Completed, verdicts)
    case Over =>
      && asked.Some? && verdicts != []
      && var last := |verdicts| - 1; var completed := asked.value.phase == Completed;
         AllAskAgain(completed, verdicts[..last]) && !TerminalDelivery.AsksAgain(completed, last, verdicts[last])
  }

  /** The terminal callback after a verdict on its POST. */
  function TerminalAfter(t: Terminal, verdict: TerminalDelivery.Verdict): Terminal
    requires t.Sending?
  {
    if verdict == TerminalDelivery.Delivered then Over else TerminalRetried(t, verdict == TerminalDelivery.Refused)
  }

  lemma TerminalVerdictTaken(t: Terminal, asked: Option<Body>, verdicts: seq<TerminalDelivery.Verdict>,
                             verdict: TerminalDelivery.Verdict)
    requires t.Sending? && TerminalFollows(t, asked, verdicts)
    ensures TerminalFollows(TerminalAfter(t, verdict), asked, verdicts + [verdict])
  {
    var more := verdicts + [verdict];
    assert more[..|verdicts|] == verdicts;
    assert |verdicts| % 2 == t.attempt - 1;
  }

  lemma TerminalMoves(s: Sys, step: Step)
    requires |s.bodies| == |s.tasks| && Possible(s, step)
    ensures var after, told := Next(s, step).terminal, TerminalTold(s, step);
            && (told != [] ==> s.terminal.Sending? && |told| == 1 && after == TerminalAfter(s.terminal, told[0]))
            && (told == [] ==>
                  match step
                  case AskTerminal(body) => s.terminal.NotAsked? && after == Holding(body)
                  case TerminalBegins(_) => s.terminal.Holding? && after == Sending(s.terminal.body, 1, 1)
                  case _ => after == s.terminal)
            && (told != [] ==> !step.AskTerminal?)
  {
  }

  lemma TerminalTakes(s: Sys, step: Step, asked: Option<Body>, verdicts: seq<TerminalDelivery.Verdict>)
    requires |s.bodies| == |s.tasks| && TerminalFollows(s.terminal, asked, verdicts) && Possible(s, step)
    ensures TerminalFollows(Next(s, step).terminal, if step.AskTerminal? then Some(step.body) else asked,
                            verdicts + TerminalTold(s, step))
  {
    TerminalMoves(s, step);
    var told := TerminalTold(s, step);
    if told == [] {
      assert verdicts + told == verdicts;
    } else {
      TerminalVerdictTaken(s.terminal, asked, verdicts, told[0]);
      assert told == [told[0]];
    }
  }

  /** For every interleaving: the terminal callback is posted again exactly after the verdicts
      that ask for it, twice in a round and, for `completed`, in up to two more rounds after a
      refusal, and is over with the first that does not. */
  lemma {:induction false} TerminalIsTriedOn(row: Row, steps: seq<Step>)
    ensures TerminalFollows(Run(row, steps).terminal, Asked(row, steps), TerminalVerdicts(row, steps))
  {
    if steps != [] {
      var before, step := steps[..|steps| - 1], steps[|steps| - 1];
      TerminalIsTriedOn(row, before);
      if Possible(Run(row, before), step) {
        TerminalTakes(Run(row, before), step, Asked(row, before), TerminalVerdicts(row, before));
      }
    }
  }

  // --- what is on its way ---

  /** The requests a step leaves on their way with nobody waiting for them. */
  function LeftBehind(s: Sys, step: Step): multiset<Body>
    requires |s.bodies| == |s.tasks|
  {
    if !Possible(s, step) then multiset{}
    else
      match step
      case GivenUp(i) => multiset{s.bodies[i]}
      case TerminalGivenUp => multiset{s.terminal.body}
      case Close => multiset(InFlight(s.bodies, s.tasks))
      case _ => multiset{}
  }

  function HandledLate(s: Sys, step: Step): multiset<Body> {
    if step.StrayHandled? && Possible(s, step) then multiset{s.stray[step.k]} else multiset{}
  }

  function AllLeftBehind(row: Row, steps: seq<Step>): multiset<Body> {
    if steps == [] then multiset{}
    else
      AllLeftBehind(row, steps[..|steps| - 1]) + LeftBehind(Run(row, steps[..|steps| - 1]), steps[|steps| - 1])
  }

  function AllHandledLate(row: Row, steps: seq<Step>): multiset<Body> {
    if steps == [] then multiset{}
    else
      AllHandledLate(row, steps[..|steps| - 1]) + HandledLate(Run(row, steps[..|steps| - 1]), steps[|steps| - 1])
  }

  lemma WithoutOne(stray: seq<Body>, k: nat)
    requires k < |stray|
    ensures multiset(stray[..k] + stray[k + 1..]) + multiset{stray[k]} == multiset(stray)
  {
    assert stray == stray[..k] + [stray[k]] + stray[k + 1..];
  }

  lemma StepConserves(s: Sys, step: Step)
    requires |s.bodies| == |s.tasks|
    ensures multiset(Next(s, step).stray) + HandledLate(s, step) == multiset(s.stray) + LeftBehind(s, step)
  {
    if step.StrayHandled? && Possible(s, step) {
      WithoutOne(s.stray, step.k);
    }
  }

  lemma Balance<T>(a: multiset<T>, b: multiset<T>, c: multiset<T>, d: multiset<T>, e: multiset<T>, f: multiset<T>)
    requires a + b == c && d + e == a + f
    ensures d + (b + e) == c + f
  {
    assert d + (b + e) == (d + e) + b;
    assert (a + f) + b == (a + b) + f;
  }

  /** A request is never lost: what was given up on or cancelled is on its way until the app
      handles it, once. */
  lemma {:induction false} RequestsAreConserved(row: Row, steps: seq<Step>)
    ensures multiset(Run(row, steps).stray) + AllHandledLate(row, steps) == AllLeftBehind(row, steps)
  {
    if steps != [] {
      var before, step := steps[..|steps| - 1], steps[|steps| - 1];
      var s, after := Run(row, before), Run(row, steps);
      RequestsAreConserved(row, before);
      StepConserves(s, step);
      Balance(multiset(s.stray), AllHandledLate(row, before), AllLeftBehind(row, before),
              multiset(after.stray), HandledLate(s, step), LeftBehind(s, step));
    }
  }

  lemma {:induction false} FlightOf(bodies: seq<Body>, tasks: seq<Task>)
    requires |bodies| == |tasks| && OneAtATime(tasks)
    ensures forall i :: 0 <= i < |tasks| && tasks[i].Posting? ==> InFlight(bodies, tasks) == [bodies[i]]
    ensures (forall i :: 0 <= i < |tasks| ==> !tasks[i].Posting?) ==> InFlight(bodies, tasks) == []
  {
    if tasks != [] {
      FlightOf(bodies[..|bodies| - 1], tasks[..|tasks| - 1]);
      assert forall i :: 0 <= i < |tasks| - 1 ==> tasks[..|tasks| - 1][i] == tasks[i];
    }
  }

  /** At most one scheduled request is in flight, and cancelling leaves that one behind. */
  lemma ClosingLeavesTheOneInFlight(row: Row, steps: seq<Step>)
    ensures var s := Run(row, steps);
            && (forall i :: 0 <= i < |s.tasks| && s.tasks[i].Posting? ==> InFlight(s.bodies, s.tasks) == [s.bodies[i]])
            && ((forall i :: 0 <= i < |s.tasks| ==> !s.tasks[i].Posting?) ==> InFlight(s.bodies, s.tasks) == [])
  {
    PostsFollowReports(row, steps);
    FlightOf(Run(row, steps).bodies, Run(row, steps).tasks);
  }

  lemma {:induction false} FirstUnsettled(s: Sys, n: nat) returns (i: nat)
    requires n < |s.tasks| && !s.tasks[n].Settled?
    ensures i < |s.tasks| && !s.tasks[i].Settled? && (i == 0 || s.tasks[i - 1].Settled?)
  {
    i := n;
    if n > 0 && !s.tasks[n - 1].Settled? {
      i := FirstUnsettled(s, n - 1);
    }
  }

  /** Nothing waits for good: a delivery that is not over can begin or is in flight, and so it is
      with the terminal callback when the deliveries are over, or the budget is. */
  lemma DeliveriesGoOn(row: Row, steps: seq<Step>)
    ensures var s := Run(row, steps);
            && (AllSettled(s) || exists i :: Possible(s, Begin(i)) || Possible(s, Answered(i)))
            && (s.terminal.Holding? ==>
                  Possible(s, TerminalBegins(true)) && (AllSettled(s) ==> Possible(s, TerminalBegins(false))))
            && (s.terminal.Sending? ==> Possible(s, TerminalAnswered) && Possible(s, TerminalGivenUp))
            && (s.terminal.Over? ==> Possible(s, Close))
  {
    var s := Run(row, steps);
    if n: nat :| n < |s.tasks| && !s.tasks[n].Settled? {
      var i := FirstUnsettled(s, n);
      assert Possible(s, Begin(i)) || Possible(s, Answered(i));
    }
  }

  /** The row's endpoint sees the proof exactly from the moment it is stored. */
  lemma {:induction false} ProofIsStored(row: Row, steps: seq<Step>)
    ensures Run(row, steps).proofStored <==> StoreProof in steps
  {
    if steps != [] {
      ProofIsStored(row, steps[..|steps| - 1]);
      assert steps == steps[..|steps| - 1] + [steps[|steps| - 1]];
    }
  }

  // --- the row ---

  lemma StepMovesForward(s: Sys, step: Step)
    requires |s.bodies| == |s.tasks|
    ensures var after := Next(s, step).row;
            && Rank(s.row.status) <= Rank(after.status)
            && (after.status == s.row.status || after.status in Driven(s.row.status))
  {
    if Possible(s, step) {
      match step {
        case Answered(i) => OneStepAlongTheChain(s.row, s.proofStored, s.bodies[i]);
        case StrayHandled(k) => OneStepAlongTheChain(s.row, s.proofStored, s.stray[k]);
        case TerminalAnswered => OneStepAlongTheChain(s.row, s.proofStored, s.terminal.body);
        case _ =>
      }
    }
  }

  /** For every interleaving, with requests that take effect after the agent gave up on them
      included: the row's phase never goes back. */
  lemma {:induction false} RowNeverGoesBack(row: Row, steps: seq<Step>, k: nat)
    requires k <= |steps|
    ensures Rank(Run(row, steps[..k]).row.status) <= Rank(Run(row, steps).row.status)
    decreases |steps|
  {
    if k < |steps| {
      var n := |steps| - 1;
      RowNeverGoesBack(row, steps[..n], k);
      assert steps[..n][..k] == steps[..k];
      StepMovesForward(Run(row, steps[..n]), steps[n]);
    } else {
      assert steps[..k] == steps;
    }
  }

  lemma RunAppend(row: Row, steps: seq<Step>, step: Step)
    ensures Run(row, steps + [step]) == Next(Run(row, steps), step)
  {
    assert (steps + [step])[..|steps|] == steps;
  }

  // --- when a run completes ---

  /** The body the app handles in a step, if it handles one. */
  function HandledBody(s: Sys, step: Step): Option<Body>
    requires |s.bodies| == |s.tasks| && Possible(s, step)
  {
    match step
    case Answered(i) => Some(s.bodies[i])
    case StrayHandled(k) => Some(s.stray[k])
    case TerminalAnswered => Some(s.terminal.body)
    case _ => None
  }

  /** The app handles a `completed` callback while the row takes one. */
  predicate Lands(s: Sys, step: Step)
    requires |s.bodies| == |s.tasks|
  {
    && Possible(s, step) && HandledBody(s, step).Some?
    && AsksCompletion(HandledBody(s, step).value) && TakesCompletion(s.row, s.proofStored)
  }

  lemma StepCompletes(s: Sys, step: Step)
    requires |s.bodies| == |s.tasks| && s.row.status != Completed
    ensures Next(s, step).row.status == Completed <==> Lands(s, step)
    ensures Lands(s, step) ==> Next(s, step).visited == s.visited + [Completed]
  {
    if Possible(s, step) && HandledBody(s, step).Some? {
      RunRow.CompletesExactlyWhen(s.row, s.proofStored, HandledBody(s, step).value);
    }
  }

  lemma CompletedStays(s: Sys, step: Step)
    requires |s.bodies| == |s.tasks| && s.row.status == Completed
    ensures Next(s, step).row == s.row && Next(s, step).visited == s.visited
  {
  }

  predicate LandsAt(row: Row, steps: seq<Step>, k: nat)
    requires k < |steps|
  {
    Lands(Run(row, steps[..k]), steps[k])
  }

  /** For every run, with requests lost, late or handled after they were given up on: the row
      completes exactly when a `completed` callback is handled while the row stands at
      `collecting`, or at `verifying` with the proof stored. That happens at most once, and
      nothing is accepted after it. */
  lemma {:induction false} CompletesExactlyWhen(row: Row, steps: seq<Step>)
    requires row.status != Completed
    ensures Run(row, steps).row.status == Completed <==> exists k :: 0 <= k < |steps| && LandsAt(row, steps, k)
    ensures forall k :: 0 <= k < |steps| && LandsAt(row, steps, k) ==>
              Run(row, steps).visited == Run(row, steps[..k]).visited + [Completed]
  {
    if steps != [] {
      var n := |steps| - 1;
      CompletesExactlyWhen(row, steps[..n]);
      assert steps == steps[..n] + [steps[n]];
      if Run(row, steps[..n]).row.status == Completed {
        AfterCompletion(row, steps[..n], steps[n]);
      } else {
        UpToCompletion(row, steps[..n], steps[n]);
      }
    }
  }

  lemma LandsBefore(row: Row, steps: seq<Step>, step: Step, k: nat)
    requires k < |steps|
    ensures LandsAt(row, steps + [step], k) <==> LandsAt(row, steps, k)
    ensures (steps + [step])[..k] == steps[..k]
  {
    assert (steps + [step])[..k] == steps[..k];
  }

  lemma AfterCompletion(row: Row, steps: seq<Step>, step: Step)
    requires Run(row, steps).row.status == Completed
    requires exists k :: 0 <= k < |steps| && LandsAt(row, steps, k)
    requires forall k :: 0 <= k < |steps| && LandsAt(row, steps, k) ==>
               Run(row, steps).visited == Run(row, steps[..k]).visited + [Completed]
    ensures Run(row, steps + [step]).row.status == Completed
    ensures exists k :: 0 <= k < |steps + [step]| && LandsAt(row, steps + [step], k)
    ensures forall k :: 0 <= k < |steps + [step]| && LandsAt(row, steps + [step], k) ==>
              Run(row, steps + [step]).visited == Run(row, (steps + [step])[..k]).visited + [Completed]
  {
    var all := steps + [step];
    RunAppend(row, steps, step);
    CompletedStays(Run(row, steps), step);
    assert all[..|steps|] == steps;
    var k :| 0 <= k < |steps| && LandsAt(row, steps, k);
    LandsBefore(row, steps, step, k);
    forall j | 0 <= j < |all| && LandsAt(row, all, j)
      ensures Run(row, all).visited == Run(row, all[..j]).visited + [Completed]
    {
      assert j < |steps|;
      LandsBefore(row, steps, step, j);
    }
  }

  lemma UpToCompletion(row: Row, steps: seq<Step>, step: Step)
    requires Run(row, steps).row.status != Completed
    requires forall k :: 0 <= k < |steps| ==> !LandsAt(row, steps, k)
    ensures Run(row, steps + [step]).row.status == Completed <==> LandsAt(row, steps + [step], |steps|)
    ensures forall k :: 0 <= k < |steps| ==> !LandsAt(row, steps + [step], k)
    ensures LandsAt(row, steps + [step], |steps|) ==>
              Run(row, steps + [step]).visited == Run(row, (steps + [step])[..|steps|]).visited + [Completed]
  {
    RunAppend(row, steps, step);
    StepCompletes(Run(row, steps), step);
    assert (steps + [step])[..|steps|] == steps;
    forall k | 0 <= k < |steps|
      ensures !LandsAt(row, steps + [step], k)
    {
      LandsBefore(row, steps, step, k);
    }
  }

  // --- which hops were taken ---

  /** A row that is not terminal was at every phase between its first and its present one, at no
      later one, and stands at the last phase it took. */
  ghost predicate Visits(start: Status, status: Status, visited: seq<Status>) {
    && Rank(start) <= Rank(status)
    && (forall phase :: Rank(start) < Rank(phase) <= Rank(status) ==> phase in visited)
    && (forall k :: 0 <= k < |visited| ==> Rank(visited[k]) <= Rank(status))
    && status == if visited == [] then start else visited[|visited| - 1]
  }

  lemma StepHandles(s: Sys, step: Step)
    requires |s.bodies| == |s.tasks|
    ensures var after := Next(s, step);
            if Possible(s, step) && HandledBody(s, step).Some? then
              var handled := Handled(s, HandledBody(s, step).value);
              after.row == handled.row && after.visited == handled.visited
            else after.row == s.row && after.visited == s.visited
  {
  }

  lemma StepVisits(start: Status, s: Sys, step: Step)
    requires |s.bodies| == |s.tasks| && Visits(start, s.row.status, s.visited)
    requires !IsTerminal(Next(s, step).row.status)
    ensures Visits(start, Next(s, step).row.status, Next(s, step).visited)
  {
    StepHandles(s, step);
    if Possible(s, step) && HandledBody(s, step).Some? {
      HandlingVisits(start, s, HandledBody(s, step).value);
    }
  }

  lemma HandlingVisits(start: Status, s: Sys, body: Body)
    requires Visits(start, s.row.status, s.visited) && !IsTerminal(Handled(s, body).row.status)
    ensures Visits(start, Handled(s, body).row.status, Handled(s, body).visited)
  {
    OneStepAlongTheChain(s.row, s.proofStored, body);
    var answer := Receive(s.row, s.proofStored, body);
    if answer.accepted {
      OneMoreVisit(start, s.row.status, s.visited, answer.row.status);
    } else {
      assert Handled(s, body).visited == s.visited;
    }
  }

  lemma OneMoreVisit(start: Status, status: Status, visited: seq<Status>, next: Status)
    requires Visits(start, status, visited) && !IsTerminal(next)
    requires next == status || next in Driven(status)
    ensures Visits(start, next, visited + [next])
  {
    var more := visited + [next];
    assert more[|visited|] == next;
    assert forall k :: 0 <= k < |visited| ==> more[k] == visited[k];
    NextRank(status, next);
    assert Rank(status) <= Rank(next);
    forall phase | Rank(start) < Rank(phase) <= Rank(next)
      ensures phase in more
    {
      SameRank(phase, next);
      if Rank(phase) <= Rank(status) {
        assert phase in visited;
      }
    }
  }

  lemma {:induction false} RunVisits(row: Row, steps: seq<Step>)
    requires !IsTerminal(Run(row, steps).row.status)
    ensures Visits(row.status, Run(row, steps).row.status, Run(row, steps).visited)
  {
    if steps != [] {
      var n := |steps| - 1;
      StepMovesForward(Run(row, steps[..n]), steps[n]);
      RunVisits(row, steps[..n]);
      StepVisits(row.status, Run(row, steps[..n]), steps[n]);
    }
  }

  /** A claimed run that completes either passed through every phase of the document, its proof
      stored, or through none of them: the document's hops are skipped exactly when the
      `completed` callback found the row at `collecting`. */
  lemma HopsAreSkippedExactlyWhen(row: Row, steps: seq<Step>, k: nat)
    requires row.status == Claimed && k < |steps| && LandsAt(row, steps, k)
    ensures var before, visited := Run(row, steps[..k]), Run(row, steps).visited;
            && (before.row.status == Verifying || before.row.status == Collecting)
            && (before.row.status == Verifying ==>
                  && before.proofStored
                  && Collecting in visited && Compiling in visited && Rendering in visited && Verifying in visited)
            && (before.row.status == Collecting ==>
                  Collecting in visited && Compiling !in visited && Rendering !in visited && Verifying !in visited)
  {
    var before := Run(row, steps[..k]);
    RunVisits(row, steps[..k]);
    CompletesExactlyWhen(row, steps);
    AllOrNone(before.row.status, before.visited, Run(row, steps).visited);
  }

  lemma AllOrNone(status: Status, before: seq<Status>, visited: seq<Status>)
    requires Visits(Claimed, status, before) && visited == before + [Completed]
    ensures status == Verifying ==> forall phase :: 2 <= Rank(phase) <= 5 ==> phase in visited
    ensures status == Collecting ==> Collecting in visited
    ensures status == Collecting ==> Compiling !in visited && Rendering !in visited && Verifying !in visited
  {
    assert forall phase :: phase in visited <==> phase in before || phase == Completed;
    assert forall phase :: phase in before ==> Rank(phase) <= Rank(status);
  }

  // --- when every callback is answered ---

  /** The phase the run was last reported in. */
  function LastReported(start: Status, bodies: seq<Body>): Status {
    if bodies == [] then start else bodies[|bodies| - 1].phase
  }

  predicate IsSound(body: Body) {
    Parses(body) && body.errorCode.None?
  }

  /** The phases are reported along the chain, a phase as often as its count moves, the terminal
      callback is a `completed` one, and every POST is answered. */
  predicate IsAnswered(start: Status, s: Sys, step: Step) {
    match step
    case Report(body) => IsSound(body) && body.phase in AcceptedTargets(LastReported(start, s.bodies))
    case AskTerminal(body) => IsSound(body) && body.phase == Completed
    case GivenUp(_) => false
    case StrayHandled(_) => false
    case TerminalGivenUp => false
    case _ => true
  }

  predicate AnsweredAt(row: Row, steps: seq<Step>, k: nat)
    requires k < |steps|
  {
    Possible(Run(row, steps[..k]), steps[k]) ==> IsAnswered(row.status, Run(row, steps[..k]), steps[k])
  }

  ghost predicate AnsweredRun(row: Row, steps: seq<Step>) {
    forall k :: 0 <= k < |steps| ==> AnsweredAt(row, steps, k)
  }

  function Phases(bodies: seq<Body>): (r: seq<Status>)
    ensures |r| == |bodies| && forall k :: 0 <= k < |r| ==> r[k] == bodies[k].phase
  {
    seq(|bodies|, i requires 0 <= i < |bodies| => bodies[i].phase)
  }

  predicate Linked(start: Status, bodies: seq<Body>, k: nat)
    requires k < |bodies|
  {
    && IsSound(bodies[k]) && !IsTerminal(bodies[k].phase)
    && bodies[k].phase in AcceptedTargets(if k == 0 then start else bodies[k - 1].phase)
  }

  /** Each body is on the chain from the one before it. */
  predicate OnTheChain(start: Status, bodies: seq<Body>) {
    forall k :: 0 <= k < |bodies| ==> Linked(start, bodies, k)
  }

  lemma ChainUnfolds(start: Status, bodies: seq<Body>, body: Body)
    ensures OnTheChain(start, bodies + [body]) <==>
            && OnTheChain(start, bodies)
            && IsSound(body) && !IsTerminal(body.phase) && body.phase in AcceptedTargets(LastReported(start, bodies))
  {
    var all := bodies + [body];
    if OnTheChain(start, all) {
      forall k | 0 <= k < |bodies|
        ensures Linked(start, bodies, k)
      {
        assert Linked(start, all, k);
      }
      assert Linked(start, all, |bodies|);
    } else {
      var k :| 0 <= k < |all| && !Linked(start, all, k);
      assert k < |bodies| ==> !Linked(start, bodies, k);
    }
  }

  predicate IsNext(tasks: seq<Task>, f: nat) {
    && (forall j :: f < j < |tasks| ==> tasks[j].Waiting?)
    && (f < |tasks| ==> tasks[f] == Waiting || tasks[f] == Posting(1))
  }

  /** The tasks before `f` are over, and `f` is next unless everything was cancelled. */
  predicate InTurn(s: Sys, f: nat) {
    && f <= |s.tasks|
    && (forall j :: 0 <= j < f ==> s.tasks[j].Settled?)
    && ((s.terminal.Over? && AllSettled(s)) || IsNext(s.tasks, f))
  }

  /** The row stands at the `f`-th reported callback, having taken them one by one. */
  predicate Stands(start: Status, s: Sys, f: nat) {
    && InTurn(s, f) && f <= |s.bodies|
    && s.row.status == LastReported(start, s.bodies[..f]) && s.visited == Phases(s.bodies[..f])
    && (s.terminal.Holding? || s.terminal.Sending? ==> IsSound(s.terminal.body) && s.terminal.body.phase == Completed)
  }

  /** The run completed from the `f`-th reported callback. */
  predicate Landed(s: Sys, f: nat) {
    && s.terminal.Over? && s.row.status == Completed
    && f <= |s.bodies| && s.visited == Phases(s.bodies[..f]) + [Completed]
  }

  lemma ReportExtends(start: Status, s: Sys, f: nat, body: Body)
    requires |s.bodies| == |s.tasks| && OnTheChain(start, s.bodies) && Stands(start, s, f)
    requires Possible(s, Report(body)) && IsAnswered(start, s, Report(body))
    ensures OnTheChain(start, Do(s, Report(body)).bodies) && Stands(start, Do(s, Report(body)), f)
  {
    ChainUnfolds(start, s.bodies, body);
    assert (s.bodies + [body])[..f] == s.bodies[..f];
  }

  lemma BeginIsNext(s: Sys, f: nat, i: nat)
    requires InTurn(s, f) && i < |s.tasks| && s.tasks[i].Waiting? && (i == 0 || s.tasks[i - 1].Settled?)
    ensures i == f && InTurn(s.(tasks := s.tasks[i := Posting(1)]), f)
  {
  }

  lemma BeginStands(start: Status, s: Sys, f: nat, i: nat)
    requires |s.bodies| == |s.tasks| && Stands(start, s, f) && Possible(s, Begin(i))
    ensures Stands(start, Do(s, Begin(i)), f)
  {
    BeginIsNext(s, f, i);
  }

  lemma PostingIsNext(s: Sys, f: nat, i: nat)
    requires InTurn(s, f) && i < |s.tasks| && s.tasks[i].Posting?
    ensures i == f
  {
  }

  lemma AnswerAccepts(start: Status, s: Sys, f: nat)
    requires |s.bodies| == |s.tasks| && OnTheChain(start, s.bodies) && Stands(start, s, f)
    requires f < |s.tasks| && s.tasks[f].Posting?
    ensures Accepts(s, s.bodies[f]) && Stands(start, Do(s, Answered(f)), f + 1)
  {
    var body := s.bodies[f];
    assert Linked(start, s.bodies, f);
    assert f > 0 ==> s.bodies[..f][f - 1] == s.bodies[f - 1];
    assert body.phase in AcceptedTargets(s.row.status);
    assert s.bodies[..f + 1] == s.bodies[..f] + [body];
    assert Receive(s.row, s.proofStored, body).row.status == body.phase;
  }

  lemma TerminalIsHandled(start: Status, s: Sys, f: nat)
    requires |s.bodies| == |s.tasks| && Stands(start, s, f) && s.terminal.Sending? && s.row.status != Completed
    ensures var after := Do(s, TerminalAnswered);
            if TakesCompletion(s.row, s.proofStored) then Landed(after, f) else Stands(start, after, f)
  {
    RunRow.CompletesExactlyWhen(s.row, s.proofStored, s.terminal.body);
    OneStepAlongTheChain(s.row, s.proofStored, s.terminal.body);
  }

  lemma CloseCancels(start: Status, s: Sys, f: nat)
    requires |s.bodies| == |s.tasks| && Stands(start, s, f) && s.terminal.Over?
    ensures Stands(start, Do(s, Close), f)
  {
  }

  lemma LandedStays(s: Sys, step: Step, f: nat)
    requires |s.bodies| == |s.tasks| && Landed(s, f)
    ensures Landed(Next(s, step), f)
  {
  }

  lemma AnsweredStep(start: Status, s: Sys, step: Step, f: nat) returns (g: nat)
    requires |s.bodies| == |s.tasks| && OnTheChain(start, s.bodies) && Stands(start, s, f)
    requires !IsTerminal(s.row.status) && Possible(s, step) && IsAnswered(start, s, step)
    ensures OnTheChain(start, Do(s, step).bodies)
    ensures Stands(start, Do(s, step), g) || Landed(Do(s, step), g)
  {
    g := f;
    match step {
      case Report(body) => ReportExtends(start, s, f, body);
      case Begin(i) => BeginStands(start, s, f, i);
      case Answered(i) =>
        PostingIsNext(s, f, i);
        AnswerAccepts(start, s, f);
        g := f + 1;
      case TerminalAnswered => TerminalIsHandled(start, s, f);
      case Close => CloseCancels(start, s, f);
      case _ =>
    }
  }

  lemma AnsweredPrefix(row: Row, steps: seq<Step>, n: nat)
    requires AnsweredRun(row, steps) && n <= |steps|
    ensures AnsweredRun(row, steps[..n])
  {
    forall k | 0 <= k < n
      ensures AnsweredAt(row, steps[..n], k)
    {
      assert steps[..n][..k] == steps[..k] && AnsweredAt(row, steps, k);
    }
  }

  /** The row of an answered run stands at one of the reported callbacks, or completed from
      one. */
  lemma {:induction false} AnsweredRunStands(row: Row, steps: seq<Step>) returns (f: nat)
    requires !IsTerminal(row.status) && AnsweredRun(row, steps)
    ensures var s := Run(row, steps);
            && OnTheChain(row.status, s.bodies)
            && (Landed(s, f) || (Stands(row.status, s, f) && !IsTerminal(s.row.status)))
  {
    f := 0;
    if steps != [] {
      var n := |steps| - 1;
      var s, step := Run(row, steps[..n]), steps[n];
      AnsweredPrefix(row, steps, n);
      f := AnsweredRunStands(row, steps[..n]);
      assert AnsweredAt(row, steps, n);
      if Landed(s, f) {
        LandedStays(s, step, f);
        StepAccumulates(s, step);
      } else if Possible(s, step) {
        f := AnsweredStep(row.status, s, step, f);
        if Stands(row.status, Do(s, step), f) {
          StandsOnTheChain(row.status, Do(s, step), f);
        }
      }
    }
  }

  lemma StandsOnTheChain(start: Status, s: Sys, f: nat)
    requires !IsTerminal(start) && OnTheChain(start, s.bodies) && Stands(start, s, f)
    ensures !IsTerminal(s.row.status)
  {
    if f > 0 {
      assert Linked(start, s.bodies, f - 1);
    }
  }

  /** How an answered run ends, whether or not the terminal callback waited its turn or found
      the proof stored: it completes exactly when a terminal POST is handled while the row
      stands at `collecting`, or at `verifying` with the proof stored. With `g` callbacks taken
      before that POST, the row passed through the first `g` reported phases in their order and
      then completed, so hops are skipped exactly when `g` is less than what was reported. */
  lemma AnsweredRunEnds(row: Row, steps: seq<Step>)
    requires !IsTerminal(row.status) && AnsweredRun(row, steps)
    ensures var s := Run(row, steps);
            && (s.row.status == Completed <==> exists k :: 0 <= k < |steps| && LandsAt(row, steps, k))
            && (s.row.status != Completed ==>
                  && |s.visited| <= |s.bodies| && s.visited == Phases(s.bodies[..|s.visited|])
                  && s.row.status == LastReported(row.status, s.bodies[..|s.visited|]))
    ensures forall k :: 0 <= k < |steps| && LandsAt(row, steps, k) ==> CompletesFrom(row, steps, k)
  {
    var f := AnsweredRunStands(row, steps);
    CompletesExactlyWhen(row, steps);
    forall k | 0 <= k < |steps| && LandsAt(row, steps, k)
      ensures CompletesFrom(row, steps, k)
    {
      LandingCompletes(row, steps, k);
    }
  }

  /** What the `k`-th step, a terminal POST that lands, makes of the run. */
  ghost predicate CompletesFrom(row: Row, steps: seq<Step>, k: nat)
    requires k < |steps|
  {
    var before, s := Run(row, steps[..k]), Run(row, steps);
    var g := |before.visited|;
    && steps[k].TerminalAnswered? && s.terminal.Over?
    && g <= |s.bodies| && before.row.status == LastReported(row.status, s.bodies[..g])
    && s.visited == Phases(s.bodies[..g]) + [Completed]
    && (s.visited == Phases(s.bodies) + [Completed] <==> g == |s.bodies|)
  }

  lemma LandingCompletes(row: Row, steps: seq<Step>, k: nat)
    requires !IsTerminal(row.status) && AnsweredRun(row, steps) && k < |steps| && LandsAt(row, steps, k)
    ensures CompletesFrom(row, steps, k)
  {
    var before, s := Run(row, steps[..k]), Run(row, steps);
    var g := |before.visited|;
    var f := AnsweredRunStands(row, steps);
    CompletesExactlyWhen(row, steps);
    assert Landed(s, f) by {
      assert s.row.status == Completed;
    }
    AnsweredPrefix(row, steps, k);
    var h := AnsweredRunStands(row, steps[..k]);
    assert h == g;
    ReportsAccumulate(row, steps, k);
    assert AnsweredAt(row, steps, k);
    OnlyTheTerminalLands(row.status, before, steps[k], g);
    assert s.bodies[..g] == before.bodies[..g];
    assert s.bodies[..|s.bodies|] == s.bodies;
  }

  lemma OnlyTheTerminalLands(start: Status, s: Sys, step: Step, f: nat)
    requires |s.bodies| == |s.tasks| && OnTheChain(start, s.bodies) && IsAnswered(start, s, step) && Lands(s, step)
    ensures step.TerminalAnswered?
  {
    forall i | 0 <= i < |s.bodies|
      ensures s.bodies[i].phase != Completed
    {
      assert Linked(start, s.bodies, i);
    }
  }

  /** No hop is skipped: a run claimed and reported along the chain up to `verifying` was
      reported in each phase between. */
  lemma {:induction false} ChainIsWhole(bodies: seq<Body>)
    requires OnTheChain(Claimed, bodies)
    ensures forall phase :: Rank(Claimed) < Rank(phase) <= Rank(LastReported(Claimed, bodies)) ==>
              phase in Phases(bodies)
  {
    if bodies != [] {
      var n := |bodies| - 1;
      assert bodies == bodies[..n] + [bodies[n]];
      ChainUnfolds(Claimed, bodies[..n], bodies[n]);
      ChainIsWhole(bodies[..n]);
      var before, last := LastReported(Claimed, bodies[..n]), bodies[n].phase;
      assert bodies[n].phase == last && !IsTerminal(last) && last in AcceptedTargets(before);
      NextRank(before, last);
      assert Phases(bodies) == Phases(bodies[..n]) + [last];
      forall phase | Rank(Claimed) < Rank(phase) <= Rank(last)
        ensures phase in Phases(bodies)
      {
        SameRank(phase, last);
        if Rank(phase) <= Rank(before) {
          assert phase in Phases(bodies[..n]);
        }
      }
    }
  }

  lemma NextRank(before: Status, last: Status)
    requires last in AcceptedTargets(before) && !IsTerminal(last)
    ensures Rank(last) <= Rank(before) + 1
  {
  }

  lemma SameRank(a: Status, b: Status)
    ensures Rank(a) == Rank(b) <==> a == b
  {
  }

  lemma StepAccumulates(s: Sys, step: Step)
    requires |s.bodies| == |s.tasks|
    ensures var after := Next(s, step);
            && s.bodies <= after.bodies
            && (!s.terminal.NotAsked? ==> !after.terminal.NotAsked? && after.bodies == s.bodies)
  {
  }

  /** Reports only add to what was reported, and none follows the terminal callback. */
  lemma {:induction false} ReportsAccumulate(row: Row, steps: seq<Step>, k: nat)
    requires k <= |steps|
    ensures var before, after := Run(row, steps[..k]), Run(row, steps);
            && before.bodies <= after.bodies
            && (!before.terminal.NotAsked? ==> !after.terminal.NotAsked? && after.bodies == before.bodies)
    decreases |steps|
  {
    if k < |steps| {
      var n := |steps| - 1;
      ReportsAccumulate(row, steps[..n], k);
      assert steps[..n][..k] == steps[..k];
      StepAccumulates(Run(row, steps[..n]), steps[n]);
    } else {
      assert steps[..k] == steps;
    }
  }

  // --- when nothing is late ---

  /** The terminal callback waits its turn, and the proof is stored before it is asked for. */
  predicate IsPrompt(start: Status, s: Sys, step: Step) {
    match step
    case AskTerminal(_) => s.proofStored && Completed in Driven(LastReported(start, s.bodies))
    case TerminalBegins(budgetOver) => !budgetOver
    case _ => true
  }

  predicate PromptAt(row: Row, steps: seq<Step>, k: nat)
    requires k < |steps|
  {
    Possible(Run(row, steps[..k]), steps[k]) ==> IsPrompt(row.status, Run(row, steps[..k]), steps[k])
  }

  ghost predicate PromptRun(row: Row, steps: seq<Step>) {
    forall k :: 0 <= k < |steps| ==> PromptAt(row, steps, k)
  }

  /** The terminal callback is sent only behind all others, and once over has landed. */
  predicate InGoodTime(start: Status, s: Sys) {
    && (!s.terminal.NotAsked? ==> s.proofStored && Completed in Driven(LastReported(start, s.bodies)))
    && (s.terminal.Sending? ==> AllSettled(s))
    && (s.terminal.Over? ==> s.row.status == Completed && s.visited == Phases(s.bodies) + [Completed])
  }

  lemma PromptStep(start: Status, s: Sys, step: Step, f: nat)
    requires |s.bodies| == |s.tasks| && Stands(start, s, f) && s.row.status != Completed && InGoodTime(start, s)
    requires Possible(s, step) && IsAnswered(start, s, step) && IsPrompt(start, s, step)
    ensures InGoodTime(start, Do(s, step))
  {
    match step {
      case TerminalAnswered =>
        assert s.bodies[..|s.bodies|] == s.bodies;
        TerminalIsHandled(start, s, f);
      case Answered(i) => StepMovesForward(s, step);
      case _ =>
    }
  }

  lemma LandedInGoodTime(start: Status, s: Sys, step: Step)
    requires |s.bodies| == |s.tasks| && s.terminal.Over? && InGoodTime(start, s)
    ensures InGoodTime(start, Next(s, step))
  {
    CompletedStays(s, step);
    StepAccumulates(s, step);
  }

  /** When nothing is late, no hop is skipped: the row passes through exactly the reported
      phases, in order, and ends completed. */
  lemma {:induction false} PromptRunCompletes(row: Row, steps: seq<Step>)
    requires !IsTerminal(row.status) && AnsweredRun(row, steps) && PromptRun(row, steps)
    ensures InGoodTime(row.status, Run(row, steps))
  {
    if steps != [] {
      var n := |steps| - 1;
      var s, step := Run(row, steps[..n]), steps[n];
      AnsweredPrefix(row, steps, n);
      forall k | 0 <= k < n
        ensures PromptAt(row, steps[..n], k)
      {
        assert steps[..n][..k] == steps[..k] && PromptAt(row, steps, k);
      }
      PromptRunCompletes(row, steps[..n]);
      assert AnsweredAt(row, steps, n) && PromptAt(row, steps, n);
      if s.terminal.Over? {
        LandedInGoodTime(row.status, s, step);
      } else if Possible(s, step) {
        var f := AnsweredRunStands(row, steps[..n]);
        PromptStep(row.status, s, step, f);
      }
    }
  }

  // --- two runs that complete a document without its proof ---

  lemma RunAppendTwo(row: Row, steps: seq<Step>, one: Step, two: Step)
    ensures Run(row, steps + [one, two]) == Next(Next(Run(row, steps), one), two)
  {
    RunAppend(row, steps, one);
    RunAppend(row, steps + [one], two);
    assert steps + [one, two] == steps + [one] + [two];
  }

  /** The first callback of a claimed run arrives. */
  lemma CollectingArrives(row: Row, c: Body)
    requires row.status == Claimed && IsSound(c) && c.phase == Collecting
    ensures var s := Next(Next(Next(Started(row), Report(c)), Begin(0)), Answered(0));
            && s.bodies == [c] && s.tasks == [Settled] && s.terminal == NotAsked
            && s.row.status == Collecting && s.visited == [Collecting] && !s.proofStored
  {
    var begun := Next(Next(Started(row), Report(c)), Begin(0));
    assert begun.bodies == [c] && begun.tasks == [Posting(1)] && begun.row == row;
    assert Receive(row, false, c).accepted;
  }

  lemma CollectingArrivedFirst(row: Row, c: Body, p: Body) returns (steps: seq<Step>)
    requires row.status == Claimed && IsSound(c) && c.phase == Collecting && p.phase == Compiling
    ensures steps == [] + [Report(c), Begin(0)] + [Answered(0), Report(p)]
    ensures var s := Run(row, steps);
            && s.bodies == [c, p] && s.tasks == [Settled, Waiting]
            && s.terminal == NotAsked && s.row.status == Collecting && s.visited == [Collecting] && !s.proofStored
  {
    var one := [] + [Report(c), Begin(0)];
    steps := one + [Answered(0), Report(p)];
    RunAppendTwo(row, [], Report(c), Begin(0));
    RunAppendTwo(row, one, Answered(0), Report(p));
    CollectingArrives(row, c);
  }

  lemma TwoReports(s: Sys, r: Body, v: Body)
    requires |s.bodies| == |s.tasks| && s.terminal.NotAsked?
    requires r.phase == Rendering && v.phase == Verifying
    ensures Next(Next(s, Report(r)), Report(v)) ==
            s.(bodies := s.bodies + [r] + [v], tasks := s.tasks + [Waiting] + [Waiting])
  {
  }

  /** Reported up to `verifying`, with only `collecting` delivered. */
  lemma OnlyCollectingArrived(row: Row, c: Body, p: Body, r: Body, v: Body) returns (steps: seq<Step>)
    requires row.status == Claimed && IsSound(c) && c.phase == Collecting
    requires p.phase == Compiling && r.phase == Rendering && v.phase == Verifying
    ensures steps == [] + [Report(c), Begin(0)] + [Answered(0), Report(p)] + [Report(r), Report(v)]
    ensures var s := Run(row, steps);
            && s.bodies == [c, p, r, v] && s.tasks == [Settled, Waiting, Waiting, Waiting]
            && s.terminal == NotAsked && s.row.status == Collecting && s.visited == [Collecting] && !s.proofStored
  {
    var two := CollectingArrivedFirst(row, c, p);
    steps := two + [Report(r), Report(v)];
    RunAppendTwo(row, two, Report(r), Report(v));
    TwoReports(Run(row, two), r, v);
  }

  /** The app answers every POST, but slowly: the ordering budget is over before `compiling` is
      sent, and the endpoint takes `completed` at `collecting` without asking for the proof. */
  lemma BudgetSkipsTheDocument(row: Row, c: Body, p: Body, r: Body, v: Body, t: Body) returns (steps: seq<Step>)
    requires row.status == Claimed && IsSound(c) && c.phase == Collecting
    requires p.phase == Compiling && r.phase == Rendering && v.phase == Verifying
    requires IsSound(t) && t.phase == Completed
    ensures forall k :: 0 <= k < |steps| ==> !steps[k].GivenUp? && !steps[k].StrayHandled? && !steps[k].TerminalGivenUp?
    ensures var s := Run(row, steps);
            && s.bodies == [c, p, r, v]
            && s.row.status == Completed && s.visited == [Collecting, Completed] && !s.proofStored
  {
    var reported := OnlyCollectingArrived(row, c, p, r, v);
    steps := reported + [AskTerminal(t), TerminalBegins(true)] + [TerminalAnswered];
    TerminalLandsAtCollecting(row, reported, t, true);
  }

  /** The terminal callback waits its turn, but the two POSTs of `compiling` are lost: the row
      refuses the phases after it and then takes `completed` at `collecting`. */
  lemma LostCompilingSkipsTheProof(row: Row, c: Body, p: Body, r: Body, v: Body, t: Body) returns (steps: seq<Step>)
    requires row.status == Claimed && IsSound(c) && c.phase == Collecting
    requires p.phase == Compiling && r.phase == Rendering && v.phase == Verifying
    requires IsSound(t) && t.phase == Completed
    ensures TerminalBegins(true) !in steps
    ensures var s := Run(row, steps);
            && s.bodies == [c, p, r, v]
            && s.row.status == Completed && s.visited == [Collecting, Completed] && !s.proofStored
  {
    var reported := OnlyCollectingArrived(row, c, p, r, v);
    var third := LaterCallbacksFail(row, reported);
    steps := third + [AskTerminal(t), TerminalBegins(false)] + [TerminalAnswered];
    TerminalLandsAtCollecting(row, third, t, false);
  }

  lemma LaterCallbacksFail(row: Row, steps: seq<Step>) returns (more: seq<Step>)
    requires var s := Run(row, steps);
             && s.row.status == Collecting && s.tasks == [Settled, Waiting, Waiting, Waiting]
             && s.bodies[2].phase == Rendering && s.bodies[3].phase == Verifying
    requires TerminalBegins(true) !in steps
    ensures TerminalBegins(true) !in more
    ensures var s, after := Run(row, steps), Run(row, more);
            && AllSettled(after) && after.bodies == s.bodies && after.terminal == s.terminal
            && after.row == s.row && after.visited == s.visited && after.proofStored == s.proofStored
  {
    var lost := Attempted(row, steps, 1, GivenUp(1));
    RefusedAtCollecting(Run(row, lost), Run(row, lost).bodies[2]);
    var second := Attempted(row, lost, 2, Answered(2));
    RefusedAtCollecting(Run(row, second), Run(row, second).bodies[3]);
    more := Attempted(row, second, 3, Answered(3));
  }

  lemma RefusedAtCollecting(s: Sys, body: Body)
    requires s.row.status == Collecting && (body.phase == Rendering || body.phase == Verifying)
    ensures !Accepts(s, body)
  {
  }

  /** A terminal callback that begins and is answered at once, at `collecting`. */
  lemma TerminalLandsAtCollecting(row: Row, steps: seq<Step>, t: Body, budgetOver: bool)
    requires Run(row, steps).terminal.NotAsked? && Run(row, steps).row.status == Collecting
    requires IsSound(t) && t.phase == Completed && (budgetOver || AllSettled(Run(row, steps)))
    ensures var s := Run(row, steps);
            var after := Run(row, steps + [AskTerminal(t), TerminalBegins(budgetOver)] + [TerminalAnswered]);
            && after.bodies == s.bodies && after.proofStored == s.proofStored
            && after.row.status == Completed && after.visited == s.visited + [Completed]
  {
    RunAppendTwo(row, steps, AskTerminal(t), TerminalBegins(budgetOver));
    RunAppend(row, steps + [AskTerminal(t), TerminalBegins(budgetOver)], TerminalAnswered);
    RunRow.CompletesExactlyWhen(Run(row, steps).row, Run(row, steps).proofStored, t);
  }

  /** Both attempts of a delivery fail: given up on, or refused by the row as it stands. */
  lemma Attempted(row: Row, steps: seq<Step>, i: nat, failure: Step) returns (more: seq<Step>)
    requires var s := Run(row, steps);
             && i < |s.tasks| && s.tasks[i] == Waiting && (i == 0 || s.tasks[i - 1].Settled?)
             && (failure == GivenUp(i) || (failure == Answered(i) && !Accepts(s, s.bodies[i])))
    requires TerminalBegins(true) !in steps
    ensures TerminalBegins(true) !in more
    ensures var s, after := Run(row, steps), Run(row, more);
            && after.bodies == s.bodies && after.tasks == s.tasks[i := Settled] && after.terminal == s.terminal
            && after.row == s.row && after.visited == s.visited && after.proofStored == s.proofStored
  {
    more := steps + [Begin(i), failure] + [failure];
    RunAppendTwo(row, steps, Begin(i), failure);
    RunAppend(row, steps + [Begin(i), failure], failure);
    var s := Run(row, steps);
    var once := Next(Next(s, Begin(i)), failure);
    assert once.tasks == s.tasks[i := Posting(2)];
    assert s.tasks[i := Posting(2)][i := Settled] == s.tasks[i := Settled];
  }
}
