/** The live view of a run: a fold over a stream whose events may be replayed or reordered.

    Models `isTerminal`, `phaseFromEventId`, `advances`, `applyEvent` and the state changes of
    `onmessage` (app/hooks/useRunStream.ts), between two reads of the run's row. */
module RunStream {
  import opened Options
  import opened RunStatus

  // --- statuses ---

  /** The position in `RUN_PHASE_ORDER`, which holds every status but `failed`; `indexOf` is
      -1 for that one. */
  function Rank(status: Status): int {
    match status
    case Queued => 0
    case Claimed => 1
    case Collecting => 2
    case Compiling => 3
    case Rendering => 4
    case Verifying => 5
    case Completed => 6
    case Failed => -1
  }

  function PhaseFromEventId(id: Option<string>): Option<Status> {
    if id == Some("queued") then Some(Queued)
    else if id == Some("claimed") then Some(Claimed)
    else if id == Some("collecting") then Some(Collecting)
    else if id == Some("compiling") then Some(Compiling)
    else if id == Some("rendering") then Some(Rendering)
    else if id == Some("verifying") then Some(Verifying)
    else if id == Some("completed") then Some(Completed)
    else None
  }

  predicate Advances(current: Status, next: Status) {
    !IsTerminal(current) && Rank(next) > Rank(current)
  }

  // --- steps ---

  datatype Progress = Progress(done: real, total: real, unit: string, badge: Option<string>)

  datatype Step = Step(
    id: string, name: string, badge: string, status: string, complete: bool, progress: Option<Progress>)

  /** A parsed frame. A field that is absent or of another type than the one read is `None`. */
  datatype Event = Event(
    kind: string, id: Option<string>, phase: Option<string>, name: Option<string>, badge: Option<string>,
    status: Option<string>, done: Option<real>, total: Option<real>, unit: Option<string>)

  /** `PHASE_TOOL_STEP[id]?.name` and `?.label`. */
  function PhaseStep(id: string): Option<(string, string)> {
    match PhaseFromEventId(Some(id))
    case Some(Queued) => Some(("collect_inventory", "Queued"))
    case Some(Claimed) => Some(("collect_inventory", "Starting"))
    case Some(Collecting) => Some(("collect_metrics", "Collecting"))
    case Some(Compiling) => Some(("compile_figures", "Compiling"))
    case Some(Rendering) => Some(("render_document", "Rendering"))
    case Some(Verifying) => Some(("verify_document", "Verifying"))
    case _ => None
  }

  function Opened(id: string, e: Event): Step {
    var (name, badge) := PhaseStep(id).UnwrapOr((id, id));
    Step(id, e.name.UnwrapOr(name), e.badge.UnwrapOr(badge), e.status.UnwrapOr("Working"), false, None)
  }

  function Refreshed(step: Step, e: Event): Step {
    step.(name := e.name.UnwrapOr(step.name), badge := e.badge.UnwrapOr(step.badge),
          status := e.status.UnwrapOr(step.status), complete := false)
  }

  function Advanced(step: Step, e: Event): Step
    requires Countable(e)
  {
    var before := if step.progress.Some? then step.progress.value.done else e.done.value;
    var done := if e.done.value >= before then e.done.value else before;
    step.(progress := Some(Progress(done, e.total.value, e.unit.value, e.badge)))
  }

  predicate Countable(e: Event) {
    e.id.Some? && e.done.Some? && e.total.Some? && e.unit.Some?
  }

  predicate Has(steps: seq<Step>, id: string) {
    exists i :: 0 <= i < |steps| && steps[i].id == id
  }

  /** What an event does to a step of its own id. */
  function Touched(step: Step, e: Event): Step {
    if e.kind == "tool" && e.phase == Some("start") then Refreshed(step, e)
    else if e.kind == "tool" && e.phase == Some("end") then step.(complete := true)
    else if e.kind == "progress" && Countable(e) then Advanced(step, e)
    else step
  }

  function TouchAll(steps: seq<Step>, id: string, e: Event): (r: seq<Step>)
    ensures |r| == |steps|
    ensures forall i :: 0 <= i < |steps| ==> r[i] == if steps[i].id == id then Touched(steps[i], e) else steps[i]
  {
    seq(|steps|, i requires 0 <= i < |steps| => if steps[i].id == id then Touched(steps[i], e) else steps[i])
  }

  predicate Starts(e: Event) {
    e.kind == "tool" && e.phase == Some("start") && e.id.Some?
  }

  predicate Ends(e: Event) {
    e.kind == "tool" && e.phase == Some("end") && e.id.Some?
  }

  predicate Counts(e: Event) {
    e.kind == "progress" && Countable(e)
  }

  function ApplyEvent(steps: seq<Step>, e: Event): seq<Step> {
    if Starts(e) then
      if Has(steps, e.id.value) then TouchAll(steps, e.id.value, e) else steps + [Opened(e.id.value, e)]
    else if Ends(e) || (Counts(e) && Has(steps, e.id.value)) then TouchAll(steps, e.id.value, e)
    else steps
  }

  function ApplyAll(steps: seq<Step>, events: seq<Event>): seq<Step> {
    if events == [] then steps else ApplyEvent(ApplyAll(steps, events[..|events| - 1]), events[|events| - 1])
  }

  // --- what one event keeps ---

  ghost predicate OneStepEach(steps: seq<Step>) {
    forall i, j :: 0 <= i < j < |steps| ==> steps[i].id != steps[j].id
  }

  /** Steps stay where they are and bars never move back. */
  ghost predicate Forward(before: seq<Step>, after: seq<Step>) {
    && |before| <= |after|
    && forall i :: 0 <= i < |before| ==> StepForward(before[i], after[i])
  }

  predicate StepForward(before: Step, after: Step) {
    && before.id == after.id
    && (before.progress.Some? ==> after.progress.Some? && before.progress.value.done <= after.progress.value.done)
  }

  lemma TouchedMovesForward(step: Step, e: Event)
    ensures StepForward(step, Touched(step, e))
  {
  }

  lemma EventMovesForward(steps: seq<Step>, e: Event)
    requires OneStepEach(steps)
    ensures OneStepEach(ApplyEvent(steps, e))
    ensures Forward(steps, ApplyEvent(steps, e))
  {
    forall i | 0 <= i < |steps|
      ensures StepForward(steps[i], Touched(steps[i], e))
    {
      TouchedMovesForward(steps[i], e);
    }
  }

  /** Over every sequence of events, replays and reorderings included: one step per id, in a
      fixed order, and no bar moves back. */
  lemma {:induction false} StreamMovesForward(steps: seq<Step>, events: seq<Event>, k: nat)
    requires OneStepEach(steps) && k <= |events|
    ensures OneStepEach(ApplyAll(steps, events))
    ensures Forward(ApplyAll(steps, events[..k]), ApplyAll(steps, events))
    decreases |events|
  {
    if k == |events| {
      assert events[..k] == events;
      if events != [] {
        StreamMovesForward(steps, events[..|events| - 1], |events| - 1);
        EventMovesForward(ApplyAll(steps, events[..|events| - 1]), events[|events| - 1]);
      }
    } else {
      var earlier := events[..|events| - 1];
      StreamMovesForward(steps, earlier, k);
      assert earlier[..k] == events[..k];
      EventMovesForward(ApplyAll(steps, earlier), events[|events| - 1]);
      ForwardThenForward(ApplyAll(steps, events[..k]), ApplyAll(steps, earlier), ApplyAll(steps, events));
    }
  }

  lemma ForwardThenForward(a: seq<Step>, b: seq<Step>, c: seq<Step>)
    requires Forward(a, b) && Forward(b, c)
    ensures Forward(a, c)
  {
    forall i | 0 <= i < |a|
      ensures StepForward(a[i], c[i])
    {
      assert StepForward(a[i], b[i]) && StepForward(b[i], c[i]);
    }
  }

  /** A replayed event changes nothing. */
  lemma AppliedTwice(steps: seq<Step>, e: Event)
    ensures ApplyEvent(ApplyEvent(steps, e), e) == ApplyEvent(steps, e)
  {
    var once := ApplyEvent(steps, e);
    forall i | 0 <= i < |steps|
      ensures Touched(Touched(steps[i], e), e) == Touched(steps[i], e)
    {
    }
    if Starts(e) && !Has(steps, e.id.value) {
      assert once[|steps|].id == e.id.value;
      assert Touched(Opened(e.id.value, e), e) == Opened(e.id.value, e);
    } else if Starts(e) || Ends(e) || Counts(e) {
      TouchedIdsStay(steps, e);
      assert ApplyEvent(once, e) == once;
    }
  }

  lemma TouchedIdsStay(steps: seq<Step>, e: Event)
    requires e.id.Some?
    ensures Has(TouchAll(steps, e.id.value, e), e.id.value) <==> Has(steps, e.id.value)
  {
    var after := TouchAll(steps, e.id.value, e);
    assert forall i :: 0 <= i < |steps| ==> after[i].id == steps[i].id;
  }

  // --- what the timeline shows at the end ---

  /** The ways an event can concern a step. */
  datatype Role = Opening | Counting | Toggling | Naming | Labelling | Describing

  predicate Plays(e: Event, role: Role, id: string) {
    && e.id == Some(id)
    && match role
       case Opening => Starts(e)
       case Counting => Counts(e)
       case Toggling => Starts(e) || Ends(e)
       case _ => Starts(e) && Said(e, role).Some?
  }

  /** The text a start gives the step, if it gives one. */
  function Said(e: Event, role: Role): Option<string> {
    match role
    case Naming => e.name
    case Labelling => e.badge
    case Describing => e.status
    case _ => None
  }

  /** The position of the first event that plays the role, or the length. */
  function First(events: seq<Event>, role: Role, id: string): (k: nat)
    ensures k <= |events|
    ensures k < |events| ==> Plays(events[k], role, id)
    ensures forall j :: 0 <= j < k ==> !Plays(events[j], role, id)
  {
    if events == [] then 0
    else
      var n := |events| - 1;
      var k := First(events[..n], role, id);
      if k < n || Plays(events[n], role, id) then k else |events|
  }

  /** The position of the last event that plays the role, or -1. */
  function Last(events: seq<Event>, role: Role, id: string): (k: int)
    ensures -1 <= k < |events|
    ensures k >= 0 ==> Plays(events[k], role, id)
    ensures forall j :: k < j < |events| ==> !Plays(events[j], role, id)
  {
    if events == [] then -1
    else if Plays(events[|events| - 1], role, id) then |events| - 1
    else Last(events[..|events| - 1], role, id)
  }

  /** The furthest count any event reported for the step since it was opened. */
  ghost predicate Furthest(events: seq<Event>, id: string, done: real) {
    && (forall k :: First(events, Opening, id) < k < |events| && Plays(events[k], Counting, id) ==>
          events[k].done.value <= done)
    && (exists k :: First(events, Opening, id) < k < |events| && Plays(events[k], Counting, id) &&
          events[k].done.value == done)
  }

  ghost predicate BarShows(events: seq<Event>, id: string, progress: Option<Progress>) {
    var counted := Last(events, Counting, id);
    && (progress.Some? <==> First(events, Opening, id) < counted)
    && (progress.Some? ==>
          && Furthest(events, id, progress.value.done)
          && events[counted].total == Some(progress.value.total)
          && events[counted].unit == Some(progress.value.unit)
          && events[counted].badge == progress.value.badge)
  }

  predicate CompleteShows(events: seq<Event>, id: string, complete: bool) {
    var toggled := Last(events, Toggling, id);
    0 <= toggled && (complete <==> Ends(events[toggled]))
  }

  /** The text the latest start gave, or what the step was born with. */
  function LatestSaid(events: seq<Event>, id: string, role: Role, initial: string): string
    requires role.Naming? || role.Labelling? || role.Describing?
  {
    var k := Last(events, role, id);
    if k >= 0 then Said(events[k], role).value else initial
  }

  predicate TextsShow(events: seq<Event>, step: Step) {
    var (name, badge) := PhaseStep(step.id).UnwrapOr((step.id, step.id));
    && step.name == LatestSaid(events, step.id, Naming, name)
    && step.badge == LatestSaid(events, step.id, Labelling, badge)
    && step.status == LatestSaid(events, step.id, Describing, "Working")
  }

  /** What the stream as a whole says about one step: its texts are the latest given, the bar is
      the furthest count with the total, unit and badge of the latest one, and the step is
      complete exactly when the latest `tool` event for it was an end. */
  ghost predicate Shows(events: seq<Event>, step: Step) {
    && First(events, Opening, step.id) < |events|
    && TextsShow(events, step)
    && CompleteShows(events, step.id, step.complete)
    && BarShows(events, step.id, step.progress)
  }

  /** One step per opened id, in the order of the first openings. */
  ghost predicate InOpeningOrder(events: seq<Event>, steps: seq<Step>) {
    && (forall id :: Has(steps, id) <==> First(events, Opening, id) < |events|)
    && (forall i, j :: 0 <= i < j < |steps| ==>
          First(events, Opening, steps[i].id) < First(events, Opening, steps[j].id))
  }

  lemma FurthestGrows(earlier: seq<Event>, e: Event, id: string, before: Option<real>)
    requires First(earlier, Opening, id) < |earlier|
    requires before.Some? <==> First(earlier, Opening, id) < Last(earlier, Counting, id)
    requires before.Some? ==> Furthest(earlier, id, before.value)
    requires before.Some? || Plays(e, Counting, id)
    ensures Furthest(earlier + [e], id,
      if !Plays(e, Counting, id) then before.value
      else if before.None? || e.done.value >= before.value then e.done.value else before.value)
  {
    var events := earlier + [e];
    assert events[..|earlier|] == earlier;
    assert First(events, Opening, id) == First(earlier, Opening, id);
    if Plays(e, Counting, id) && (before.None? || e.done.value >= before.value) {
      assert Plays(events[|earlier|], Counting, id);
    } else {
      var k :| First(earlier, Opening, id) < k < |earlier| && Plays(earlier[k], Counting, id) &&
        earlier[k].done.value == before.value;
      assert Plays(events[k], Counting, id);
    }
  }

  function AfterEvent(step: Step, e: Event): Step {
    if e.id == Some(step.id) then Touched(step, e) else step
  }

  lemma OneMoreEvent(earlier: seq<Event>, e: Event, role: Role, id: string)
    ensures First(earlier + [e], role, id) ==
            if First(earlier, role, id) < |earlier| || Plays(e, role, id) then First(earlier, role, id)
            else |earlier| + 1
    ensures Last(earlier + [e], role, id) == if Plays(e, role, id) then |earlier| else Last(earlier, role, id)
  {
    assert (earlier + [e])[..|earlier|] == earlier;
  }

  lemma StepStaysShown(earlier: seq<Event>, e: Event, step: Step)
    requires Shows(earlier, step)
    ensures Shows(earlier + [e], AfterEvent(step, e))
  {
    StaysOpened(earlier, e, step.id);
    TextsFollow(earlier, e, step);
    CompletionFollows(earlier, e, step);
    BarFollows(earlier, e, step);
    OnlyStartsChangeTexts(step, e);
    assert AfterEvent(step, e).id == step.id;
  }

  lemma StaysOpened(earlier: seq<Event>, e: Event, id: string)
    requires First(earlier, Opening, id) < |earlier|
    ensures First(earlier + [e], Opening, id) < |earlier + [e]|
  {
    OneMoreEvent(earlier, e, Opening, id);
  }

  lemma TextsFollow(earlier: seq<Event>, e: Event, step: Step)
    requires TextsShow(earlier, step)
    ensures TextsShow(earlier + [e], AfterEvent(step, e))
  {
    var (name, badge) := PhaseStep(step.id).UnwrapOr((step.id, step.id));
    OneTextFollows(earlier, e, step.id, Naming, name);
    OneTextFollows(earlier, e, step.id, Labelling, badge);
    OneTextFollows(earlier, e, step.id, Describing, "Working");
    OnlyStartsChangeTexts(step, e);
  }

  lemma OneTextFollows(earlier: seq<Event>, e: Event, id: string, role: Role, initial: string)
    requires role.Naming? || role.Labelling? || role.Describing?
    ensures LatestSaid(earlier + [e], id, role, initial) ==
            if Plays(e, role, id) then Said(e, role).value else LatestSaid(earlier, id, role, initial)
  {
    OneMoreEvent(earlier, e, role, id);
  }

  lemma OnlyStartsChangeTexts(step: Step, e: Event)
    ensures var after := AfterEvent(step, e);
            && after.id == step.id
            && after.name == (if Plays(e, Naming, step.id) then e.name.value else step.name)
            && after.badge == (if Plays(e, Labelling, step.id) then e.badge.value else step.badge)
            && after.status == (if Plays(e, Describing, step.id) then e.status.value else step.status)
  {
  }

  lemma CompletionFollows(earlier: seq<Event>, e: Event, step: Step)
    requires CompleteShows(earlier, step.id, step.complete)
    ensures CompleteShows(earlier + [e], step.id, AfterEvent(step, e).complete)
  {
    OneMoreEvent(earlier, e, Toggling, step.id);
  }

  lemma BarAdvances(earlier: seq<Event>, e: Event, step: Step)
    requires First(earlier, Opening, step.id) < |earlier|
    requires BarShows(earlier, step.id, step.progress)
    requires Plays(e, Counting, step.id)
    ensures BarShows(earlier + [e], step.id, Advanced(step, e).progress)
  {
    OneMoreEvent(earlier, e, Opening, step.id);
    OneMoreEvent(earlier, e, Counting, step.id);
    FurthestGrows(earlier, e, step.id, if step.progress.Some? then Some(step.progress.value.done) else None);
  }

  lemma BarStays(earlier: seq<Event>, e: Event, step: Step)
    requires First(earlier, Opening, step.id) < |earlier|
    requires BarShows(earlier, step.id, step.progress)
    requires !Plays(e, Counting, step.id)
    ensures BarShows(earlier + [e], step.id, step.progress)
  {
    OneMoreEvent(earlier, e, Opening, step.id);
    OneMoreEvent(earlier, e, Counting, step.id);
    if step.progress.Some? {
      FurthestGrows(earlier, e, step.id, Some(step.progress.value.done));
    }
  }

  lemma BarFollows(earlier: seq<Event>, e: Event, step: Step)
    requires First(earlier, Opening, step.id) < |earlier|
    requires BarShows(earlier, step.id, step.progress)
    ensures BarShows(earlier + [e], step.id, AfterEvent(step, e).progress)
  {
    OnlyCountingMovesTheBar(step, e);
    if Plays(e, Counting, step.id) {
      BarAdvances(earlier, e, step);
    } else {
      BarStays(earlier, e, step);
    }
  }

  lemma OnlyCountingMovesTheBar(step: Step, e: Event)
    ensures Plays(e, Counting, step.id) ==> AfterEvent(step, e).progress == Advanced(step, e).progress
    ensures !Plays(e, Counting, step.id) ==> AfterEvent(step, e).progress == step.progress
  {
  }

  lemma NewStepShown(earlier: seq<Event>, e: Event)
    requires Starts(e) && First(earlier, Opening, e.id.value) == |earlier|
    ensures Shows(earlier + [e], Opened(e.id.value, e))
  {
    var step := Opened(e.id.value, e);
    OneMoreEvent(earlier, e, Opening, step.id);
    OneMoreEvent(earlier, e, Toggling, step.id);
    OneMoreEvent(earlier, e, Counting, step.id);
    NewTextsShow(earlier, e);
  }

  lemma {:induction false} NewTextsShow(earlier: seq<Event>, e: Event)
    requires Starts(e) && First(earlier, Opening, e.id.value) == |earlier|
    ensures TextsShow(earlier + [e], Opened(e.id.value, e))
  {
    var id := e.id.value;
    var (name, badge) := PhaseStep(id).UnwrapOr((id, id));
    NeverSaid(earlier, id, Naming);
    NeverSaid(earlier, id, Labelling);
    NeverSaid(earlier, id, Describing);
    OneTextFollows(earlier, e, id, Naming, name);
    OneTextFollows(earlier, e, id, Labelling, badge);
    OneTextFollows(earlier, e, id, Describing, "Working");
  }

  lemma NeverSaid(events: seq<Event>, id: string, role: Role)
    requires First(events, Opening, id) == |events|
    requires role.Naming? || role.Labelling? || role.Describing?
    ensures Last(events, role, id) == -1
  {
    var k := Last(events, role, id);
    assert k >= 0 ==> Plays(events[k], Opening, id);
  }

  /** A fresh timeline after any sequence of events, without reference to the fold. */
  lemma {:induction false} TimelineFollowsTheStream(events: seq<Event>)
    ensures InOpeningOrder(events, ApplyAll([], events))
    ensures forall i :: 0 <= i < |ApplyAll([], events)| ==> Shows(events, ApplyAll([], events)[i])
  {
    if events != [] {
      var n := |events| - 1;
      var earlier, e := events[..n], events[n];
      var steps, after := ApplyAll([], earlier), ApplyAll([], events);
      TimelineFollowsTheStream(earlier);
      assert events == earlier + [e];
      ShownAfter(earlier, e, steps);
      OrderAfter(earlier, e, steps);
    }
  }

  lemma ShownAfter(earlier: seq<Event>, e: Event, steps: seq<Step>)
    requires InOpeningOrder(earlier, steps)
    requires forall i :: 0 <= i < |steps| ==> Shows(earlier, steps[i])
    ensures forall i :: 0 <= i < |ApplyEvent(steps, e)| ==> Shows(earlier + [e], ApplyEvent(steps, e)[i])
  {
    var after := ApplyEvent(steps, e);
    forall i | 0 <= i < |after|
      ensures Shows(earlier + [e], after[i])
    {
      if i < |steps| {
        StepStaysShown(earlier, e, steps[i]);
        TouchedIfNamed(steps, e, i);
      } else {
        NewStepShown(earlier, e);
      }
    }
  }

  lemma TouchedIfNamed(steps: seq<Step>, e: Event, i: nat)
    requires i < |steps|
    ensures i < |ApplyEvent(steps, e)|
    ensures ApplyEvent(steps, e)[i] == AfterEvent(steps[i], e)
  {
    assert Has(steps, steps[i].id);
  }

  lemma OrderAfter(earlier: seq<Event>, e: Event, steps: seq<Step>)
    requires InOpeningOrder(earlier, steps)
    ensures InOpeningOrder(earlier + [e], ApplyEvent(steps, e))
  {
    var events := earlier + [e];
    var after := ApplyEvent(steps, e);
    assert events[..|earlier|] == earlier;
    forall i | 0 <= i < |steps|
      ensures after[i].id == steps[i].id
      ensures First(events, Opening, steps[i].id) == First(earlier, Opening, steps[i].id) < |earlier|
    {
      TouchedIfNamed(steps, e, i);
      assert Has(steps, steps[i].id);
    }
    forall id
      ensures Has(after, id) <==> First(events, Opening, id) < |events|
    {
      assert Has(after, id) <==> Has(steps, id) || (Starts(e) && e.id == Some(id)) by {
        if Has(steps, id) {
          var i :| 0 <= i < |steps| && steps[i].id == id;
          assert after[i].id == id;
        }
        if |after| > |steps| {
          assert after[|steps|].id == e.id.value;
        }
      }
    }
  }

  // --- the status ---

  datatype View = View(status: Status, steps: seq<Step>)

  predicate IsDeclared(kind: string) {
    kind in {"delta", "tool", "progress", "heartbeat", "snapshot_ready", "chart", "verification", "report_file",
             "error", "done", "intent", "thinking"}
  }

  /** The phase a frame moves the status towards. */
  function PhaseOf(e: Event): Option<Status> {
    if e.kind == "tool" || e.kind == "progress" then PhaseFromEventId(e.id) else None
  }

  /** `onmessage`. A `done` frame only asks for the row to be read again. */
  function Receive(view: View, e: Event): View {
    if !IsDeclared(e.kind) || e.kind == "heartbeat" || e.kind == "done" then view
    else
      var phase := PhaseOf(e);
      var status := if phase.Some? && Advances(view.status, phase.value) then phase.value else view.status;
      View(status, ApplyEvent(view.steps, e))
  }

  function ReceiveAll(view: View, events: seq<Event>): View {
    if events == [] then view else Receive(ReceiveAll(view, events[..|events| - 1]), events[|events| - 1])
  }

  /** Between two reads of the row the status is the furthest phase any frame named, so it
      never moves back and does not depend on the order of the frames; a terminal status
      stays. */
  lemma {:induction false} StatusIsTheFurthest(view: View, events: seq<Event>)
    ensures var status := ReceiveAll(view, events).status;
            && (IsTerminal(view.status) ==> status == view.status)
            && (!IsTerminal(view.status) ==>
                  && Rank(view.status) <= Rank(status)
                  && (forall i :: 0 <= i < |events| && PhaseOf(events[i]).Some? ==>
                        Rank(PhaseOf(events[i]).value) <= Rank(status))
                  && (status == view.status || exists i :: 0 <= i < |events| && PhaseOf(events[i]) == Some(status)))
  {
    if events != [] {
      var n := |events| - 1;
      var earlier, e := events[..n], events[n];
      StatusIsTheFurthest(view, earlier);
      var before, after := ReceiveAll(view, earlier).status, ReceiveAll(view, events).status;
      assert PhaseOf(e).Some? ==> IsDeclared(e.kind) && e.kind != "heartbeat" && e.kind != "done";
      assert forall i :: 0 <= i < n ==> events[i] == earlier[i];
      if !IsTerminal(view.status) {
        if after == before != view.status {
          var i :| 0 <= i < n && PhaseOf(earlier[i]) == Some(before);
          assert PhaseOf(events[i]) == Some(after);
        } else if after != before {
          assert PhaseOf(events[n]) == Some(after);
        }
      }
    }
  }

  lemma {:induction false} StatusMovesForward(view: View, events: seq<Event>, k: nat)
    requires k <= |events|
    ensures var before := ReceiveAll(view, events[..k]).status;
            var after := ReceiveAll(view, events).status;
            before == after || Advances(before, after)
    decreases |events|
  {
    if k < |events| {
      var n := |events| - 1;
      StatusMovesForward(view, events[..n], k);
      assert events[..n][..k] == events[..k];
    } else {
      assert events[..k] == events;
    }
  }

  /** Frames naming the same phases, in any order and any number of times, leave the same
      status. */
  lemma {:induction false} SamePhasesSameStatus(view: View, events: seq<Event>, others: seq<Event>)
    requires forall i :: 0 <= i < |events| && PhaseOf(events[i]).Some? ==>
               exists j :: 0 <= j < |others| && PhaseOf(others[j]) == PhaseOf(events[i])
    requires forall j :: 0 <= j < |others| && PhaseOf(others[j]).Some? ==>
               exists i :: 0 <= i < |events| && PhaseOf(events[i]) == PhaseOf(others[j])
    ensures ReceiveAll(view, events).status == ReceiveAll(view, others).status
  {
    StatusIsTheFurthest(view, events);
    StatusIsTheFurthest(view, others);
    SameRankSameStatus(ReceiveAll(view, events).status, ReceiveAll(view, others).status);
  }

  lemma SameRankSameStatus(a: Status, b: Status)
    ensures Rank(a) == Rank(b) <==> a == b
  {
  }

  /** The steps of the view are the fold of the frames it does not ignore. */
  lemma {:induction false} ViewKeepsTheTimeline(view: View, events: seq<Event>)
    ensures ReceiveAll(view, events).steps == ApplyAll(view.steps, events)
  {
    if events != [] {
      var n := |events| - 1;
      ViewKeepsTheTimeline(view, events[..n]);
      assert !IsDeclared(events[n].kind) ==> events[n].kind != "tool" && events[n].kind != "progress";
    }
  }
}
