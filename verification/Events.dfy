/** The events of an invocation's stream (agent/src/reporting_agent/events.py), and the life
    of one activity step within it. */
module Events {
  import opened Options
  import opened Errors

  /** The status `done` and the terminal callback carry. */
  datatype Outcome = Completed | Failed

  /** What the terminal callback copies from `snapshot_ready`. */
  datatype Completion = Completion(snapshotId: Option<string>, resourceCount: Option<int>, gapCount: Option<int>)

  datatype Event =
    | ToolStart(id: string, name: string, caption: string, status: string)
    | ToolEnd(id: string, name: string)
    | Progress(id: string, done: int, total: int, unit: string, caption: string)
    | SnapshotReady(completion: Completion)
    | Verification(pass: bool)
    | ReportFile(key: string)
    | Error(code: Code, terminal: bool)
    | Done(outcome: Outcome)
    | Heartbeat(ts: int)
    | Delta | Chart | Intent | Thinking

  // --- the life of one step id ---

  /** What the stream so far says about one step id. `last` is the latest count. */
  datatype Life = Unopened | Running(name: string, last: Option<int>) | Ended | Broken

  predicate Names(e: Event, id: string) {
    (e.ToolStart? || e.ToolEnd? || e.Progress?) && e.id == id
  }

  function Next(life: Life, e: Event, id: string): Life {
    if !Names(e, id) then life
    else
      match life
      case Unopened => if e.ToolStart? then Running(e.name, None) else Broken
      case Running(name, last) =>
        if e.ToolEnd? && e.name == name then Ended
        else if e.Progress? && last.UnwrapOr(0) <= e.done <= e.total && 1 <= e.total then Running(name, Some(e.done))
        else Broken
      case _ => Broken
  }

  function LifeOf(events: seq<Event>, id: string): Life {
    if events == [] then Unopened else Next(LifeOf(events[..|events| - 1], id), events[|events| - 1], id)
  }

  lemma LifeAfter(events: seq<Event>, e: Event, id: string)
    ensures LifeOf(events + [e], id) == Next(LifeOf(events, id), e, id)
  {
    assert (events + [e])[..|events|] == events;
  }

  // --- the same rules, read off the whole stream ---

  predicate Untouched(events: seq<Event>, id: string) {
    forall k :: 0 <= k < |events| ==> !Names(events[k], id)
  }

  predicate CountsWithin(e: Event, low: int) {
    e.Progress? && low <= e.done <= e.total && 1 <= e.total
  }

  /** From its `start` at `i` on, the id is named by counts only; each fits its total and none
      falls below one before it. */
  predicate OpenedAt(events: seq<Event>, id: string, i: nat) {
    && i < |events| && events[i].ToolStart? && events[i].id == id
    && (forall k :: 0 <= k < i ==> !Names(events[k], id))
    && (forall k :: i < k < |events| && Names(events[k], id) ==> CountsWithin(events[k], 0))
    && (forall k, m :: i < k < m < |events| && Names(events[k], id) && Names(events[m], id) ==>
          events[k].done <= events[m].done)
  }

  /** A step that is started once and later ended once, under one name, with its counts in
      between and nothing after. */
  predicate WholeStep(events: seq<Event>, id: string, i: nat, j: nat) {
    && i < j < |events|
    && OpenedAt(events[..j], id, i)
    && events[j] == ToolEnd(id, events[i].name)
    && Untouched(events[j + 1..], id)
  }

  /** Bounds the counts of a running step by its latest one. */
  predicate CountsBelow(events: seq<Event>, id: string, i: nat, last: Option<int>) {
    forall k :: i < k < |events| && Names(events[k], id) && events[k].Progress? ==>
      last.Some? && events[k].done <= last.value
  }

  /** What each state of the automaton says about the stream. */
  predicate Says(events: seq<Event>, id: string, life: Life, i: nat, j: nat) {
    match life
    case Unopened => Untouched(events, id)
    case Running(name, last) =>
      OpenedAt(events, id, i) && events[i].name == name && CountsBelow(events, id, i, last) && 0 <= last.UnwrapOr(0)
    case Ended => WholeStep(events, id, i, j)
    case Broken => true
  }

  lemma OtherEvent(events: seq<Event>, e: Event, id: string, life: Life, i: nat, j: nat)
    requires !Names(e, id) && Says(events, id, life, i, j)
    ensures Says(events + [e], id, life, i, j)
  {
    if life.Ended? {
      assert (events + [e])[..j] == events[..j];
      assert (events + [e])[j + 1..] == events[j + 1..] + [e];
    }
  }

  lemma StartOpens(events: seq<Event>, e: Event, id: string)
    requires Untouched(events, id) && e.ToolStart? && e.id == id
    ensures Says(events + [e], id, Running(e.name, None), |events|, 0)
  {
  }

  lemma CountGoesOn(events: seq<Event>, e: Event, id: string, i: nat, name: string, last: Option<int>)
    requires Says(events, id, Running(name, last), i, 0)
    requires e.Progress? && e.id == id && CountsWithin(e, last.UnwrapOr(0))
    ensures Says(events + [e], id, Running(name, Some(e.done)), i, 0)
  {
    var after := events + [e];
    forall k, m | i < k < m < |after| && Names(after[k], id) && Names(after[m], id)
      ensures after[k].done <= after[m].done
    {
      assert after[k] == events[k];
      assert m < |events| ==> after[m] == events[m];
    }
  }

  lemma EndCloses(events: seq<Event>, e: Event, id: string, i: nat, name: string, last: Option<int>)
    requires Says(events, id, Running(name, last), i, 0)
    requires e == ToolEnd(id, name)
    ensures Says(events + [e], id, Ended, i, |events|)
  {
    assert (events + [e])[..|events|] == events;
  }

  /** The automaton reads the stream as the rules do. */
  lemma {:induction false} LifeMeans(events: seq<Event>, id: string) returns (i: nat, j: nat)
    ensures Says(events, id, LifeOf(events, id), i, j)
  {
    i, j := 0, 0;
    if events != [] {
      var n := |events| - 1;
      i, j := LifeMeans(events[..n], id);
      var life, e := LifeOf(events[..n], id), events[n];
      assert events == events[..n] + [e];
      if !Names(e, id) {
        OtherEvent(events[..n], e, id, life, i, j);
      } else if life.Unopened? && e.ToolStart? {
        StartOpens(events[..n], e, id);
        i, j := n, 0;
      } else if life.Running? && e.Progress? && CountsWithin(e, life.last.UnwrapOr(0)) {
        CountGoesOn(events[..n], e, id, i, life.name, life.last);
        j := 0;
      } else if life.Running? && e == ToolEnd(id, life.name) {
        EndCloses(events[..n], e, id, i, life.name, life.last);
        j := n;
      }
    }
  }

  /** Every start has exactly one later end of its id and name, every count names a step open
      at that moment: nothing about any id is left running or out of order. */
  ghost predicate StepsAreWhole(events: seq<Event>) {
    forall id :: Untouched(events, id) || exists i, j :: WholeStep(events, id, i, j)
  }

  lemma WholeWhenSettled(events: seq<Event>)
    requires forall id :: LifeOf(events, id).Unopened? || LifeOf(events, id).Ended?
    ensures StepsAreWhole(events)
  {
    forall id
      ensures Untouched(events, id) || exists i, j :: WholeStep(events, id, i, j)
    {
      var i, j := LifeMeans(events, id);
      assert LifeOf(events, id).Unopened? || LifeOf(events, id).Ended?;
    }
  }
}
