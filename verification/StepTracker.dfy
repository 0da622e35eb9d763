/** The tracker that hands out the `tool` and `progress` events of an invocation.

    Models `StepTracker`, `_require_text` and `_require_count`
    (agent/src/reporting_agent/main.py). A raised `StepInvariantError` is `None` in place of
    the event. */
module StepTracker {
  import opened Options
  import opened Events

  datatype Step = Step(id: string, name: string, caption: string, lastDone: Option<int>)

  /** The tracker's state. `open` is a dictionary in insertion order. */
  datatype Tracker = Tracker(open: seq<Step>, closed: set<string>, sequence: nat)

  const EMPTY: Tracker := Tracker([], {}, 0)

  // --- the checks on arguments ---

  predicate IsSpace(c: char) {
    var n := c as int;
    || 0x09 <= n <= 0x0d || 0x1c <= n <= 0x20 || n == 0x85 || n == 0xa0 || n == 0x1680
    || 0x2000 <= n <= 0x200a || n == 0x2028 || n == 0x2029 || n == 0x202f || n == 0x205f || n == 0x3000
  }

  /** `value.strip()` is not empty. */
  predicate IsText(value: string) {
    exists i :: 0 <= i < |value| && !IsSpace(value[i])
  }

  // --- the generated ids ---

  function Digit(n: nat): char
    requires n < 10
  {
    "0123456789"[n]
  }

  function Decimal(n: nat): (r: string)
    ensures r != ""
  {
    if n < 10 then [Digit(n)] else Decimal(n / 10) + [Digit(n % 10)]
  }

  function GeneratedId(name: string, sequence: nat): string {
    name + ("-" + Decimal(sequence))
  }

  // --- the operations, on the state ---

  /** The position of the open step, or the number of open steps. */
  function Find(open: seq<Step>, id: string): (k: nat)
    ensures k <= |open|
    ensures k < |open| ==> open[k].id == id
    ensures forall j :: 0 <= j < k ==> open[j].id != id
  {
    if open == [] || open[0].id == id then 0 else 1 + Find(open[1..], id)
  }

  predicate IsOpen(t: Tracker, id: string) {
    Find(t.open, id) < |t.open|
  }

  function AfterStart(t: Tracker, name: string, caption: string, status: string, stepId: Option<string>)
    : (Tracker, Option<Event>)
  {
    if !IsText(name) || !IsText(caption) || !IsText(status) then (t, None)
    else
      var counted := t.(sequence := t.sequence + 1);
      var id := if stepId.Some? then stepId.value else GeneratedId(name, counted.sequence);
      if !IsText(id) || IsOpen(t, id) || id in t.closed then (counted, None)
      else (counted.(open := t.open + [Step(id, name, caption, None)]), Some(ToolStart(id, name, caption, status)))
  }

  predicate Countable(step: Step, done: int, total: int) {
    0 <= done <= total && 1 <= total && step.lastDone.UnwrapOr(0) <= done
  }

  function AfterProgress(t: Tracker, id: string, done: int, total: int, unit: string, caption: Option<string>)
    : (Tracker, Option<Event>)
  {
    var k := Find(t.open, id);
    if k == |t.open| || !IsText(unit) || (caption.Some? && !IsText(caption.value)) || !Countable(t.open[k], done, total)
    then (t, None)
    else
      (t.(open := t.open[k := t.open[k].(lastDone := Some(done))]),
       Some(Progress(id, done, total, unit, caption.UnwrapOr(t.open[k].caption))))
  }

  function AfterEnd(t: Tracker, id: string): (Tracker, Option<Event>) {
    var k := Find(t.open, id);
    if k == |t.open| then (t, None)
    else (t.(open := t.open[..k] + t.open[k + 1..], closed := t.closed + {id}), Some(ToolEnd(id, t.open[k].name)))
  }

  /** The ends of the steps, last opened first. */
  function Ends(open: seq<Step>): seq<Event> {
    if open == [] then []
    else
      var step := open[|open| - 1];
      [ToolEnd(step.id, step.name)] + Ends(open[..|open| - 1])
  }

  // --- the class ---

  class StepTracker {
    var open: seq<Step>
    var closed: set<string>
    var sequence: nat

    function Value(): Tracker
      reads this
    {
      Tracker(open, closed, sequence)
    }

    constructor ()
      ensures Value() == EMPTY
    {
      open, closed, sequence := [], {}, 0;
    }

    method Start(name: string, caption: string, status: string, stepId: Option<string>) returns (event: Option<Event>)
      modifies this
      ensures (Value(), event) == AfterStart(old(Value()), name, caption, status, stepId)
    {
      if !IsText(name) || !IsText(caption) || !IsText(status) {
        return None;
      }
      sequence := sequence + 1;
      var id := if stepId.Some? then stepId.value else GeneratedId(name, sequence);
      if !IsText(id) || Find(open, id) < |open| || id in closed {
        return None;
      }
      open := open + [Step(id, name, caption, None)];
      return Some(ToolStart(id, name, caption, status));
    }

    method Advance(id: string, done: int, total: int, unit: string, caption: Option<string>)
      returns (event: Option<Event>)
      modifies this
      ensures (Value(), event) == AfterProgress(old(Value()), id, done, total, unit, caption)
    {
      var k := Find(open, id);
      if k == |open| || done < 0 || total < 0 || !IsText(unit) || (caption.Some? && !IsText(caption.value)) {
        return None;
      }
      var step := open[k];
      if total < 1 || done > total || (step.lastDone.Some? && done < step.lastDone.value) {
        return None;
      }
      open := open[k := step.(lastDone := Some(done))];
      return Some(Progress(id, done, total, unit, caption.UnwrapOr(step.caption)));
    }

    method End(id: string) returns (event: Option<Event>)
      modifies this
      ensures (Value(), event) == AfterEnd(old(Value()), id)
    {
      var k := Find(open, id);
      if k == |open| {
        return None;
      }
      var step := open[k];
      open := open[..k] + open[k + 1..];
      closed := closed + {step.id};
      return Some(ToolEnd(step.id, step.name));
    }

    /** Closes what is still open, last opened first. */
    method CloseAll() returns (events: seq<Event>)
      requires WellFormed(Value())
      modifies this
      ensures events == Ends(old(open))
      ensures open == [] && closed == old(closed) + OpenIds(old(open)) && sequence == old(sequence)
    {
      events := [];
      while open != []
        invariant WellFormed(Value()) && sequence == old(sequence)
        invariant closed + OpenIds(open) == old(closed) + OpenIds(old(open))
        invariant Ends(old(open)) == events + Ends(open)
        decreases |open|
      {
        ghost var before := Value();
        LastEnds(before);
        var event := End(open[|open| - 1].id);
        assert Value() == AfterEnd(before, before.open[|before.open| - 1].id).0;
        Associate(events, event.value, Ends(open));
        events := events + [event.value];
      }
    }
  }

  lemma Associate(a: seq<Event>, b: Event, c: seq<Event>)
    ensures a + ([b] + c) == a + [b] + c
  {
  }

  // --- what the tracker keeps ---

  function OpenIds(open: seq<Step>): set<string> {
    set k | 0 <= k < |open| :: open[k].id
  }

  predicate WellFormed(t: Tracker) {
    && (forall i, j :: 0 <= i < j < |t.open| ==> t.open[i].id != t.open[j].id)
    && (forall k :: 0 <= k < |t.open| ==> t.open[k].id !in t.closed)
    && (forall k :: 0 <= k < |t.open| ==> 0 <= t.open[k].lastDone.UnwrapOr(0))
  }

  lemma FindLast(open: seq<Step>)
    requires open != [] && forall i, j :: 0 <= i < j < |open| ==> open[i].id != open[j].id
    ensures Find(open, open[|open| - 1].id) == |open| - 1
  {
  }

  /** Ending the step opened last. */
  lemma LastEnds(t: Tracker)
    requires WellFormed(t) && t.open != []
    ensures var n := |t.open| - 1;
            var (after, event) := AfterEnd(t, t.open[n].id);
            && after == Tracker(t.open[..n], t.closed + {t.open[n].id}, t.sequence) && WellFormed(after)
            && event.Some? && Ends(t.open) == [event.value] + Ends(after.open)
            && after.closed + OpenIds(after.open) == t.closed + OpenIds(t.open)
  {
    var n := |t.open| - 1;
    FindLast(t.open);
    RemovalStaysWellFormed(t, n);
    NothingAfterLast(t.open);
    OpenIdsOfLast(t.open);
    SetsRegroup(t.closed, OpenIds(t.open[..n]), t.open[n].id);
  }

  lemma NothingAfterLast(open: seq<Step>)
    requires open != []
    ensures open[..|open| - 1] + open[|open|..] == open[..|open| - 1]
  {
  }

  lemma SetsRegroup(closed: set<string>, others: set<string>, id: string)
    ensures closed + {id} + others == closed + (others + {id})
  {
  }

  lemma OpenIdsOfLast(open: seq<Step>)
    requires open != []
    ensures OpenIds(open) == OpenIds(open[..|open| - 1]) + {open[|open| - 1].id}
  {
  }

  /** What the tracker's state says of one id. */
  function LifeIn(t: Tracker, id: string): Life {
    var k := Find(t.open, id);
    if k < |t.open| then Running(t.open[k].name, t.open[k].lastDone)
    else if id in t.closed then Ended
    else Unopened
  }

  /** The events handed out so far tell of every id what the state does. */
  ghost predicate Agrees(events: seq<Event>, t: Tracker) {
    forall id :: LifeOf(events, id) == LifeIn(t, id)
  }

  // --- every operation keeps the agreement ---

  lemma StartAgrees(events: seq<Event>, t: Tracker, name: string, caption: string, status: string,
                    stepId: Option<string>)
    requires WellFormed(t) && Agrees(events, t)
    ensures var (after, event) := AfterStart(t, name, caption, status, stepId);
            WellFormed(after) && Agrees(if event.Some? then events + [event.value] else events, after)
  {
    var (after, event) := AfterStart(t, name, caption, status, stepId);
    if event.Some? {
      var step := after.open[|t.open|];
      forall id
        ensures LifeOf(events + [event.value], id) == LifeIn(after, id)
      {
        LifeAfter(events, event.value, id);
        FindAppend(t.open, step, id);
        assert LifeOf(events, id) == LifeIn(t, id);
      }
    } else {
      assert forall id :: LifeIn(after, id) == LifeIn(t, id);
    }
  }

  lemma {:induction false} FindAppend(open: seq<Step>, step: Step, id: string)
    ensures Find(open + [step], id) ==
            if Find(open, id) < |open| then Find(open, id) else if step.id == id then |open| else |open| + 1
  {
    if open != [] && open[0].id != id {
      FindAppend(open[1..], step, id);
      assert (open + [step])[1..] == open[1..] + [step];
    }
  }

  lemma ProgressAgrees(events: seq<Event>, t: Tracker, id: string, done: int, total: int, unit: string,
                       caption: Option<string>)
    requires WellFormed(t) && Agrees(events, t)
    ensures var (after, event) := AfterProgress(t, id, done, total, unit, caption);
            WellFormed(after) && Agrees(if event.Some? then events + [event.value] else events, after)
  {
    var (after, event) := AfterProgress(t, id, done, total, unit, caption);
    if event.Some? {
      var k := Find(t.open, id);
      forall other
        ensures LifeOf(events + [event.value], other) == LifeIn(after, other)
      {
        LifeAfter(events, event.value, other);
        FindUpdate(t.open, k, Some(done), other);
        assert LifeOf(events, other) == LifeIn(t, other);
      }
    }
  }

  lemma {:induction false} FindUpdate(open: seq<Step>, k: nat, lastDone: Option<int>, id: string)
    requires k < |open|
    ensures Find(open[k := open[k].(lastDone := lastDone)], id) == Find(open, id)
  {
    if open[0].id != id && k > 0 {
      FindUpdate(open[1..], k - 1, lastDone, id);
      assert open[k := open[k].(lastDone := lastDone)][1..] ==
        open[1..][k - 1 := open[1..][k - 1].(lastDone := lastDone)];
    } else if open[0].id != id {
      assert open[k := open[k].(lastDone := lastDone)][1..] == open[1..];
    }
  }

  lemma EndAgrees(events: seq<Event>, t: Tracker, id: string)
    requires WellFormed(t) && Agrees(events, t)
    ensures var (after, event) := AfterEnd(t, id);
            WellFormed(after) && Agrees(if event.Some? then events + [event.value] else events, after)
  {
    var (after, event) := AfterEnd(t, id);
    if event.Some? {
      RemovalStaysWellFormed(t, Find(t.open, id));
      forall other
        ensures LifeOf(events + [event.value], other) == LifeIn(after, other)
      {
        LifeAfter(events, event.value, other);
        assert LifeOf(events, other) == LifeIn(t, other);
        LifeAfterRemoval(t, Find(t.open, id), other);
      }
    }
  }

  function Removed(t: Tracker, k: nat): Tracker
    requires k < |t.open|
  {
    Tracker(t.open[..k] + t.open[k + 1..], t.closed + {t.open[k].id}, t.sequence)
  }

  lemma RemovalStaysWellFormed(t: Tracker, k: nat)
    requires WellFormed(t) && k < |t.open|
    ensures WellFormed(Removed(t, k))
  {
    var fewer := t.open[..k] + t.open[k + 1..];
    assert forall i :: 0 <= i < |fewer| ==> fewer[i] == t.open[if i < k then i else i + 1];
  }

  lemma LifeAfterRemoval(t: Tracker, k: nat, id: string)
    requires WellFormed(t) && k < |t.open|
    ensures LifeIn(Removed(t, k), id) == if id == t.open[k].id then Ended else LifeIn(t, id)
  {
    var fewer := t.open[..k] + t.open[k + 1..];
    if id == t.open[k].id {
      assert forall i :: 0 <= i < |fewer| ==> fewer[i] == t.open[if i < k then i else i + 1];
    } else {
      FindRemove(t.open, k, id);
    }
  }

  lemma {:induction false} FindRemove(open: seq<Step>, k: nat, id: string)
    requires k < |open| && open[k].id != id
    ensures Find(open[..k] + open[k + 1..], id) ==
            if Find(open, id) < k then Find(open, id) else Find(open, id) - 1
  {
    var fewer := open[..k] + open[k + 1..];
    if k == 0 {
      assert fewer == open[1..];
    } else if open[0].id != id {
      FindRemove(open[1..], k - 1, id);
      assert fewer[1..] == open[1..][..k - 1] + open[1..][k..];
    }
  }

  /** Closing every open step settles every id. */
  lemma {:induction false} ClosingSettles(events: seq<Event>, t: Tracker)
    requires WellFormed(t) && Agrees(events, t)
    ensures forall id :: LifeOf(events + Ends(t.open), id).Unopened? || LifeOf(events + Ends(t.open), id).Ended?
    decreases |t.open|
  {
    if t.open == [] {
      assert events + Ends(t.open) == events;
      forall id
        ensures LifeOf(events, id).Unopened? || LifeOf(events, id).Ended?
      {
        assert LifeOf(events, id) == LifeIn(t, id);
      }
    } else {
      var n := |t.open| - 1;
      FindLast(t.open);
      var (after, event) := AfterEnd(t, t.open[n].id);
      EndAgrees(events, t, t.open[n].id);
      assert after.open == t.open[..n];
      ClosingSettles(events + [event.value], after);
      assert events + Ends(t.open) == (events + [event.value]) + Ends(after.open);
    }
  }

  // --- what is handed out, exactly ---

  /** A start is handed out exactly for proper texts and an id never named before. */
  lemma StartIsGiven(events: seq<Event>, t: Tracker, name: string, caption: string, status: string, id: string)
    requires Agrees(events, t)
    ensures var event := AfterStart(t, name, caption, status, Some(id)).1;
            && (event.Some? <==>
                  && IsText(name) && IsText(caption) && IsText(status) && IsText(id)
                  && LifeOf(events, id).Unopened?)
            && (event.Some? ==> event.value == ToolStart(id, name, caption, status))
  {
    assert LifeOf(events, id) == LifeIn(t, id);
  }

  lemma CountLeavesRunning(events: seq<Event>, e: Event, life: Life)
    requires e.Progress? && LifeOf(events, e.id) == life
    ensures LifeOf(events + [e], e.id).Running? <==>
            life.Running? && life.last.UnwrapOr(0) <= e.done <= e.total && 1 <= e.total
  {
    LifeAfter(events, e, e.id);
  }

  /** A count is handed out exactly for proper texts and when it leaves the step running, with
      the caption given or else the one the step was opened with. */
  lemma CountIsGiven(events: seq<Event>, t: Tracker, id: string, done: int, total: int, unit: string,
                     caption: Option<string>)
    requires WellFormed(t) && Agrees(events, t)
    ensures var event := AfterProgress(t, id, done, total, unit, caption).1;
            && (event.Some? <==>
                  && IsText(unit) && (caption.Some? ==> IsText(caption.value))
                  && LifeOf(events + [Progress(id, done, total, unit, caption.UnwrapOr(""))], id).Running?)
            && (event.Some? && caption.Some? ==> event.value == Progress(id, done, total, unit, caption.value))
  {
    CountLeavesRunning(events, Progress(id, done, total, unit, caption.UnwrapOr("")), LifeIn(t, id));
  }

  lemma CountIsCaptioned(events: seq<Event>, t: Tracker, id: string, done: int, total: int, unit: string)
    requires OpenedAsTold(events, t) && AfterProgress(t, id, done, total, unit, None).1.Some?
    ensures exists i :: 0 <= i < |events| && events[i].ToolStart? && events[i].id == id &&
              AfterProgress(t, id, done, total, unit, None).1.value ==
              Progress(id, done, total, unit, events[i].caption)
  {
    var starts: seq<nat> :| StartsAre(events, t.open, starts);
    var k := Find(t.open, id);
    assert Opens(events[starts[k]], t.open[k]);
  }

  /** An end is handed out exactly for a running step, under the name it was started with. */
  lemma EndIsGiven(events: seq<Event>, t: Tracker, id: string)
    requires Agrees(events, t)
    ensures var event := AfterEnd(t, id).1;
            && (event.Some? <==> LifeOf(events, id).Running?)
            && (event.Some? ==> event.value == ToolEnd(id, LifeOf(events, id).name))
  {
    assert LifeOf(events, id) == LifeIn(t, id);
  }

  predicate Opens(e: Event, step: Step) {
    e.ToolStart? && e.id == step.id && e.name == step.name && e.caption == step.caption
  }

  /** Where in the stream the open steps were started, in that order. */
  predicate StartsAre(events: seq<Event>, open: seq<Step>, starts: seq<nat>) {
    && |starts| == |open|
    && (forall k :: 0 <= k < |starts| ==> starts[k] < |events| && Opens(events[starts[k]], open[k]))
    && (forall i, j :: 0 <= i < j < |starts| ==> starts[i] < starts[j])
  }

  ghost predicate OpenedAsTold(events: seq<Event>, t: Tracker) {
    exists starts :: StartsAre(events, t.open, starts)
  }

  lemma MoreEventsTell(events: seq<Event>, more: seq<Event>, open: seq<Step>, starts: seq<nat>)
    requires StartsAre(events, open, starts)
    ensures StartsAre(events + more, open, starts)
  {
  }

  /** Every operation leaves the steps in the order their starts were handed out. */
  lemma StartKeepsOrder(events: seq<Event>, t: Tracker, name: string, caption: string, status: string,
                        stepId: Option<string>)
    requires OpenedAsTold(events, t)
    ensures var (after, event) := AfterStart(t, name, caption, status, stepId);
            OpenedAsTold(if event.Some? then events + [event.value] else events, after)
  {
    var (after, event) := AfterStart(t, name, caption, status, stepId);
    var starts: seq<nat> :| StartsAre(events, t.open, starts);
    if event.Some? {
      MoreEventsTell(events, [event.value], t.open, starts);
      assert StartsAre(events + [event.value], after.open, starts + [|events|]);
    } else {
      assert StartsAre(events, after.open, starts);
    }
  }

  lemma CountKeepsOrder(events: seq<Event>, t: Tracker, id: string, done: int, total: int, unit: string,
                        caption: Option<string>)
    requires OpenedAsTold(events, t)
    ensures var (after, event) := AfterProgress(t, id, done, total, unit, caption);
            OpenedAsTold(if event.Some? then events + [event.value] else events, after)
  {
    var (after, event) := AfterProgress(t, id, done, total, unit, caption);
    var starts: seq<nat> :| StartsAre(events, t.open, starts);
    if event.Some? {
      MoreEventsTell(events, [event.value], t.open, starts);
      assert StartsAre(events + [event.value], after.open, starts);
    }
  }

  lemma EndKeepsOrder(events: seq<Event>, t: Tracker, id: string)
    requires OpenedAsTold(events, t)
    ensures var (after, event) := AfterEnd(t, id);
            OpenedAsTold(if event.Some? then events + [event.value] else events, after)
  {
    var (after, event) := AfterEnd(t, id);
    var starts: seq<nat> :| StartsAre(events, t.open, starts);
    if event.Some? {
      var k := Find(t.open, id);
      MoreEventsTell(events, [event.value], t.open, starts);
      assert StartsAre(events + [event.value], after.open, starts[..k] + starts[k + 1..]);
    }
  }

  lemma {:induction false} EndsAreBackwards(open: seq<Step>)
    ensures |Ends(open)| == |open|
    ensures forall k :: 0 <= k < |open| ==>
              Ends(open)[k] == ToolEnd(open[|open| - 1 - k].id, open[|open| - 1 - k].name)
  {
    if open != [] {
      EndsAreBackwards(open[..|open| - 1]);
    }
  }

  /** Closing ends each open step once, the one started last first. */
  lemma InnermostFirst(events: seq<Event>, t: Tracker) returns (starts: seq<nat>)
    requires OpenedAsTold(events, t)
    ensures |starts| == |Ends(t.open)| == |t.open|
    ensures forall k :: 0 <= k < |starts| ==>
              && starts[k] < |events| && events[starts[k]].ToolStart?
              && Ends(t.open)[k] == ToolEnd(events[starts[k]].id, events[starts[k]].name)
    ensures forall i, j :: 0 <= i < j < |starts| ==> starts[i] > starts[j]
  {
    var inOrder: seq<nat> :| StartsAre(events, t.open, inOrder);
    EndsAreBackwards(t.open);
    starts := seq(|inOrder|, k requires 0 <= k < |inOrder| => inOrder[|inOrder| - 1 - k]);
    assert forall k :: 0 <= k < |starts| ==> Opens(events[starts[k]], t.open[|inOrder| - 1 - k]);
  }

  // --- generated ids never collide ---

  /** Every id the tracker knows was generated by it. */
  ghost predicate OnlyGenerated(t: Tracker) {
    && (forall k :: 0 <= k < |t.open| ==> WasGenerated(t.open[k].id, t.sequence))
    && (forall id :: id in t.closed ==> WasGenerated(id, t.sequence))
  }

  ghost predicate WasGenerated(id: string, sequence: nat) {
    exists name, n: nat :: n <= sequence && id == GeneratedId(name, n)
  }

  function Value(digits: string): nat
    requires forall i :: 0 <= i < |digits| ==> '0' <= digits[i] <= '9'
  {
    if digits == "" then 0 else 10 * Value(digits[..|digits| - 1]) + (digits[|digits| - 1] as int - '0' as int)
  }

  lemma {:induction false} DecimalReadsBack(n: nat)
    ensures forall i :: 0 <= i < |Decimal(n)| ==> '0' <= Decimal(n)[i] <= '9'
    ensures Value(Decimal(n)) == n
  {
    if n < 10 {
      assert Decimal(n) == [Digit(n)];
      assert Decimal(n)[..0] == "";
    } else {
      DecimalReadsBack(n / 10);
      assert Decimal(n)[..|Decimal(n)| - 1] == Decimal(n / 10);
    }
  }

  /** A generated id determines its number: digits hold no dash, so the last dash ends the
      name. */
  lemma GeneratedIdsDiffer(name: string, n: nat, other: string, m: nat)
    requires GeneratedId(name, n) == GeneratedId(other, m)
    ensures n == m
  {
    DecimalReadsBack(n);
    DecimalReadsBack(m);
    LastDash(name, Decimal(n), other, Decimal(m));
  }

  lemma LastDash(name: string, digits: string, other: string, others: string)
    requires forall i :: 0 <= i < |digits| ==> digits[i] != '-'
    requires forall i :: 0 <= i < |others| ==> others[i] != '-'
    requires name + ("-" + digits) == other + ("-" + others)
    ensures digits == others
  {
    NoLaterDash(name, digits);
    NoLaterDash(other, others);
    assert |name| == |other|;
    assert (name + ("-" + digits))[|name| + 1..] == digits;
    assert (other + ("-" + others))[|name| + 1..] == others;
  }

  lemma NoLaterDash(name: string, digits: string)
    requires forall i :: 0 <= i < |digits| ==> digits[i] != '-'
    ensures (name + ("-" + digits))[|name|] == '-'
    ensures forall k :: |name| < k < |name| + 1 + |digits| ==> (name + ("-" + digits))[k] != '-'
  {
  }

  lemma GeneratedStartsAreFresh(t: Tracker, name: string, caption: string, status: string)
    requires OnlyGenerated(t) && IsText(name) && IsText(caption) && IsText(status)
    ensures var (after, event) := AfterStart(t, name, caption, status, None);
            && event == Some(ToolStart(GeneratedId(name, t.sequence + 1), name, caption, status))
            && after == Tracker(t.open + [Step(GeneratedId(name, t.sequence + 1), name, caption, None)], t.closed,
                                t.sequence + 1)
            && OnlyGenerated(after)
  {
    var n := t.sequence + 1;
    GeneratedIsText(name, n);
    NextIdIsFresh(t, name);
    StillGenerated(t, n);
    OneMoreGenerated(t.(sequence := n), name, caption);
  }

  lemma OneMoreGenerated(t: Tracker, name: string, caption: string)
    requires OnlyGenerated(t)
    ensures OnlyGenerated(t.(open := t.open + [Step(GeneratedId(name, t.sequence), name, caption, None)]))
  {
    assert WasGenerated(GeneratedId(name, t.sequence), t.sequence);
  }

  lemma NextIdIsFresh(t: Tracker, name: string)
    requires OnlyGenerated(t)
    ensures var id := GeneratedId(name, t.sequence + 1); !IsOpen(t, id) && id !in t.closed
  {
    var id := GeneratedId(name, t.sequence + 1);
    if WasGenerated(id, t.sequence) {
      var other, m: nat :| m <= t.sequence && id == GeneratedId(other, m);
      GeneratedIdsDiffer(name, t.sequence + 1, other, m);
    }
  }

  lemma StillGenerated(t: Tracker, n: nat)
    requires OnlyGenerated(t) && t.sequence <= n
    ensures OnlyGenerated(t.(sequence := n))
  {
    forall id | WasGenerated(id, t.sequence)
      ensures WasGenerated(id, n)
    {
      var name, m: nat :| m <= t.sequence && id == GeneratedId(name, m);
    }
  }

  lemma GeneratedIsText(name: string, n: nat)
    ensures IsText(GeneratedId(name, n))
  {
    assert GeneratedId(name, n)[|name|] == '-';
  }
}
