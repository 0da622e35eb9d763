/** The merge of a source of events with heartbeats: a pump, a ticker and a consumer over one
    queue.

    Models `merge_with_heartbeat` (agent/src/reporting_agent/heartbeat.py) as a transition
    system. Any scheduling of the three tasks is a sequence of steps; a step that is not
    possible where it stands changes nothing. */
module HeartbeatMerge {
  import opened Options
  import opened Events
  import Invocation

  /** What the queue holds: an event of the source, a heartbeat of the ticker, or the sentinel
      the pump leaves when it is finished. */
  datatype Item = FromSource(event: Event) | Tick(ts: int) | Exhausted

  /** What iterating the source does: its events, then possibly an exception. */
  datatype Source = Source(events: seq<Event>, raises: bool)

  datatype Consumer = Reading | Through

  datatype Merge = Merge(
    pumped: nat, finished: bool, failed: bool, ticking: bool, queue: seq<Item>,
    output: seq<Item>, consumer: Consumer)

  datatype Step =
    | PumpEvent        // the pump takes the source's next event and queues it
    | PumpFinishes     // the source is over or raises; the sentinel is queued
    | TickerPushes(ts: int)
    | TickerFails
    | Consume          // the consumer takes the queue's first item

  const STARTED: Merge := Merge(0, false, false, true, [], [], Reading)

  predicate IsDone(item: Item) {
    item.FromSource? && item.event.Done?
  }

  predicate Possible(source: Source, m: Merge, step: Step) {
    match step
    case PumpEvent => !m.finished && m.pumped < |source.events|
    case PumpFinishes => !m.finished && m.pumped == |source.events|
    case TickerPushes(_) => m.ticking
    case TickerFails => m.ticking
    case Consume => m.consumer.Reading? && m.queue != []
  }

  function Consumed(m: Merge): Merge
    requires m.queue != []
  {
    var item := m.queue[0];
    var rest := m.(queue := m.queue[1..]);
    if item.Exhausted? then rest.(consumer := Through)
    else rest.(output := m.output + [item], consumer := if IsDone(item) then Through else Reading)
  }

  /** The consumer is suspended at each `yield`, so the other tasks can still take steps after
      `done` came out and before they are cancelled. Of what such a step changes, only `failed`
      is read afterwards. */
  function Next(source: Source, m: Merge, step: Step): Merge {
    if !Possible(source, m, step) then m
    else
      match step
      case PumpEvent => m.(pumped := m.pumped + 1, queue := m.queue + [FromSource(source.events[m.pumped])])
      case PumpFinishes => m.(finished := true, failed := source.raises, queue := m.queue + [Exhausted])
      case TickerPushes(ts) => m.(queue := m.queue + [Tick(ts)])
      case TickerFails => m.(ticking := false)
      case Consume => Consumed(m)
  }

  function Run(source: Source, steps: seq<Step>): (m: Merge)
    ensures m.pumped <= |source.events|
  {
    if steps == [] then STARTED else Next(source, Run(source, steps[..|steps| - 1]), steps[|steps| - 1])
  }

  /** The exception `merge_with_heartbeat` ends with, once its consumer is through. */
  predicate Raises(m: Merge) {
    m.consumer.Through? && m.failed
  }

  // --- what comes out ---

  /** The source's events among the items. */
  function FromItems(items: seq<Item>): seq<Event> {
    if items == [] then []
    else FromItems(items[..|items| - 1]) +
         if items[|items| - 1].FromSource? then [items[|items| - 1].event] else []
  }

  /** Up to and including the first `done`, or everything. */
  function UpToDone(events: seq<Event>): (r: seq<Event>)
    ensures r <= events
  {
    if events == [] then []
    else if events[0].Done? then events[..1]
    else [events[0]] + UpToDone(events[1..])
  }

  predicate NoDone(events: seq<Event>) {
    forall k :: 0 <= k < |events| ==> !events[k].Done?
  }

  lemma {:induction false} FromItemsAppend(a: seq<Item>, b: seq<Item>)
    ensures FromItems(a + b) == FromItems(a) + FromItems(b)
  {
    if b == [] {
      assert a + b == a;
    } else {
      assert (a + b)[..|a + b| - 1] == a + b[..|b| - 1];
      FromItemsAppend(a, b[..|b| - 1]);
    }
  }

  lemma {:induction false} UpToDonePasses(before: seq<Event>, after: seq<Event>)
    requires NoDone(before)
    ensures UpToDone(before + after) == before + UpToDone(after)
  {
    if before == [] {
      assert before + after == after;
    } else {
      assert (before + after)[1..] == before[1..] + after;
      UpToDonePasses(before[1..], after);
    }
  }

  /** The queue in front of the sentinel, and the ticks behind it. */
  ghost predicate Sentinel(m: Merge, source: Source) {
    && m.pumped <= |source.events|
    && (m.finished ==> m.pumped == |source.events|)
    && (forall k :: 0 <= k < |m.queue| && m.queue[k].Exhausted? ==>
          m.finished && forall j :: k < j < |m.queue| ==> m.queue[j].Tick?)
    && (m.failed ==> m.finished && source.raises)
    && (m.finished && source.raises ==> m.failed)
  }

  /** Nothing is lost, made up or put out of order on the way. */
  ghost predicate Flows(source: Source, m: Merge) {
    && Sentinel(m, source)
    && match m.consumer
       case Reading =>
         && NoDone(FromItems(m.output))
         && FromItems(m.output) + FromItems(m.queue) == source.events[..m.pumped]
         && (m.finished ==> exists k :: 0 <= k < |m.queue| && m.queue[k].Exhausted?)
       case Through =>
         && FromItems(m.output) == UpToDone(source.events)
         && (NoDone(source.events) ==> m.finished)
         && (!NoDone(source.events) ==> m.output != [] && IsDone(m.output[|m.output| - 1]))
  }

  lemma RunAppend(source: Source, steps: seq<Step>, step: Step)
    ensures Run(source, steps + [step]) == Next(source, Run(source, steps), step)
  {
    assert (steps + [step])[..|steps|] == steps;
  }

  lemma QueueGrows(source: Source, m: Merge, item: Item)
    requires Flows(source, m)
    ensures FromItems(m.queue + [item]) == FromItems(m.queue) + if item.FromSource? then [item.event] else []
  {
    assert (m.queue + [item])[..|m.queue|] == m.queue;
  }

  lemma PumpKeeps(source: Source, m: Merge)
    requires Flows(source, m) && !m.finished && m.pumped < |source.events|
    ensures Flows(source, Next(source, m, PumpEvent))
  {
    var e := source.events[m.pumped];
    QueueGrows(source, m, FromSource(e));
    SentinelWaits(m, source, FromSource(e));
    if m.consumer.Reading? {
      OneMorePumped(source.events, m.pumped, FromItems(m.output), FromItems(m.queue));
    }
  }

  lemma OneMorePumped(events: seq<Event>, n: nat, output: seq<Event>, queue: seq<Event>)
    requires n < |events| && output + queue == events[..n]
    ensures output + (queue + [events[n]]) == events[..n + 1]
  {
    Associate(output, queue, [events[n]]);
  }

  lemma Associate(a: seq<Event>, b: seq<Event>, c: seq<Event>)
    ensures a + (b + c) == (a + b) + c
  {
  }

  lemma SentinelWaits(m: Merge, source: Source, item: Item)
    requires Sentinel(m, source) && !m.finished && m.pumped < |source.events| && item.FromSource?
    ensures Sentinel(m.(pumped := m.pumped + 1, queue := m.queue + [item]), source)
  {
    var queue := m.queue + [item];
    forall k | 0 <= k < |queue|
      ensures !queue[k].Exhausted?
    {
      assert k < |m.queue| ==> queue[k] == m.queue[k];
    }
  }

  lemma FinishKeeps(source: Source, m: Merge)
    requires Flows(source, m) && !m.finished && m.pumped == |source.events|
    ensures Flows(source, Next(source, m, PumpFinishes))
  {
    QueueGrows(source, m, Exhausted);
    SentinelQueued(m, source);
    var after := Next(source, m, PumpFinishes);
    assert after.queue[|m.queue|].Exhausted?;
  }

  lemma SentinelQueued(m: Merge, source: Source)
    requires Sentinel(m, source) && !m.finished && m.pumped == |source.events|
    ensures Sentinel(m.(finished := true, failed := source.raises, queue := m.queue + [Exhausted]), source)
  {
    var queue := m.queue + [Exhausted];
    forall k | 0 <= k < |m.queue|
      ensures !queue[k].Exhausted?
    {
      assert queue[k] == m.queue[k];
    }
  }

  lemma TickKeeps(source: Source, m: Merge, ts: int)
    requires Flows(source, m)
    ensures Flows(source, m.(queue := m.queue + [Tick(ts)]))
  {
    QueueGrows(source, m, Tick(ts));
    var queue := m.queue + [Tick(ts)];
    assert forall k :: 0 <= k < |m.queue| ==> queue[k] == m.queue[k];
  }

  lemma HeadComesOut(items: seq<Item>)
    requires items != []
    ensures FromItems(items) == (if items[0].FromSource? then [items[0].event] else []) + FromItems(items[1..])
  {
    FromItemsAppend([items[0]], items[1..]);
    assert items == [items[0]] + items[1..];
    assert [items[0]][..0] == [];
  }

  lemma ConsumeKeeps(source: Source, m: Merge)
    requires Flows(source, m) && m.consumer.Reading? && m.queue != []
    ensures Flows(source, Consumed(m))
  {
    var item := m.queue[0];
    HeadComesOut(m.queue);
    match item {
      case Exhausted => SentinelComesOut(source, m);
      case Tick(_) => TickComesOut(source, m);
      case FromSource(_) => EventComesOut(source, m);
    }
  }

  lemma {:induction false} TicksOnly(items: seq<Item>)
    requires forall k :: 0 <= k < |items| ==> items[k].Tick?
    ensures FromItems(items) == []
  {
    if items != [] {
      TicksOnly(items[..|items| - 1]);
    }
  }

  lemma SentinelComesOut(source: Source, m: Merge)
    requires Flows(source, m) && m.consumer.Reading? && m.queue != [] && m.queue[0].Exhausted?
    requires FromItems(m.queue) == FromItems(m.queue[1..])
    ensures Flows(source, Consumed(m))
  {
    TicksOnly(m.queue[1..]);
    assert source.events[..m.pumped] == source.events;
    UpToDonePasses(source.events, []);
    assert source.events + [] == source.events;
  }

  lemma TickComesOut(source: Source, m: Merge)
    requires Flows(source, m) && m.consumer.Reading? && m.queue != [] && m.queue[0].Tick?
    requires FromItems(m.queue) == FromItems(m.queue[1..])
    ensures Flows(source, Consumed(m))
  {
    FromItemsAppend(m.output, [m.queue[0]]);
    assert [m.queue[0]][..0] == [];
    SentinelShifts(source, m);
  }

  lemma SentinelShifts(source: Source, m: Merge)
    requires Sentinel(m, source) && m.queue != [] && !m.queue[0].Exhausted?
    ensures Sentinel(Consumed(m), source)
    ensures (exists k :: 0 <= k < |m.queue| && m.queue[k].Exhausted?) ==>
              exists k :: 0 <= k < |m.queue[1..]| && m.queue[1..][k].Exhausted?
  {
    var queue := m.queue[1..];
    assert forall k :: 0 <= k < |queue| ==> queue[k] == m.queue[k + 1];
    if k :| 0 <= k < |m.queue| && m.queue[k].Exhausted? {
      assert queue[k - 1].Exhausted?;
    }
  }

  lemma EventComesOut(source: Source, m: Merge)
    requires Flows(source, m) && m.consumer.Reading? && m.queue != [] && m.queue[0].FromSource?
    requires FromItems(m.queue) == [m.queue[0].event] + FromItems(m.queue[1..])
    ensures Flows(source, Consumed(m))
  {
    var e, output := m.queue[0].event, FromItems(m.output);
    FromItemsAppend(m.output, [m.queue[0]]);
    assert [m.queue[0]][..0] == [];
    SentinelShifts(source, m);
    Associate(output, [e], FromItems(m.queue[1..]));
    if e.Done? {
      DoneComesOut(source, m, e, output);
    }
  }

  lemma DoneComesOut(source: Source, m: Merge, e: Event, output: seq<Event>)
    requires m.pumped <= |source.events| && NoDone(output) && e.Done?
    requires output + [e] <= source.events[..m.pumped]
    ensures output + [e] == UpToDone(source.events) && !NoDone(source.events)
  {
    var n := |output|;
    assert source.events[..m.pumped][..n + 1] == source.events[..n + 1];
    assert source.events == output + source.events[n..];
    UpToDonePasses(output, source.events[n..]);
    assert source.events[n] == e;
    assert source.events[n..][..1] == [e];
  }

  lemma StepKeeps(source: Source, m: Merge, step: Step)
    requires Flows(source, m)
    ensures Flows(source, Next(source, m, step))
  {
    if Possible(source, m, step) {
      match step {
        case PumpEvent => PumpKeeps(source, m);
        case PumpFinishes => FinishKeeps(source, m);
        case TickerPushes(ts) => TickKeeps(source, m, ts);
        case TickerFails =>
        case Consume => ConsumeKeeps(source, m);
      }
    }
  }

  lemma {:induction false} RunFlows(source: Source, steps: seq<Step>)
    ensures Flows(source, Run(source, steps))
  {
    if steps != [] {
      RunFlows(source, steps[..|steps| - 1]);
      StepKeeps(source, Run(source, steps[..|steps| - 1]), steps[|steps| - 1]);
    }
  }

  // --- every item in its place, heartbeats included ---

  /** What a step puts behind what was queued before: the source's next event, the sentinel once
      behind the last of them, or a heartbeat of a ticker that has not failed. */
  function Pushed(source: Source, queued: seq<Item>, before: seq<Step>, step: Step): seq<Item> {
    var n := |FromItems(queued)|;
    match step
    case PumpEvent => if n < |source.events| then [FromSource(source.events[n])] else []
    case PumpFinishes => if n == |source.events| && Exhausted !in queued then [Exhausted] else []
    case TickerPushes(ts) => if TickerFails !in before then [Tick(ts)] else []
    case TickerFails => []
    case Consume => []
  }

  /** All that the pump and the ticker queued, in the order they did. */
  function Queued(source: Source, steps: seq<Step>): seq<Item> {
    if steps == [] then []
    else
      var before := steps[..|steps| - 1];
      Queued(source, before) + Pushed(source, Queued(source, before), before, steps[|steps| - 1])
  }

  predicate IsEnd(item: Item) {
    item.Exhausted? || IsDone(item)
  }

  /** Up to and including the first `done`, or up to the sentinel, or everything. */
  function UpToEnd(items: seq<Item>): (r: seq<Item>)
    ensures r <= items
  {
    if items == [] || items[0].Exhausted? then []
    else if IsDone(items[0]) then items[..1]
    else [items[0]] + UpToEnd(items[1..])
  }

  predicate NoEnd(items: seq<Item>) {
    forall k :: 0 <= k < |items| ==> !IsEnd(items[k])
  }

  lemma {:induction false} UpToEndPasses(before: seq<Item>, after: seq<Item>)
    requires NoEnd(before)
    ensures UpToEnd(before + after) == before + UpToEnd(after)
  {
    if before == [] {
      assert before + after == after;
    } else {
      assert (before + after)[1..] == before[1..] + after;
      UpToEndPasses(before[1..], after);
    }
  }

  lemma {:induction false} UpToEndStays(items: seq<Item>, more: seq<Item>)
    requires !NoEnd(items)
    ensures UpToEnd(items + more) == UpToEnd(items) && !NoEnd(items + more)
  {
    var k :| 0 <= k < |items| && IsEnd(items[k]);
    assert (items + more)[k] == items[k];
    if !IsEnd(items[0]) {
      assert items[1..][k - 1] == items[k];
      assert (items + more)[1..] == items[1..] + more;
      UpToEndStays(items[1..], more);
    }
  }

  /** Where the items of `queued` are: in the output and the queue while the consumer reads,
      and once it is through the output is all up to their end. */
  ghost predicate InPlace(queued: seq<Item>, m: Merge) {
    match m.consumer
    case Reading => m.output + m.queue == queued && NoEnd(m.output)
    case Through => m.output == UpToEnd(queued) && !NoEnd(queued)
  }

  lemma MoreInPlace(queued: seq<Item>, m: Merge, after: Merge, item: Item)
    requires InPlace(queued, m)
    requires after.consumer == m.consumer && after.output == m.output && after.queue == m.queue + [item]
    ensures InPlace(queued + [item], after)
  {
    match m.consumer {
      case Reading => assert m.output + (m.queue + [item]) == m.output + m.queue + [item];
      case Through => UpToEndStays(queued, [item]);
    }
  }

  lemma ConsumedInPlace(queued: seq<Item>, m: Merge)
    requires InPlace(queued, m) && m.consumer.Reading? && m.queue != []
    ensures InPlace(queued, Consumed(m))
  {
    var item, rest := m.queue[0], m.queue[1..];
    assert m.queue == [item] + rest;
    assert m.output + ([item] + rest) == m.output + [item] + rest;
    UpToEndPasses(m.output, m.queue);
    assert queued[|m.output|] == item;
  }

  /** The counters behind `Queued` are those the tasks keep. */
  ghost predicate Counts(queued: seq<Item>, steps: seq<Step>, m: Merge) {
    && m.pumped == |FromItems(queued)|
    && (m.finished <==> Exhausted in queued)
    && (m.ticking <==> TickerFails !in steps)
  }

  lemma OneMoreQueued(source: Source, before: seq<Step>, step: Step)
    ensures Queued(source, before + [step]) ==
            Queued(source, before) + Pushed(source, Queued(source, before), before, step)
  {
    assert (before + [step])[..|before|] == before;
  }

  lemma OneMoreCounts(queued: seq<Item>, item: Item)
    ensures |FromItems(queued + [item])| == |FromItems(queued)| + if item.FromSource? then 1 else 0
    ensures Exhausted in queued + [item] <==> Exhausted in queued || item.Exhausted?
  {
    assert (queued + [item])[..|queued|] == queued;
  }

  lemma {:induction false} StepInPlace(source: Source, queued: seq<Item>, before: seq<Step>, m: Merge, step: Step)
    requires InPlace(queued, m) && Counts(queued, before, m) && Sentinel(m, source)
    ensures var more := queued + Pushed(source, queued, before, step);
            InPlace(more, Next(source, m, step)) && Counts(more, before + [step], Next(source, m, step))
  {
    assert queued + [] == queued;
    if Possible(source, m, step) {
      match step {
        case PumpEvent => ItemPushed(queued, m, Next(source, m, step), FromSource(source.events[m.pumped]));
        case PumpFinishes => ItemPushed(queued, m, Next(source, m, step), Exhausted);
        case TickerPushes(ts) => ItemPushed(queued, m, Next(source, m, step), Tick(ts));
        case TickerFails =>
        case Consume => ConsumedInPlace(queued, m);
      }
    }
  }

  lemma ItemPushed(queued: seq<Item>, m: Merge, after: Merge, item: Item)
    requires InPlace(queued, m)
    requires after.consumer == m.consumer && after.output == m.output && after.queue == m.queue + [item]
    ensures InPlace(queued + [item], after)
    ensures |FromItems(queued + [item])| == |FromItems(queued)| + if item.FromSource? then 1 else 0
    ensures Exhausted in queued + [item] <==> Exhausted in queued || item.Exhausted?
  {
    MoreInPlace(queued, m, after, item);
    OneMoreCounts(queued, item);
  }

  lemma {:induction false} AllInPlace(source: Source, steps: seq<Step>)
    ensures InPlace(Queued(source, steps), Run(source, steps))
    ensures Counts(Queued(source, steps), steps, Run(source, steps))
  {
    if steps != [] {
      var before, step := steps[..|steps| - 1], steps[|steps| - 1];
      AllInPlace(source, before);
      RunFlows(source, before);
      assert steps == before + [step];
      OneMoreQueued(source, before, step);
      StepInPlace(source, Queued(source, before), before, Run(source, before), step);
    }
  }

  /** Every item the pump or the ticker queued is in its place, once and in order: while the
      consumer reads, the output and the queue together are what was queued; once it is through,
      the output is what was queued up to and including the first `done`, or up to the sentinel. */
  lemma EveryItemInPlace(source: Source, steps: seq<Step>)
    ensures var m, queued := Run(source, steps), Queued(source, steps);
            && (m.consumer.Reading? ==> m.output + m.queue == queued && NoEnd(m.output))
            && (m.consumer.Through? ==> m.output == UpToEnd(queued) && !NoEnd(queued))
  {
    AllInPlace(source, steps);
  }

  // --- the promises ---

  /** The merge is transparent: whatever the scheduling, and whether or not the ticker fails,
      the output without heartbeats is a beginning of the source up to its first `done`, and
      all of that once the consumer is through. */
  lemma MergeIsTransparent(source: Source, steps: seq<Step>)
    ensures var m := Run(source, steps);
            && FromItems(m.output) <= UpToDone(source.events)
            && (m.consumer.Through? ==> FromItems(m.output) == UpToDone(source.events))
  {
    RunFlows(source, steps);
    var m := Run(source, steps);
    if m.consumer.Reading? {
      var output := FromItems(m.output);
      assert output <= source.events[..m.pumped];
      assert source.events == output + source.events[|output|..];
      UpToDonePasses(output, source.events[|output|..]);
    }
  }

  predicate DoneIsLast(m: Merge) {
    forall k :: 0 <= k < |m.output| && IsDone(m.output[k]) ==> k == |m.output| - 1 && m.consumer.Through?
  }

  lemma StepKeepsDoneLast(source: Source, m: Merge, step: Step)
    requires DoneIsLast(m)
    ensures DoneIsLast(Next(source, m, step))
  {
    if step.Consume? && Possible(source, m, step) {
      var after := Consumed(m);
      assert forall k :: 0 <= k < |m.output| ==> after.output[k] == m.output[k] && !IsDone(m.output[k]);
    }
  }

  /** Nothing follows `done`, not even a heartbeat already queued. */
  lemma {:induction false} NothingFollowsDone(source: Source, steps: seq<Step>)
    ensures DoneIsLast(Run(source, steps))
  {
    if steps != [] {
      NothingFollowsDone(source, steps[..|steps| - 1]);
      StepKeepsDoneLast(source, Run(source, steps[..|steps| - 1]), steps[|steps| - 1]);
    }
  }

  /** When no `done` comes, the source's exception surfaces exactly when the source raised, and
      only after every event it yielded before. */
  lemma ExceptionComesLast(source: Source, steps: seq<Step>)
    requires NoDone(source.events)
    ensures var m := Run(source, steps);
            && (m.consumer.Through? ==> (Raises(m) <==> source.raises))
            && (Raises(m) ==> FromItems(m.output) == source.events)
  {
    RunFlows(source, steps);
    UpToDonePasses(source.events, []);
    assert source.events + [] == source.events;
  }

  /** With or without a `done`: the consumer ends with the source's exception exactly when the
      pump had run into it by then. */
  lemma RaisesExactlyWhen(source: Source, steps: seq<Step>)
    ensures var m := Run(source, steps);
            Raises(m) <==> m.consumer.Through? && m.finished && source.raises
  {
    RunFlows(source, steps);
  }

  /** The exception can come after `done`, with the queue undrained. */
  lemma RaisesAfterDone(done: Event)
    requires done.Done?
    ensures var m := Run(Source([done], true), [PumpEvent] + [PumpFinishes] + [Consume]);
            m.output == [FromSource(done)] && m.queue == [Exhausted] && Raises(m)
  {
    var source := Source([done], true);
    RunAppend(source, [], PumpEvent);
    RunAppend(source, [PumpEvent], PumpFinishes);
    RunAppend(source, [PumpEvent] + [PumpFinishes], Consume);
    assert [] + [PumpEvent] == [PumpEvent];
  }

  /** The same source, and the exception is lost. */
  lemma LosesTheException(done: Event)
    requires done.Done?
    ensures var m := Run(Source([done], true), [PumpEvent] + [Consume]);
            m.output == [FromSource(done)] && m.consumer.Through? && !Raises(m)
  {
    var source := Source([done], true);
    RunAppend(source, [], PumpEvent);
    RunAppend(source, [PumpEvent], Consume);
    assert [] + [PumpEvent] == [PumpEvent];
  }

  lemma {:induction false} PumpFirst(source: Source, n: nat) returns (steps: seq<Step>)
    requires n <= |source.events|
    ensures var m := Run(source, steps); m.pumped == n && !m.finished && m.consumer.Reading?
  {
    steps := [];
    if n > 0 {
      var fewer := PumpFirst(source, n - 1);
      steps := fewer + [PumpEvent];
      RunAppend(source, fewer, PumpEvent);
    }
  }

  lemma SomethingToConsume(source: Source, steps: seq<Step>)
    requires var m := Run(source, steps); m.consumer.Reading? && (m.finished || !NoDone(source.events[..m.pumped]))
    ensures Run(source, steps).queue != []
  {
    RunFlows(source, steps);
    var m := Run(source, steps);
    assert FromItems(m.queue) == [] ==> FromItems(m.output) + FromItems(m.queue) == FromItems(m.output);
  }

  /** When enough was pumped, the consumer alone gets to its end. */
  lemma {:induction false} DrainToTheEnd(source: Source, steps: seq<Step>) returns (more: seq<Step>)
    requires var m := Run(source, steps); m.finished || !NoDone(source.events[..m.pumped])
    ensures var m, after := Run(source, steps), Run(source, more);
            after.consumer.Through? && after.finished == m.finished && after.failed == m.failed
    decreases |Run(source, steps).queue|
  {
    more := steps;
    if Run(source, steps).consumer.Reading? {
      SomethingToConsume(source, steps);
      RunAppend(source, steps, Consume);
      more := DrainToTheEnd(source, steps + [Consume]);
    }
  }

  /** Every source has a schedule to the end on which the exception surfaces exactly when the
      source raises. */
  lemma SomeScheduleRaises(source: Source) returns (steps: seq<Step>)
    ensures Run(source, steps).consumer.Through? && (Raises(Run(source, steps)) <==> source.raises)
  {
    var pumped := PumpFirst(source, |source.events|);
    RunAppend(source, pumped, PumpFinishes);
    steps := DrainToTheEnd(source, pumped + [PumpFinishes]);
    RaisesExactlyWhen(source, steps);
  }

  /** Every source with a `done` has one on which it does not, whatever the source does. */
  lemma SomeScheduleDoesNot(source: Source) returns (steps: seq<Step>)
    requires !NoDone(source.events)
    ensures Run(source, steps).consumer.Through? && !Raises(Run(source, steps))
  {
    var pumped := PumpFirst(source, |source.events|);
    assert source.events[..|source.events|] == source.events;
    steps := DrainToTheEnd(source, pumped);
    RaisesExactlyWhen(source, steps);
  }

  /** What is left to do: two for each event not pumped and for the end, one for each item queued. */
  function Left(source: Source, m: Merge): int {
    2 * (|source.events| - m.pumped) + (if m.finished then 0 else 2) + |m.queue|
  }

  /** The consumer never waits for good: while it reads, it or the pump has a step to take, and
      each such step leaves less to do. */
  lemma NeverStuck(source: Source, steps: seq<Step>)
    ensures var m := Run(source, steps);
            && 0 <= Left(source, m)
            && (m.consumer.Reading? ==>
                  exists step :: step in {Consume, PumpEvent, PumpFinishes} && Possible(source, m, step))
            && (forall step :: step in {Consume, PumpEvent, PumpFinishes} && Possible(source, m, step) ==>
                  Left(source, Next(source, m, step)) == Left(source, m) - 1)
  {
    RunFlows(source, steps);
    var m := Run(source, steps);
    if m.consumer.Reading? {
      var step := if m.queue != [] then Consume else if m.pumped < |source.events| then PumpEvent else PumpFinishes;
      assert Possible(source, m, step);
    }
  }

  /** The router's stream comes through the merge whole, its `done` last. */
  lemma InvocationComesThrough(inv: Invocation.Invocation, script: Invocation.Script, steps: seq<Step>)
    requires Run(Source(Invocation.Run(inv, script).events, false), steps).consumer.Through?
    ensures var m := Run(Source(Invocation.Run(inv, script).events, false), steps);
            && FromItems(m.output) == Invocation.Run(inv, script).events
            && m.output != [] && IsDone(m.output[|m.output| - 1]) && !Raises(m)
  {
    var events := Invocation.Run(inv, script).events;
    var source := Source(events, false);
    Invocation.EveryStreamIsGrammatical(inv, script);
    RunFlows(source, steps);
    var n := |events| - 1;
    UpToDonePasses(events[..n], events[n..]);
    assert events == events[..n] + events[n..] && events[n..][0] == events[n];
  }
}
