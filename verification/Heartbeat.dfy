/** The ticker: deadline scheduling with bounded catch-up.

    Models `_Timestamps` and `_ticker` (agent/src/reporting_agent/heartbeat.py). The clock is an
    arbitrary function of the number of times it was read, in microseconds; timestamps are in
    milliseconds. A run of the ticker is a number of turns of its loop: it is cancelled, or its
    `sleep` raises, after any of them. */
module Heartbeat {
  import opened Options

  type Clock = nat -> int

  const HEARTBEAT_INTERVAL: int := 15_000_000
  const HEARTBEAT_TOLERANCE: int := 5_000_000
  const FIRST_HEARTBEAT_DEADLINE: int := 20_000_000
  const MAX_EVENT_GAP: int := 30_000_000
  const MAX_CATCH_UP_TICKS: nat := 3

  /** `round(x, 3)` of a clock value: to milliseconds, ties to even. */
  function Rounded(us: int): int {
    var q, r := us / 1000, us % 1000;
    if r < 500 || (r == 500 && q % 2 == 0) then q else q + 1
  }

  /** A heartbeat: the clock value it was decided at, and the timestamp it carries. */
  datatype Push = Push(now: int, ts: int)

  /** The variables of the ticker's loop, with the heartbeats pushed so far. */
  datatype Ticker = Ticker(nextDue: int, caughtUp: nat, last: Option<int>, pushed: seq<Push>)

  function Clamped(last: Option<int>, ts: int): int {
    if last.Some? && ts < last.value then last.value else ts
  }

  function Pushes(s: Ticker, interval: int, now: int, emitted: int): Ticker {
    var ts := Clamped(s.last, Rounded(emitted));
    var due, count := s.nextDue + interval, s.caughtUp + 1;
    var pushed := s.pushed + [Push(now, ts)];
    if count >= MAX_CATCH_UP_TICKS && due <= now then Ticker(now + interval, 0, Some(ts), pushed)
    else Ticker(due, count, Some(ts), pushed)
  }

  function Turn(s: Ticker, interval: int, now: int, emitted: int): Ticker {
    if now < s.nextDue then s.(caughtUp := 0) else Pushes(s, interval, now, emitted)
  }

  /** The loop after `n` turns. Each turn reads the clock once, and once more when it pushes. */
  function After(clock: Clock, interval: int, start: int, n: nat): (Ticker, nat) {
    if n == 0 then (Ticker(start + interval, 0, None, []), 0)
    else
      var (s, readings) := After(clock, interval, start, n - 1);
      (Turn(s, interval, clock(readings), clock(readings + 1)), readings + if clock(readings) < s.nextDue then 1 else 2)
  }

  // --- the classes ---

  class Timestamps {
    const clock: Clock
    var readings: nat
    var last: Option<int>

    constructor (clock: Clock)
      ensures this.clock == clock && readings == 0 && last == None
    {
      this.clock, readings, last := clock, 0, None;
    }

    method Read() returns (now: int)
      modifies `readings
      ensures now == clock(old(readings)) && readings == old(readings) + 1
    {
      now := clock(readings);
      readings := readings + 1;
    }

    /** The timestamp never decreases, whatever the clock does. */
    method Emit() returns (ts: int)
      modifies this
      ensures readings == old(readings) + 1 && last == Some(ts)
      ensures ts == Clamped(old(last), Rounded(clock(old(readings))))
      ensures old(last).Some? ==> old(last).value <= ts
    {
      var now := Read();
      ts := Rounded(now);
      if last.Some? && ts < last.value {
        ts := last.value;
      }
      last := Some(ts);
    }
  }

  method RunTicker(timestamps: Timestamps, interval: int, start: int, turns: nat) returns (pushed: seq<Push>)
    requires timestamps.readings == 0 && timestamps.last == None && interval > 0
    modifies timestamps
    ensures pushed == After(timestamps.clock, interval, start, turns).0.pushed
  {
    pushed := [];
    var nextDue, caughtUp := start + interval, 0;
    for i := 0 to turns
      invariant After(timestamps.clock, interval, start, i) ==
                (Ticker(nextDue, caughtUp, timestamps.last, pushed), timestamps.readings)
    {
      var now := timestamps.Read();
      if now < nextDue {
        caughtUp := 0;
      } else {
        var ts := timestamps.Emit();
        pushed := pushed + [Push(now, ts)];
        nextDue, caughtUp := nextDue + interval, caughtUp + 1;
        if caughtUp >= MAX_CATCH_UP_TICKS && nextDue <= now {
          nextDue, caughtUp := now + interval, 0;
        }
      }
    }
  }

  /** Rounding goes to the nearest millisecond and, halfway between two, to the even one. */
  lemma RoundedIsNearest(us: int)
    ensures -500 <= us - 1000 * Rounded(us) <= 500
    ensures us % 1000 == 500 ==> Rounded(us) % 2 == 0
  {
  }

  /** A timestamp is the rounded clock, or the one before it if that is greater. */
  lemma ClampedIsTheGreater(last: Option<int>, ts: int)
    ensures ts <= Clamped(last, ts) && (last.Some? ==> last.value <= Clamped(last, ts))
    ensures Clamped(last, ts) == ts || Some(Clamped(last, ts)) == last
  {
  }

  // --- any clock ---

  /** Not too early: heartbeat `n` comes no earlier than `n` intervals after the start. */
  ghost predicate NotEarly(s: Ticker, interval: int, start: int) {
    && start + interval * (|s.pushed| + 1) <= s.nextDue
    && forall k :: 0 <= k < |s.pushed| ==> start + Multiple(interval, k + 1) <= s.pushed[k].now
  }

  function Multiple(interval: int, k: int): int {
    interval * k
  }

  lemma PushNotEarly(s: Ticker, interval: int, start: int, now: int, emitted: int)
    requires NotEarly(s, interval, start) && interval > 0 && s.nextDue <= now
    ensures NotEarly(Pushes(s, interval, now, emitted), interval, start)
  {
    var n := |s.pushed|;
    assert interval * (n + 2) == interval * (n + 1) + interval;
    assert Multiple(interval, n + 1) == interval * (n + 1);
  }

  lemma {:induction false} HeartbeatsAreNotEarly(clock: Clock, interval: int, start: int, n: nat)
    requires interval > 0
    ensures NotEarly(After(clock, interval, start, n).0, interval, start)
  {
    if n > 0 {
      HeartbeatsAreNotEarly(clock, interval, start, n - 1);
      var (s, readings) := After(clock, interval, start, n - 1);
      if s.nextDue <= clock(readings) {
        PushNotEarly(s, interval, start, clock(readings), clock(readings + 1));
      }
    }
  }

  /** When the heartbeat before the `k`-th was pushed, or the start. */
  function Previous(pushed: seq<Push>, k: nat, start: int): int
    requires k <= |pushed|
  {
    if k == 0 then start else pushed[k - 1].now
  }

  function Latest(pushed: seq<Push>, start: int): int {
    Previous(pushed, |pushed|, start)
  }

  /** After every push, and ever after, the next deadline is at most one interval past the latest
      heartbeat, or past the start before there is one. */
  lemma {:induction false} DeadlineIsNear(clock: Clock, interval: int, start: int, n: nat)
    requires interval > 0
    ensures var s := After(clock, interval, start, n).0;
            s.nextDue <= Latest(s.pushed, start) + interval
  {
    if n > 0 {
      DeadlineIsNear(clock, interval, start, n - 1);
      var (s, readings) := After(clock, interval, start, n - 1);
      TurnKeepsDeadline(s, interval, start, clock(readings), clock(readings + 1));
    }
  }

  lemma TurnKeepsDeadline(s: Ticker, interval: int, start: int, now: int, emitted: int)
    requires s.nextDue <= Latest(s.pushed, start) + interval
    ensures var after := Turn(s, interval, now, emitted);
            after.nextDue <= Latest(after.pushed, start) + interval
  {
  }

  predicate TimestampsAscend(pushed: seq<Push>) {
    forall j, k :: 0 <= j < k < |pushed| ==> pushed[j].ts <= pushed[k].ts
  }

  /** Emitted timestamps never decrease, even under a clock that goes backwards. */
  lemma {:induction false} TimestampsNeverDecrease(clock: Clock, interval: int, start: int, n: nat)
    ensures var s := After(clock, interval, start, n).0;
            && TimestampsAscend(s.pushed)
            && s.last == if s.pushed == [] then None else Some(s.pushed[|s.pushed| - 1].ts)
  {
    if n > 0 {
      TimestampsNeverDecrease(clock, interval, start, n - 1);
    }
  }

  // --- a clock that does not go backwards ---

  ghost predicate Forward(clock: Clock) {
    forall j: nat, k: nat :: j <= k ==> clock(j) <= clock(k)
  }

  /** The heartbeats already pushed at the given clock value. */
  function At(pushed: seq<Push>, now: int): nat {
    if pushed != [] && pushed[|pushed| - 1].now == now then 1 + At(pushed[..|pushed| - 1], now) else 0
  }

  /** At most three heartbeats at one clock value: any fourth is later. */
  predicate Spread(pushed: seq<Push>) {
    && (forall j, k :: 0 <= j < k < |pushed| ==> pushed[j].now <= pushed[k].now)
    && (forall k :: 0 <= k < |pushed| - MAX_CATCH_UP_TICKS ==> pushed[k].now < pushed[k + 3].now)
  }

  lemma {:induction false} AtMeans(pushed: seq<Push>, now: int)
    ensures At(pushed, now) <= |pushed|
    ensures forall k :: |pushed| - At(pushed, now) <= k < |pushed| ==> pushed[k].now == now
    ensures At(pushed, now) < |pushed| ==> pushed[|pushed| - At(pushed, now) - 1].now != now
  {
    if pushed != [] && pushed[|pushed| - 1].now == now {
      AtMeans(pushed[..|pushed| - 1], now);
    }
  }

  predicate LatestIs(pushed: seq<Push>, now: int) {
    pushed == [] || pushed[|pushed| - 1].now <= now
  }

  /** While the deadline is not past, the pushes at this clock value are counted by
      `caughtUp`, and there is room for another. */
  predicate HasRoom(s: Ticker, now: int) {
    s.nextDue <= now ==> At(s.pushed, now) <= s.caughtUp && At(s.pushed, now) <= 2
  }

  lemma PushSpreads(s: Ticker, interval: int, now: int, emitted: int)
    requires interval > 0 && Spread(s.pushed) && LatestIs(s.pushed, now) && HasRoom(s, now) && s.nextDue <= now
    ensures var after := Pushes(s, interval, now, emitted);
            Spread(after.pushed) && HasRoom(after, now) && LatestIs(after.pushed, now)
  {
    var after := Pushes(s, interval, now, emitted);
    var p := after.pushed[|s.pushed|];
    assert after.pushed == s.pushed + [p] && p.now == now;
    AtPush(s.pushed, p);
    FourthIsLater(s.pushed, now);
    OneMoreSpreads(s.pushed, p);
  }

  lemma AtPush(pushed: seq<Push>, p: Push)
    ensures At(pushed + [p], p.now) == At(pushed, p.now) + 1
  {
    assert (pushed + [p])[..|pushed|] == pushed;
  }

  lemma FourthIsLater(pushed: seq<Push>, now: int)
    requires Spread(pushed) && LatestIs(pushed, now) && At(pushed, now) <= 2
    ensures |pushed| >= 3 ==> pushed[|pushed| - 3].now < now
  {
    var m := |pushed|;
    AtMeans(pushed, now);
    if m >= 3 {
      assert pushed[m - At(pushed, now) - 1].now != now;
      assert pushed[m - 3].now <= pushed[m - At(pushed, now) - 1].now <= pushed[m - 1].now;
    }
  }

  lemma OneMoreSpreads(pushed: seq<Push>, p: Push)
    requires Spread(pushed) && LatestIs(pushed, p.now)
    requires |pushed| >= 3 ==> pushed[|pushed| - 3].now < p.now
    ensures Spread(pushed + [p]) && LatestIs(pushed + [p], p.now)
  {
    var more := pushed + [p];
    assert forall k :: 0 <= k < |pushed| ==> more[k] == pushed[k];
  }

  lemma LaterHasRoom(s: Ticker, now: int, later: int)
    requires LatestIs(s.pushed, now) && HasRoom(s, now) && now <= later
    ensures HasRoom(s, later) && LatestIs(s.pushed, later)
  {
  }

  /** At most `MAX_CATCH_UP_TICKS` heartbeats at any one clock value. */
  lemma {:induction false} CatchUpIsBounded(clock: Clock, interval: int, start: int, n: nat)
    requires interval > 0 && Forward(clock)
    ensures var (s, readings) := After(clock, interval, start, n);
            Spread(s.pushed) && LatestIs(s.pushed, clock(readings)) && HasRoom(s, clock(readings))
  {
    if n > 0 {
      CatchUpIsBounded(clock, interval, start, n - 1);
      var (s, readings) := After(clock, interval, start, n - 1);
      var (_, next) := After(clock, interval, start, n);
      TurnSpreads(s, interval, clock(readings), clock(readings + 1), clock(next));
    }
  }

  lemma TurnSpreads(s: Ticker, interval: int, now: int, emitted: int, next: int)
    requires interval > 0 && Spread(s.pushed) && LatestIs(s.pushed, now) && HasRoom(s, now) && now <= next
    ensures var after := Turn(s, interval, now, emitted);
            Spread(after.pushed) && LatestIs(after.pushed, next) && HasRoom(after, next)
  {
    if s.nextDue <= now {
      PushSpreads(s, interval, now, emitted);
    }
    LaterHasRoom(Turn(s, interval, now, emitted), now, next);
  }

  // --- a clock and a sleep that are on time ---

  /** The clock value the next turn decides at. */
  function DecidesAt(clock: Clock, interval: int, start: int, n: nat): int {
    clock(After(clock, interval, start, n).1)
  }

  /** The first turn comes within `late` of the start; a turn that slept is followed within
      `late` of the deadline it slept for, any other within `late` of its own clock value. */
  ghost predicate OnTime(clock: Clock, interval: int, start: int, late: int, turns: nat) {
    && DecidesAt(clock, interval, start, 0) <= start + late
    && forall n: nat :: n < turns ==> FollowedOnTime(clock, interval, start, late, n)
  }

  predicate FollowedOnTime(clock: Clock, interval: int, start: int, late: int, n: nat) {
    var now, due := DecidesAt(clock, interval, start, n), After(clock, interval, start, n).0.nextDue;
    DecidesAt(clock, interval, start, n + 1) <= (if now < due then due else now) + late
  }

  predicate GapsWithin(pushed: seq<Push>, start: int, limit: int) {
    forall k :: 0 <= k < |pushed| ==> pushed[k].now <= Previous(pushed, k, start) + limit
  }

  lemma {:induction false} GapsAreBounded(clock: Clock, interval: int, start: int, late: int, n: nat)
    requires interval > 0 && late >= 0 && OnTime(clock, interval, start, late, n)
    ensures OnSchedule(After(clock, interval, start, n).0, DecidesAt(clock, interval, start, n), interval, start, late)
  {
    if n > 0 {
      GapsAreBounded(clock, interval, start, late, n - 1);
      assert FollowedOnTime(clock, interval, start, late, n - 1);
      OnTimeTurn(clock, interval, start, late, n);
    }
  }

  lemma OnTimeTurn(clock: Clock, interval: int, start: int, late: int, n: nat)
    requires interval > 0 && late >= 0 && n > 0 && FollowedOnTime(clock, interval, start, late, n - 1)
    requires OnSchedule(After(clock, interval, start, n - 1).0, DecidesAt(clock, interval, start, n - 1),
                        interval, start, late)
    ensures OnSchedule(After(clock, interval, start, n).0, DecidesAt(clock, interval, start, n), interval, start, late)
  {
    var (s, readings) := After(clock, interval, start, n - 1);
    TurnKeepsGaps(s, interval, start, late, clock(readings), clock(readings + 1), DecidesAt(clock, interval, start, n));
  }

  /** Gaps so far within the bound, and the next decision due within it too. */
  predicate OnSchedule(s: Ticker, next: int, interval: int, start: int, late: int) {
    && GapsWithin(s.pushed, start, interval + late)
    && s.nextDue <= Latest(s.pushed, start) + interval
    && next <= Latest(s.pushed, start) + interval + late
  }

  lemma TurnKeepsGaps(s: Ticker, interval: int, start: int, late: int, now: int, emitted: int, next: int)
    requires interval > 0 && late >= 0
    requires OnSchedule(s, now, interval, start, late)
    requires next <= (if now < s.nextDue then s.nextDue else now) + late
    ensures OnSchedule(Turn(s, interval, now, emitted), next, interval, start, late)
  {
    if s.nextDue <= now {
      OneMoreGap(s.pushed, Pushes(s, interval, now, emitted).pushed, start, interval + late);
    }
  }

  lemma OneMoreGap(pushed: seq<Push>, more: seq<Push>, start: int, limit: int)
    requires GapsWithin(pushed, start, limit)
    requires |more| == |pushed| + 1 && more[..|pushed|] == pushed
    requires more[|pushed|].now <= Latest(pushed, start) + limit
    ensures GapsWithin(more, start, limit)
  {
    forall k | 0 <= k < |more|
      ensures more[k].now <= Previous(more, k, start) + limit
    {
      assert k > 0 ==> more[k - 1] == pushed[k - 1];
      assert k < |pushed| ==> more[k] == pushed[k];
    }
  }

  /** No drift: heartbeat `k` comes in the interval of its own number, and the next deadline
      is the next multiple of the interval from the start. */
  ghost predicate OnTheGrid(s: Ticker, next: int, interval: int, start: int) {
    && s.nextDue == start + Multiple(interval, |s.pushed| + 1)
    && next < s.nextDue + interval
    && forall k :: 0 <= k < |s.pushed| ==>
         start + Multiple(interval, k + 1) <= s.pushed[k].now < start + Multiple(interval, k + 2)
  }

  lemma TurnKeepsGrid(s: Ticker, interval: int, start: int, late: int, now: int, emitted: int, next: int)
    requires 0 <= late < interval && OnTheGrid(s, now, interval, start)
    requires next <= (if now < s.nextDue then s.nextDue else now) + late
    ensures OnTheGrid(Turn(s, interval, now, emitted), next, interval, start)
  {
    var n := |s.pushed|;
    assert Multiple(interval, n + 2) == Multiple(interval, n + 1) + interval;
    if s.nextDue <= now {
      var after := Pushes(s, interval, now, emitted);
      assert after.pushed[n].now == now && after.pushed[..n] == s.pushed;
    }
  }

  /** With sleeps late by less than an interval the heartbeats keep to multiples of the interval. */
  lemma {:induction false} HeartbeatsDoNotDrift(clock: Clock, interval: int, start: int, late: int, n: nat)
    requires 0 <= late < interval && OnTime(clock, interval, start, late, n)
    ensures OnTheGrid(After(clock, interval, start, n).0, DecidesAt(clock, interval, start, n), interval, start)
  {
    if n > 0 {
      HeartbeatsDoNotDrift(clock, interval, start, late, n - 1);
      assert FollowedOnTime(clock, interval, start, late, n - 1);
      var (s, readings) := After(clock, interval, start, n - 1);
      TurnKeepsGrid(s, interval, start, late, clock(readings), clock(readings + 1),
                    DecidesAt(clock, interval, start, n));
    } else {
      assert Multiple(interval, 1) == interval;
    }
  }

  /** With the interval of fifteen seconds and everything within the tolerance of five: the
      first heartbeat comes within its deadline, and no gap reaches the largest permitted. */
  lemma TolerancesHold(clock: Clock, start: int, n: nat)
    requires OnTime(clock, HEARTBEAT_INTERVAL, start, HEARTBEAT_TOLERANCE, n)
    ensures var pushed := After(clock, HEARTBEAT_INTERVAL, start, n).0.pushed;
            && (pushed != [] ==> pushed[0].now <= start + FIRST_HEARTBEAT_DEADLINE)
            && (forall k :: 0 < k < |pushed| ==> pushed[k].now - pushed[k - 1].now < MAX_EVENT_GAP)
  {
    GapsAreBounded(clock, HEARTBEAT_INTERVAL, start, HEARTBEAT_TOLERANCE, n);
    var pushed := After(clock, HEARTBEAT_INTERVAL, start, n).0.pushed;
    forall k | 0 < k < |pushed|
      ensures pushed[k].now - pushed[k - 1].now < MAX_EVENT_GAP
    {
      assert pushed[k].now <= Previous(pushed, k, start) + HEARTBEAT_INTERVAL + HEARTBEAT_TOLERANCE;
    }
  }
}
