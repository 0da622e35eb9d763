/** Which in-phase callbacks are sent.

    Models `_admit` (agent/src/reporting_agent/progress.py). Times are in milliseconds. */
module Throttle {
  import opened Options
  import opened RunStatus

  const PROGRESS_THROTTLE: int := 5000

  datatype Memory = Memory(phase: Option<Status>, lastSentAt: map<Status, int>)

  const NOTHING_SENT: Memory := Memory(None, map[])

  datatype Call = Call(phase: Status, completes: bool, now: int)

  predicate Admits(m: Memory, call: Call) {
    || m.phase != Some(call.phase)
    || call.phase !in m.lastSentAt
    || call.now - m.lastSentAt[call.phase] >= PROGRESS_THROTTLE
    || call.completes
  }

  function Admit(m: Memory, call: Call): Memory {
    if Admits(m, call) then Memory(Some(call.phase), m.lastSentAt[call.phase := call.now]) else m
  }

  /** The memory before the `k`-th call. */
  function Before(calls: seq<Call>, k: nat): Memory
    requires k <= |calls|
  {
    if k == 0 then NOTHING_SENT else Admit(Before(calls, k - 1), calls[k - 1])
  }

  predicate Sent(calls: seq<Call>, k: nat)
    requires k < |calls|
  {
    Admits(Before(calls, k), calls[k])
  }

  predicate Enters(calls: seq<Call>, k: nat)
    requires k < |calls|
  {
    k == 0 || calls[k - 1].phase != calls[k].phase
  }

  lemma {:induction false} PhaseIsTheLastCall(calls: seq<Call>, k: nat)
    requires 0 < k <= |calls|
    ensures Before(calls, k).phase == Some(calls[k - 1].phase)
    ensures calls[k - 1].phase in Before(calls, k).lastSentAt
  {
    if k > 1 {
      PhaseIsTheLastCall(calls, k - 1);
    }
  }

  /** Every phase change and every update that completes the count is sent, whatever was sent
      before. */
  lemma ChangesAndCompletionsAreSent(calls: seq<Call>, k: nat)
    requires k < |calls| && (Enters(calls, k) || calls[k].completes)
    ensures Sent(calls, k)
  {
    if k > 0 {
      PhaseIsTheLastCall(calls, k);
    }
  }

  /** The latest call sent before the `k`-th. */
  function LastSent(calls: seq<Call>, k: nat): (j: nat)
    requires 0 < k <= |calls|
    ensures j < k && Sent(calls, j)
    ensures forall i :: j < i < k ==> !Sent(calls, i)
  {
    if k == 1 || Sent(calls, k - 1) then k - 1 else LastSent(calls, k - 1)
  }

  lemma {:induction false} MemoryIsTheLastSent(calls: seq<Call>, k: nat)
    requires 0 < k <= |calls|
    ensures var j := LastSent(calls, k);
            && calls[j].phase == calls[k - 1].phase
            && Before(calls, k).lastSentAt[calls[k - 1].phase] == calls[j].now
  {
    PhaseIsTheLastCall(calls, k);
    if k > 1 && !Sent(calls, k - 1) {
      PhaseIsTheLastCall(calls, k - 1);
      MemoryIsTheLastSent(calls, k - 1);
    }
  }

  /** Any other refresh is sent exactly when the throttle interval has passed since the last
      callback sent. */
  lemma RefreshIsSentExactlyWhen(calls: seq<Call>, k: nat)
    requires k < |calls| && !Enters(calls, k) && !calls[k].completes
    ensures Sent(calls, k) <==> calls[k].now - calls[LastSent(calls, k)].now >= 5000
  {
    PhaseIsTheLastCall(calls, k);
    MemoryIsTheLastSent(calls, k);
  }

  /** The refreshes sent in `(a, b)` that completed nothing. */
  function Refreshes(calls: seq<Call>, a: nat, b: nat): nat
    requires a < b <= |calls|
  {
    if b == a + 1 then 0
    else Refreshes(calls, a, b - 1) + if Sent(calls, b - 1) && !calls[b - 1].completes then 1 else 0
  }

  predicate Stay(calls: seq<Call>, a: nat, b: nat)
    requires a < b <= |calls|
  {
    && Enters(calls, a)
    && (forall k :: a < k < b ==> calls[k].phase == calls[a].phase)
    && (forall k :: a < k < b ==> calls[k - 1].now <= calls[k].now)
  }

  lemma {:induction false} RefreshesSpread(calls: seq<Call>, a: nat, b: nat)
    requires a < b <= |calls| && Stay(calls, a, b)
    ensures a <= LastSent(calls, b)
    ensures calls[a].now + PROGRESS_THROTTLE * Refreshes(calls, a, b) <= calls[LastSent(calls, b)].now
    ensures calls[LastSent(calls, b)].now <= calls[b - 1].now
  {
    if b == a + 1 {
      ChangesAndCompletionsAreSent(calls, a);
    } else {
      assert forall k :: a < k < b - 1 ==> calls[k].phase == calls[a].phase && calls[k - 1].now <= calls[k].now;
      RefreshesSpread(calls, a, b - 1);
      assert calls[b - 1].phase == calls[a].phase && calls[b - 2].now <= calls[b - 1].now;
      assert calls[b - 2].phase == calls[a].phase;
      if !calls[b - 1].completes {
        RefreshIsSentExactlyWhen(calls, b - 1);
      }
    }
  }

  /** While the reporter stays in one phase, at most one other refresh is sent per interval of
      the stay. */
  lemma ThrottleBound(calls: seq<Call>, a: nat, b: nat)
    requires a < b <= |calls| && Stay(calls, a, b)
    ensures Refreshes(calls, a, b) <= (calls[b - 1].now - calls[a].now) / 5000
  {
    RefreshesSpread(calls, a, b);
  }
}
