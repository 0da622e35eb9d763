/** The reporter of a run's phase transitions.

    Models the state of `ProgressReporter` and its operations `report`, `report_terminal`,
    `report_verification`, `aclose` and `_admit` (agent/src/reporting_agent/progress.py). What
    the scheduled deliveries do meanwhile is the subject of `DeliveryOrder`. */
module ProgressReporter {
  import opened Options
  import opened RunStatus
  import opened RunRow
  import opened CallbackBody
  import opened Throttle
  import opened TerminalDelivery

  predicate IsIntermediate(phase: Status) {
    IsAgentPhase(phase) && !IsTerminal(phase)
  }

  predicate Completes(current: Option<int>, total: Option<int>) {
    current.Some? && total.Some? && current.value >= total.value
  }

  class ProgressReporter {
    const enabled: bool
    const runId: string
    /** `progress_url` has a last segment to replace by the one of the verification endpoint. */
    const hasSibling: bool
    var currentPhase: Option<Status>
    var lastSentAt: map<Status, int>
    var terminalSent: bool
    /** The bodies of the scheduled deliveries. Each one waits behind the one before it. */
    var scheduled: seq<Body>
    /** Which of them are not over yet. */
    var pending: set<nat>

    function Remembered(): Memory
      reads this
    {
      Memory(currentPhase, lastSentAt)
    }

    ghost predicate Valid()
      reads this
    {
      && ScheduledSoundly()
      && (scheduled != [] && !terminalSent ==> currentPhase == Some(scheduled[|scheduled| - 1].phase))
    }

    /** Only intermediate callbacks of this run are ever scheduled, and a disabled reporter
        does nothing. */
    ghost predicate ScheduledSoundly()
      reads this
    {
      && (enabled ==> runId != "")
      && (!enabled ==> !terminalSent && scheduled == [])
      && (forall i :: i in pending ==> i < |scheduled|)
      && (terminalSent ==> pending == {})
      && (forall k :: 0 <= k < |scheduled| ==> IsIntermediate(scheduled[k].phase) && scheduled[k].runId == runId)
    }

    /** The texts are the context's, stripped of surrounding space. */
    constructor (url: string, token: string, runId: string)
      ensures Valid()
      ensures enabled <==> url != "" && token != "" && runId != ""
      ensures hasSibling <==> '/' in url
      ensures this.runId == runId && Remembered() == NOTHING_SENT && !terminalSent && scheduled == [] && pending == {}
    {
      enabled, hasSibling := url != "" && token != "" && runId != "", '/' in url;
      this.runId := runId;
      currentPhase, lastSentAt, terminalSent, scheduled, pending := None, map[], false, [], {};
    }

    /** The callback a delivery runs when it is over. */
    method Done(i: nat)
      requires Valid()
      modifies `pending
      ensures Valid() && pending == old(pending) - {i}
    {
      pending := pending - {i};
    }

    /** `aclose`: what is still pending is cancelled. */
    method Close() returns (cancelled: set<nat>)
      modifies `pending
      ensures cancelled == old(pending) && pending == {}
    {
      cancelled, pending := pending, {};
    }

    method TryAdmit(phase: Status, completes: bool, now: int) returns (admitted: bool)
      modifies `currentPhase, `lastSentAt
      ensures admitted <==> Admits(old(Remembered()), Call(phase, completes, now))
      ensures Remembered() == Admit(old(Remembered()), Call(phase, completes, now))
    {
      if currentPhase != Some(phase) {
        currentPhase := Some(phase);
        lastSentAt := lastSentAt[phase := now];
        return true;
      }
      if phase in lastSentAt && now - lastSentAt[phase] < PROGRESS_THROTTLE && !completes {
        return false;
      }
      lastSentAt := lastSentAt[phase := now];
      return true;
    }

    /** `report`. A terminal phase goes the awaited way, `posts` being its POSTs; nothing else
        is posted before this returns. */
    method Report(phase: Status, current: Option<int>, total: Option<int>, badge: Option<string>,
                  app: Transport, settlesIn: Option<nat>, now: int)
      returns (posts: seq<Post>)
      requires Valid()
      modifies this
      ensures Valid()
      ensures !enabled || old(terminalSent) || !IsAgentPhase(phase) ==>
                posts == [] && unchanged(this)
      ensures enabled && !old(terminalSent) && IsTerminal(phase) ==>
                && posts == TerminalPosts(app, phase == Completed, settlesIn, now)
                && terminalSent && scheduled == old(scheduled) && pending == {}
      ensures enabled && !old(terminalSent) && IsIntermediate(phase) ==>
                && posts == [] && !terminalSent
                && Remembered() == Admit(old(Remembered()), Call(phase, Completes(current, total), now))
      ensures enabled && !old(terminalSent) && IsIntermediate(phase) ==>
                if Admits(old(Remembered()), Call(phase, Completes(current, total), now)) then
                  && scheduled == old(scheduled) + [BodyOf(runId, Request(phase, current, total, badge, now))]
                  && pending == old(pending) + {|old(scheduled)|}
                else
                  scheduled == old(scheduled) && pending == old(pending)
    {
      posts := [];
      if !enabled || terminalSent {
        return;
      }
      if IsTerminal(phase) {
        var sent, cancelled;
        posts, sent, cancelled := ReportTerminal(phase, NO_FIELDS, app, settlesIn, now);
        return;
      }
      if !IsAgentPhase(phase) {
        return;
      }
      var admitted := TryAdmit(phase, Completes(current, total), now);
      if admitted {
        Schedule(BodyOf(runId, Request(phase, current, total, badge, now)));
      }
    }

    /** A delivery behind the one before it, pending until it is over. */
    method Schedule(body: Body)
      requires ScheduledSoundly() && enabled && !terminalSent
      requires IsIntermediate(body.phase) && body.runId == runId && currentPhase == Some(body.phase)
      modifies `scheduled, `pending
      ensures Valid()
      ensures scheduled == old(scheduled) + [body] && pending == old(pending) + {|old(scheduled)|}
    {
      pending := pending + {|scheduled|};
      scheduled := scheduled + [body];
    }

    /** `report_terminal`. It is always sent, whatever the throttle remembers: every POST carries
        the body built for the phase, and when it is over nothing is left pending. */
    method ReportTerminal(phase: Status, fields: Fields, app: Transport, settlesIn: Option<nat>, now: int)
      returns (posts: seq<Post>, sent: Option<Body>, cancelled: set<nat>)
      requires Valid()
      modifies this
      ensures Valid()
      ensures !enabled || !IsTerminal(phase) ==>
                posts == [] && sent == None && cancelled == {} && unchanged(this)
      ensures enabled && IsTerminal(phase) ==>
                && posts == TerminalPosts(app, phase == Completed, settlesIn, now)
                && sent == Some(BuildBody(runId, phase, fields))
                && terminalSent && scheduled == old(scheduled)
                && cancelled == old(pending) && pending == {}
                && Remembered() == Memory(Some(phase), old(lastSentAt)[phase := now])
    {
      posts, sent, cancelled := [], None, {};
      if !enabled || !IsTerminal(phase) {
        return;
      }
      var body := BuildBody(runId, phase, fields);
      sent := Some(body);
      currentPhase, lastSentAt, terminalSent := Some(phase), lastSentAt[phase := now], true;
      posts := SendTerminal(app, phase == Completed, settlesIn, now);
      cancelled := Close();
    }

    /** `report_verification`: awaited, with its own timeout, and nothing of the reporter's state
        depends on it. */
    method ReportVerification(app: Transport, now: int) returns (posts: seq<Post>)
      ensures !enabled || !hasSibling ==> posts == []
      ensures enabled && hasSibling ==>
                posts == Attempts(app, 0, now, VERIFICATION_TIMEOUT, PROGRESS_MAX_ATTEMPTS)
    {
      posts := [];
      if enabled && hasSibling {
        posts := Deliver(app, 0, now, VERIFICATION_TIMEOUT);
      }
    }
  }

  // --- a sequence of reports ---

  datatype Request = Request(phase: Status, current: Option<int>, total: Option<int>, badge: Option<string>, now: int)

  function CallOf(r: Request): Call {
    Call(r.phase, Completes(r.current, r.total), r.now)
  }

  function CallsOf(requests: seq<Request>): (calls: seq<Call>)
    ensures |calls| == |requests| && forall k :: 0 <= k < |calls| ==> calls[k] == CallOf(requests[k])
  {
    seq(|requests|, i requires 0 <= i < |requests| => CallOf(requests[i]))
  }

  function BodyOf(runId: string, r: Request): Body {
    BuildBody(runId, r.phase, NO_FIELDS.(current := r.current, total := r.total, badge := r.badge))
  }

  /** The bodies of the first `n` requests that the throttle lets through. */
  function ScheduledBodies(runId: string, requests: seq<Request>, n: nat): seq<Body>
    requires n <= |requests|
  {
    if n == 0 then []
    else
      ScheduledBodies(runId, requests, n - 1) +
      if Sent(CallsOf(requests), n - 1) then [BodyOf(runId, requests[n - 1])] else []
  }

  /** What a fresh reporter has scheduled after any sequence of intermediate reports. */
  method ReportAll(reporter: ProgressReporter, requests: seq<Request>, app: Transport)
    requires reporter.Valid() && reporter.enabled
    requires reporter.Remembered() == NOTHING_SENT && !reporter.terminalSent && reporter.scheduled == []
    requires forall k :: 0 <= k < |requests| ==> IsIntermediate(requests[k].phase)
    modifies reporter
    ensures reporter.Valid() && !reporter.terminalSent
    ensures reporter.scheduled == ScheduledBodies(reporter.runId, requests, |requests|)
  {
    for i := 0 to |requests|
      invariant reporter.Valid() && !reporter.terminalSent
      invariant reporter.Remembered() == Before(CallsOf(requests), i)
      invariant reporter.scheduled == ScheduledBodies(reporter.runId, requests, i)
    {
      var r := requests[i];
      var posts := reporter.Report(r.phase, r.current, r.total, r.badge, app, None, r.now);
    }
  }
}
