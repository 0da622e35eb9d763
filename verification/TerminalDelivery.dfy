/** One delivery with its retry, and the terminal callback's deliveries.

    Models `_deliver` and the waiting and re-sending of `report_terminal`
    (agent/src/reporting_agent/progress.py). Times are in milliseconds. The transport is an
    arbitrary function of the number of POSTs made and the time. */
module TerminalDelivery {
  import opened Options

  const PROGRESS_TIMEOUT: int := 5000
  const VERIFICATION_TIMEOUT: int := 30000
  const PROGRESS_MAX_ATTEMPTS: nat := 2
  const TERMINAL_ORDERING_BUDGET: int := 10000
  const TERMINAL_REFUSED_RETRY_DELAYS: seq<nat> := [3000, 10000]

  /** What becomes of a request if nobody stops waiting for it. */
  datatype Reply = Status(code: int, after: nat) | Raises(after: nat) | Hangs

  type Transport = (nat, int) -> Reply

  datatype Verdict = Delivered | Refused | Unanswered

  /** A POST, when it was sent and when it was over. */
  datatype Post = Post(at: int, until: int, verdict: Verdict)

  function Attempt(app: Transport, k: nat, t: int, limit: nat): (p: Post)
    ensures p.at == t <= p.until <= t + limit
  {
    match app(k, t)
    case Status(code, after) =>
      if after >= limit then Post(t, t + limit, Unanswered)
      else Post(t, t + after, if 200 <= code < 300 then Delivered else Refused)
    case Raises(after) => Post(t, t + if after < limit then after else limit, Unanswered)
    case Hangs => Post(t, t + limit, Unanswered)
  }

  /** Up to `left` attempts, back to back, until one is delivered. */
  function Attempts(app: Transport, k: nat, t: int, limit: nat, left: nat): (posts: seq<Post>)
    requires left > 0
    ensures 0 < |posts| <= left
    decreases left
  {
    var p := Attempt(app, k, t, limit);
    if p.verdict == Delivered || left == 1 then [p] else [p] + Attempts(app, k + 1, p.until, limit, left - 1)
  }

  function Last(posts: seq<Post>): Post
    requires posts != []
  {
    posts[|posts| - 1]
  }

  /** `_deliver`: the posts it makes; the last one is what it returns. */
  method Deliver(app: Transport, k: nat, t: int, limit: nat) returns (posts: seq<Post>)
    ensures posts == Attempts(app, k, t, limit, PROGRESS_MAX_ATTEMPTS)
  {
    posts := [];
    var attempt, now := 1, t;
    while attempt <= PROGRESS_MAX_ATTEMPTS
      invariant 1 <= attempt <= PROGRESS_MAX_ATTEMPTS + 1 && |posts| == attempt - 1
      invariant attempt > PROGRESS_MAX_ATTEMPTS ==> posts == Attempts(app, k, t, limit, PROGRESS_MAX_ATTEMPTS)
      invariant attempt <= PROGRESS_MAX_ATTEMPTS ==>
                  Attempts(app, k, t, limit, PROGRESS_MAX_ATTEMPTS) ==
                  posts + Attempts(app, k + attempt - 1, now, limit, PROGRESS_MAX_ATTEMPTS - attempt + 1)
    {
      var p := Attempt(app, k + attempt - 1, now, limit);
      posts := posts + [p];
      if p.verdict == Delivered {
        return;
      }
      now := p.until;
      attempt := attempt + 1;
    }
  }

  /** Re-sends after each of the delays while the last answer is a refusal. */
  function Resent(app: Transport, posts: seq<Post>, delays: seq<nat>): (r: seq<Post>)
    requires posts != []
    ensures posts <= r
    decreases |delays|
  {
    if delays == [] || Last(posts).verdict != Refused then posts
    else
      var more := Attempts(app, |posts|, Last(posts).until + delays[0], PROGRESS_TIMEOUT, PROGRESS_MAX_ATTEMPTS);
      Resent(app, posts + more, delays[1..])
  }

  /** How long the terminal callback waits for the deliveries before it; `None` is never. */
  function OrderingWait(settlesIn: Option<nat>): (wait: nat)
    ensures wait <= TERMINAL_ORDERING_BUDGET
  {
    if settlesIn.Some? && settlesIn.value < TERMINAL_ORDERING_BUDGET then settlesIn.value else TERMINAL_ORDERING_BUDGET
  }

  /** Every POST of a terminal callback requested at `t`. */
  function TerminalPosts(app: Transport, completed: bool, settlesIn: Option<nat>, t: int): (posts: seq<Post>)
    ensures posts != []
  {
    var first := Attempts(app, 0, t + OrderingWait(settlesIn), PROGRESS_TIMEOUT, PROGRESS_MAX_ATTEMPTS);
    if completed then Resent(app, first, TERMINAL_REFUSED_RETRY_DELAYS) else first
  }

  lemma OneResend(app: Transport, posts: seq<Post>, delays: seq<nat>)
    requires posts != [] && delays != [] && Last(posts).verdict == Refused
    ensures var more := Attempts(app, |posts|, Last(posts).until + delays[0], PROGRESS_TIMEOUT, PROGRESS_MAX_ATTEMPTS);
            Resent(app, posts, delays) == Resent(app, posts + more, delays[1..])
  {
  }

  /** The loop over the delays. */
  method Resend(app: Transport, first: seq<Post>, delays: seq<nat>) returns (posts: seq<Post>)
    requires first != []
    ensures posts == Resent(app, first, delays)
  {
    posts := first;
    var left := delays;
    while left != [] && Last(posts).verdict == Refused
      invariant posts != [] && Resent(app, first, delays) == Resent(app, posts, left)
      decreases |left|
    {
      OneResend(app, posts, left);
      ghost var before, rest := posts, left[1..];
      var more := Deliver(app, |posts|, Last(posts).until + left[0], PROGRESS_TIMEOUT);
      posts, left := posts + more, left[1..];
      assert Resent(app, first, delays) == Resent(app, before + more, rest);
    }
  }

  /** The waiting part of `report_terminal`. */
  method SendTerminal(app: Transport, completed: bool, settlesIn: Option<nat>, t: int) returns (posts: seq<Post>)
    ensures posts == TerminalPosts(app, completed, settlesIn, t)
  {
    var now := t + OrderingWait(settlesIn);
    posts := Deliver(app, 0, now, PROGRESS_TIMEOUT);
    if completed {
      posts := Resend(app, posts, TERMINAL_REFUSED_RETRY_DELAYS);
    }
  }

  // --- how long it can take ---

  lemma {:induction false} AttemptsBounded(app: Transport, k: nat, t: int, limit: nat, left: nat)
    requires left > 0
    ensures t <= Last(Attempts(app, k, t, limit, left)).until <= t + limit * left
    decreases left
  {
    var p := Attempt(app, k, t, limit);
    if p.verdict != Delivered && left > 1 {
      AttemptsBounded(app, k + 1, p.until, limit, left - 1);
      assert limit + limit * (left - 1) == limit * left;
    } else {
      assert limit <= limit * left;
    }
  }

  function Sum(delays: seq<nat>): nat {
    if delays == [] then 0 else delays[0] + Sum(delays[1..])
  }

  lemma {:induction false} ResentBounded(app: Transport, posts: seq<Post>, delays: seq<nat>)
    requires posts != []
    ensures |Resent(app, posts, delays)| <= |posts| + 2 * |delays|
    ensures Last(Resent(app, posts, delays)).until <= Last(posts).until + Sum(delays) + 10000 * |delays|
    decreases |delays|
  {
    if delays != [] && Last(posts).verdict == Refused {
      var at := Last(posts).until + delays[0];
      var more := Attempts(app, |posts|, at, PROGRESS_TIMEOUT, PROGRESS_MAX_ATTEMPTS);
      AttemptsBounded(app, |posts|, at, PROGRESS_TIMEOUT, PROGRESS_MAX_ATTEMPTS);
      assert Last(posts + more) == Last(more);
      ResentBounded(app, posts + more, delays[1..]);
    }
  }

  /** Over every behaviour of the transport: at most six POSTs and 53 seconds for `completed`,
      two POSTs and 20 seconds for `failed`. */
  lemma TerminalIsBounded(app: Transport, completed: bool, settlesIn: Option<nat>, t: int)
    ensures var posts := TerminalPosts(app, completed, settlesIn, t);
            && |posts| <= (if completed then 6 else 2)
            && Last(posts).until <= t + (if completed then 53000 else 20000)
  {
    var start := t + OrderingWait(settlesIn);
    var first := Attempts(app, 0, start, PROGRESS_TIMEOUT, PROGRESS_MAX_ATTEMPTS);
    AttemptsBounded(app, 0, start, PROGRESS_TIMEOUT, PROGRESS_MAX_ATTEMPTS);
    if completed {
      ResentBounded(app, first, TERMINAL_REFUSED_RETRY_DELAYS);
      assert TERMINAL_REFUSED_RETRY_DELAYS[1..] == [10000] && [10000][1..] == [];
      assert Sum(TERMINAL_REFUSED_RETRY_DELAYS) == 13000;
    }
  }

  /** The verification callback: at most two POSTs, within a minute. */
  lemma VerificationIsBounded(app: Transport, t: int)
    ensures var posts := Attempts(app, 0, t, VERIFICATION_TIMEOUT, PROGRESS_MAX_ATTEMPTS);
            |posts| <= 2 && Last(posts).until <= t + 60000
  {
    AttemptsBounded(app, 0, t, VERIFICATION_TIMEOUT, PROGRESS_MAX_ATTEMPTS);
  }

  // --- why it sends again ---

  /** Between two POSTs: straight on after a failed attempt, or after a delay and then only
      when the app answered with a refusal. A delivered POST is the last. */
  predicate Follows(p: Post, q: Post) {
    && p.verdict != Delivered
    && p.until <= q.at
    && (p.until < q.at ==> p.verdict == Refused)
  }

  predicate Chained(posts: seq<Post>) {
    forall i :: 0 < i < |posts| ==> Follows(posts[i - 1], posts[i])
  }

  lemma {:induction false} AttemptsChained(app: Transport, k: nat, t: int, limit: nat, left: nat)
    requires left > 0
    ensures Chained(Attempts(app, k, t, limit, left)) && Attempts(app, k, t, limit, left)[0].at == t
    decreases left
  {
    var p := Attempt(app, k, t, limit);
    if p.verdict != Delivered && left > 1 {
      AttemptsChained(app, k + 1, p.until, limit, left - 1);
    }
  }

  lemma {:induction false} ResentChained(app: Transport, posts: seq<Post>, delays: seq<nat>)
    requires posts != [] && Chained(posts)
    ensures Chained(Resent(app, posts, delays))
    decreases |delays|
  {
    if delays != [] && Last(posts).verdict == Refused {
      var at := Last(posts).until + delays[0];
      var more := Attempts(app, |posts|, at, PROGRESS_TIMEOUT, PROGRESS_MAX_ATTEMPTS);
      AttemptsChained(app, |posts|, at, PROGRESS_TIMEOUT, PROGRESS_MAX_ATTEMPTS);
      assert Follows(Last(posts), more[0]);
      ChainedAppend(posts, more);
      ResentChained(app, posts + more, delays[1..]);
    }
  }

  lemma ChainedAppend(posts: seq<Post>, more: seq<Post>)
    requires posts != [] && more != [] && Chained(posts) && Chained(more) && Follows(Last(posts), more[0])
    ensures Chained(posts + more)
  {
    var all := posts + more;
    forall i | 0 < i < |all|
      ensures Follows(all[i - 1], all[i])
    {
      if i > |posts| {
        assert all[i - 1] == more[i - |posts| - 1] && all[i] == more[i - |posts|];
      }
    }
  }

  lemma ResendsOnlyARefusal(app: Transport, completed: bool, settlesIn: Option<nat>, t: int)
    ensures Chained(TerminalPosts(app, completed, settlesIn, t))
  {
    var first := FirstDelivery(app, settlesIn, t);
    MaybeResentChained(app, completed, first, TERMINAL_REFUSED_RETRY_DELAYS);
  }

  lemma FirstDelivery(app: Transport, settlesIn: Option<nat>, t: int) returns (first: seq<Post>)
    ensures first == Attempts(app, 0, t + OrderingWait(settlesIn), PROGRESS_TIMEOUT, PROGRESS_MAX_ATTEMPTS)
    ensures first != [] && Chained(first)
  {
    var start := t + OrderingWait(settlesIn);
    first := Attempts(app, 0, start, PROGRESS_TIMEOUT, PROGRESS_MAX_ATTEMPTS);
    AttemptsChained(app, 0, start, PROGRESS_TIMEOUT, PROGRESS_MAX_ATTEMPTS);
  }

  lemma MaybeResentChained(app: Transport, completed: bool, first: seq<Post>, delays: seq<nat>)
    requires first != [] && Chained(first)
    ensures Chained(if completed then Resent(app, first, delays) else first)
  {
    if completed {
      ResentChained(app, first, delays);
    }
  }

  // --- exactly which POSTs are made ---

  /** What the app's reply makes of a POST under a limit. */
  predicate Shows(reply: Reply, p: Post, limit: int) {
    match reply
    case Status(code, after) =>
      if after < limit then p.until == p.at + after && p.verdict == (if code / 100 == 2 then Delivered else Refused)
      else p.until == p.at + limit && p.verdict == Unanswered
    case Raises(after) => p.verdict == Unanswered && p.until == p.at + (if after < limit then after else limit)
    case Hangs => p.verdict == Unanswered && p.until == p.at + limit
  }

  /** Whether the `i`-th POST of a terminal callback is followed by another: always a second
      attempt after a failed first one, and, for `completed` only, up to two more rounds after
      a refusal. */
  predicate AsksAgain(completed: bool, i: int, verdict: Verdict) {
    verdict != Delivered && (i % 2 == 0 || (completed && verdict == Refused && i < 5))
  }

  function Pause(i: int): nat {
    if i == 1 then 3000 else if i == 3 then 10000 else 0
  }

  /** From the `from`-th POST on, each POST is answered by the app and follows the one before
      when and as it should. */
  predicate Goes(app: Transport, completed: bool, posts: seq<Post>, from: nat) {
    forall i :: from <= i < |posts| ==> GoesOn(app, completed, posts, i)
  }

  predicate GoesOn(app: Transport, completed: bool, posts: seq<Post>, i: nat)
    requires i < |posts|
  {
    && Shows(app(i, posts[i].at), posts[i], 5000)
    && (i + 1 < |posts| ==> AsksAgain(completed, i, posts[i].verdict))
    && (i + 1 < |posts| ==> posts[i + 1].at == posts[i].until + Pause(i))
  }

  lemma AttemptShows(app: Transport, k: nat, t: int, limit: nat)
    ensures Shows(app(k, t), Attempt(app, k, t, limit), limit)
  {
  }

  /** Two attempts at most, the second exactly after a failed first one. */
  lemma TwoAttempts(app: Transport, k: nat, t: int, limit: nat) returns (posts: seq<Post>)
    ensures posts == Attempts(app, k, t, limit, PROGRESS_MAX_ATTEMPTS)
    ensures 1 <= |posts| <= 2 && posts[0].at == t && Shows(app(k, t), posts[0], limit)
    ensures |posts| == 2 <==> posts[0].verdict != Delivered
    ensures |posts| == 2 ==> posts[1].at == posts[0].until && Shows(app(k + 1, posts[1].at), posts[1], limit)
  {
    posts := Attempts(app, k, t, limit, PROGRESS_MAX_ATTEMPTS);
    var p := Attempt(app, k, t, limit);
    AttemptShows(app, k, t, limit);
    AttemptShows(app, k + 1, p.until, limit);
    assert p.verdict != Delivered ==> posts == [p] + Attempts(app, k + 1, p.until, limit, 1);
  }

  /** One more round behind an even number of POSTs. */
  lemma RoundGoes(app: Transport, completed: bool, before: seq<Post>, pause: nat) returns (all: seq<Post>)
    requires before != [] && |before| % 2 == 0 && Goes(app, completed, before, 0)
    requires AsksAgain(completed, |before| - 1, Last(before).verdict) && pause == Pause(|before| - 1)
    ensures all == before + Attempts(app, |before|, Last(before).until + pause, PROGRESS_TIMEOUT, PROGRESS_MAX_ATTEMPTS)
    ensures Goes(app, completed, all, 0) && |before| < |all| <= |before| + 2
    ensures |all| % 2 == 1 ==> Last(all).verdict == Delivered
  {
    var n := |before|;
    var more := TwoAttempts(app, n, Last(before).until + pause, PROGRESS_TIMEOUT);
    all := before + more;
    forall i | 0 <= i < |all|
      ensures GoesOn(app, completed, all, i)
    {
      if i < n {
        assert GoesOn(app, completed, before, i);
      }
    }
  }

  lemma FirstRoundGoes(app: Transport, completed: bool, start: int) returns (first: seq<Post>)
    ensures first == Attempts(app, 0, start, PROGRESS_TIMEOUT, PROGRESS_MAX_ATTEMPTS)
    ensures Goes(app, completed, first, 0) && 0 < |first| <= 2 && first[0].at == start
    ensures |first| == 1 ==> Last(first).verdict == Delivered
  {
    first := TwoAttempts(app, 0, start, PROGRESS_TIMEOUT);
  }

  lemma RoundsGo(app: Transport, posts: seq<Post>, delays: seq<nat>) returns (all: seq<Post>)
    requires 0 < |posts| <= 6 && Goes(app, true, posts, 0)
    requires |posts| % 2 == 1 ==> Last(posts).verdict == Delivered
    requires delays == if |posts| <= 2 then [3000, 10000] else if |posts| <= 4 then [10000] else []
    ensures all == Resent(app, posts, delays) && posts <= all && |all| <= 6 && Goes(app, true, all, 0)
    ensures !AsksAgain(true, |all| - 1, Last(all).verdict)
    decreases |delays|
  {
    all := posts;
    if delays != [] && Last(posts).verdict == Refused {
      var more := RoundGoes(app, true, posts, delays[0]);
      OneResend(app, posts, delays);
      assert delays[1..] == if |more| <= 4 then [10000] else [];
      all := RoundsGo(app, more, delays[1..]);
    }
  }

  lemma TerminalBegins(app: Transport, completed: bool, settlesIn: Option<nat>, t: int) returns (first: seq<Post>)
    ensures TerminalPosts(app, completed, settlesIn, t) ==
            if first != [] && completed then Resent(app, first, TERMINAL_REFUSED_RETRY_DELAYS) else first
    ensures Goes(app, completed, first, 0) && 0 < |first| <= 2 && first[0].at == t + OrderingWait(settlesIn)
    ensures |first| == 1 ==> Last(first).verdict == Delivered
  {
    first := FirstRoundGoes(app, completed, t + OrderingWait(settlesIn));
  }

  /** The terminal callback waits for the deliveries before it, ten seconds at most and not a
      moment longer than they take, and then posts. */
  lemma WaitsItsTurn(app: Transport, completed: bool, settlesIn: Option<nat>, t: int)
    ensures var wait := TerminalPosts(app, completed, settlesIn, t)[0].at - t;
            && 0 <= wait <= 10000
            && (wait < 10000 ==> settlesIn == Some(wait))
            && (settlesIn.Some? ==> wait <= settlesIn.value)
  {
    var first := FirstRoundGoes(app, completed, t + OrderingWait(settlesIn));
  }

  /** Which POSTs follow, and when: each is what the app makes of it, the next one comes exactly
      when it should, and the sequence ends where none should. */
  lemma PostsAreExactly(app: Transport, completed: bool, settlesIn: Option<nat>, t: int)
    ensures var posts := TerminalPosts(app, completed, settlesIn, t);
            Goes(app, completed, posts, 0) && !AsksAgain(completed, |posts| - 1, Last(posts).verdict)
  {
    var first := TerminalBegins(app, completed, settlesIn, t);
    MoreRoundsGo(app, completed, first, TERMINAL_REFUSED_RETRY_DELAYS);
  }

  lemma MoreRoundsGo(app: Transport, completed: bool, first: seq<Post>, delays: seq<nat>)
    requires 0 < |first| <= 2 && Goes(app, completed, first, 0) && delays == [3000, 10000]
    requires |first| == 1 ==> Last(first).verdict == Delivered
    ensures var posts := if completed then Resent(app, first, delays) else first;
            Goes(app, completed, posts, 0) && !AsksAgain(completed, |posts| - 1, Last(posts).verdict)
  {
    if completed {
      var all := RoundsGo(app, first, delays);
    }
  }

  /** Nothing else does: two such sequences that start at one time are the same. */
  lemma OneWayToGo(app: Transport, completed: bool, posts: seq<Post>, others: seq<Post>)
    requires posts != [] && Goes(app, completed, posts, 0) && !AsksAgain(completed, |posts| - 1, Last(posts).verdict)
    requires others != [] && Goes(app, completed, others, 0)
    requires !AsksAgain(completed, |others| - 1, Last(others).verdict)
    requires posts[0].at == others[0].at
    ensures posts == others
  {
    var n := 0;
    SamePost(app, completed, posts, others, 0);
    while n + 1 < |posts| && n + 1 < |others|
      invariant 0 <= n < |posts| && n < |others|
      invariant posts[..n + 1] == others[..n + 1]
    {
      SamePost(app, completed, posts, others, n);
      assert GoesOn(app, completed, posts, n) && GoesOn(app, completed, others, n);
      n := n + 1;
      SamePost(app, completed, posts, others, n);
    }
    assert posts[n] == posts[..n + 1][n] && others[n] == others[..n + 1][n];
    assert GoesOn(app, completed, posts, n) && GoesOn(app, completed, others, n);
  }

  lemma SamePost(app: Transport, completed: bool, posts: seq<Post>, others: seq<Post>, i: nat)
    requires i < |posts| && i < |others| && posts[i].at == others[i].at
    requires Goes(app, completed, posts, 0) && Goes(app, completed, others, 0)
    ensures posts[i] == others[i]
  {
    assert GoesOn(app, completed, posts, i) && GoesOn(app, completed, others, i);
  }

  // --- recovering from a late proof ---

  /** An app that answers at once, and accepts from `ready` on. */
  function AcceptsFrom(ready: int): Transport {
    (k, t) => Status(if t >= ready then 200 else 404, 0)
  }

  lemma InstantAttempts(ready: int, k: nat, t: int)
    ensures var posts := Attempts(AcceptsFrom(ready), k, t, PROGRESS_TIMEOUT, PROGRESS_MAX_ATTEMPTS);
            Last(posts) == Post(t, t, if t >= ready then Delivered else Refused)
  {
  }

  lemma FirstIsAtStart(app: Transport, completed: bool, settlesIn: Option<nat>, t: int)
    ensures TerminalPosts(app, completed, settlesIn, t)[0].at == t + OrderingWait(settlesIn)
  {
    var first := FirstRoundGoes(app, completed, t + OrderingWait(settlesIn));
  }

  lemma FirstInstant(ready: int, completed: bool, settlesIn: Option<nat>, t: int) returns (first: seq<Post>)
    ensures var start := t + OrderingWait(settlesIn);
            first != [] && Last(first) == Post(start, start, if start >= ready then Delivered else Refused)
    ensures TerminalPosts(AcceptsFrom(ready), completed, settlesIn, t) ==
            if completed then Resent(AcceptsFrom(ready), first, TERMINAL_REFUSED_RETRY_DELAYS) else first
  {
    var start := t + OrderingWait(settlesIn);
    first := Attempts(AcceptsFrom(ready), 0, start, PROGRESS_TIMEOUT, PROGRESS_MAX_ATTEMPTS);
    InstantAttempts(ready, 0, start);
  }

  lemma InstantResend(ready: int, posts: seq<Post>, delays: seq<nat>, t: int) returns (more: seq<Post>)
    requires posts != [] && delays != [] && Last(posts) == Post(t, t, Refused)
    ensures var again := t + delays[0];
            && posts + more != []
            && Last(posts + more) == Post(again, again, if again >= ready then Delivered else Refused)
            && Resent(AcceptsFrom(ready), posts, delays) == Resent(AcceptsFrom(ready), posts + more, delays[1..])
  {
    more := Attempts(AcceptsFrom(ready), |posts|, t + delays[0], PROGRESS_TIMEOUT, PROGRESS_MAX_ATTEMPTS);
    InstantAttempts(ready, |posts|, t + delays[0]);
    assert Last(posts + more) == Last(more);
    OneResend(AcceptsFrom(ready), posts, delays);
  }

  lemma TwoResends(ready: int, posts: seq<Post>, t: int, first: nat, second: nat)
    requires posts != [] && Last(posts) == Post(t, t, Refused) && t < ready
    ensures Last(Resent(AcceptsFrom(ready), posts, [first, second])).verdict == Delivered <==>
            ready <= t + first + second
  {
    var more := InstantResend(ready, posts, [first, second], t);
    assert [first, second][1..] == [second];
    if t + first < ready {
      var last := InstantResend(ready, posts + more, [second], t + first);
      assert [second][1..] == [];
    }
  }

  /** The terminal callback lands exactly when the app starts accepting no later than thirteen
      seconds after its first refusal, for `failed` at once. */
  lemma LandsExactlyWhen(ready: int, completed: bool, settlesIn: Option<nat>, t: int)
    ensures var posts := TerminalPosts(AcceptsFrom(ready), completed, settlesIn, t);
            Last(posts).verdict == Delivered <==> ready <= posts[0].at + if completed then 13000 else 0
  {
    var start := t + OrderingWait(settlesIn);
    var posts := FirstInstant(ready, completed, settlesIn, t);
    FirstIsAtStart(AcceptsFrom(ready), completed, settlesIn, t);
    if completed && start < ready {
      TwoResends(ready, posts, start, 3000, 10000);
    }
  }
}
