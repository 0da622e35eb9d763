/** The redaction guard: a registry of secrets and the replacement that hides them.

    Models `register_secrets`, `discard_secrets`, `scrub` and `scrub_deep`
    (agent/src/reporting_agent/redaction.py). An escaped pattern matches its plaintext
    literally, so a registered secret is its plaintext. */
module Redaction {
  import opened Options
  import opened StableSort

  const PLACEHOLDER: string := "[redacted]"
  const MIN_SECRET_LENGTH: nat := 8

  // --- replacement of one pattern ---

  predicate OccursAt(p: string, s: string, i: int) {
    0 <= i <= |s| - |p| && forall k :: 0 <= k < |p| ==> p[k] == s[i + k]
  }

  ghost predicate Contains(s: string, p: string) {
    exists i :: OccursAt(p, s, i)
  }

  function Find(p: string, s: string, from: nat): (r: Option<nat>)
    requires from <= |s|
    ensures r.Some? ==> from <= r.value && OccursAt(p, s, r.value)
    ensures r.Some? ==> forall j :: from <= j < r.value ==> !OccursAt(p, s, j)
    ensures r.None? ==> forall j :: from <= j ==> !OccursAt(p, s, j)
    decreases |s| - from
  {
    if OccursAt(p, s, from) then Some(from)
    else if from == |s| then None
    else Find(p, s, from + 1)
  }

  /** `pattern.sub(SECRET_PLACEHOLDER, text)`: leftmost occurrences, not overlapping. */
  function Sub(p: string, s: string): string
    requires p != ""
    decreases |s|
  {
    match Find(p, s, 0)
    case None => s
    case Some(i) => s[..i] + PLACEHOLDER + Sub(p, s[i + |p|..])
  }

  // --- what stays and what is replaced ---

  function Join(pieces: seq<string>, separator: string): string
    requires pieces != []
  {
    if |pieces| == 1 then pieces[0] else pieces[0] + (separator + Join(pieces[1..], separator))
  }

  /** The pieces a text is cut into at `p`: each cut at the leftmost occurrence in what is left,
      and none in the last. */
  ghost predicate CutAt(p: string, s: string, pieces: seq<string>) {
    && pieces != [] && Join(pieces, p) == s
    && (forall i :: 0 <= i < |pieces| - 1 ==> NoEarlier(p, pieces[i]))
    && !Contains(pieces[|pieces| - 1], p)
  }

  predicate NoEarlier(p: string, lead: string) {
    var s := lead + p;
    forall j :: 0 <= j < |lead| ==> !OccursAt(p, s, j)
  }

  lemma OccursInPrefix(p: string, s: string, t: string, j: int)
    requires 0 <= j <= |s| - |p|
    ensures OccursAt(p, s + t, j) <==> OccursAt(p, s, j)
  {
    forall k | 0 <= k < |p|
      ensures p[k] == (s + t)[j + k] <==> p[k] == s[j + k]
    {
    }
  }

  lemma FirstIsAfterLead(p: string, a: string, b: string)
    requires p != "" && NoEarlier(p, a)
    ensures Find(p, a + p + b, 0) == Some(|a|)
  {
    var s := a + p;
    forall j | 0 <= j <= |a|
      ensures OccursAt(p, s + b, j) <==> OccursAt(p, s, j)
    {
      OccursInPrefix(p, s, b, j);
    }
    assert OccursAt(p, s, |a|);
  }

  lemma NothingBeforeFirst(p: string, s: string)
    requires p != "" && Find(p, s, 0).Some?
    ensures !Contains(s[..Find(p, s, 0).value], p)
  {
    var i := Find(p, s, 0).value;
    if Contains(s[..i], p) {
      var j :| OccursAt(p, s[..i], j);
      assert OccursAt(p, s, j);
    }
  }

  lemma CutHere(p: string, s: string, i: nat)
    requires p != "" && Find(p, s, 0) == Some(i)
    ensures s == s[..i] + (p + s[i + |p|..]) && NoEarlier(p, s[..i])
  {
    var piece, rest := s[..i], s[i + |p|..];
    CutOut(p, s, i);
    Regroup(piece, p, rest);
    forall j | 0 <= j < i
      ensures !OccursAt(p, piece + p, j)
    {
      OccursInPrefix(p, piece + p, rest, j);
    }
  }

  lemma CutOut(p: string, s: string, i: nat)
    requires OccursAt(p, s, i)
    ensures s == s[..i] + p + s[i + |p|..]
  {
    assert s[i..i + |p|] == p;
  }

  lemma SubFirst(p: string, piece: string, rest: string)
    requires p != "" && NoEarlier(p, piece)
    ensures Sub(p, piece + (p + rest)) == piece + (PLACEHOLDER + Sub(p, rest))
  {
    FirstIsAfterLead(p, piece, rest);
    ThreeParts(piece, p, rest);
    Regroup(piece, PLACEHOLDER, Sub(p, rest));
  }

  lemma ThreeParts(a: string, b: string, c: string)
    ensures a + (b + c) == a + b + c
    ensures (a + b + c)[..|a|] == a && (a + b + c)[|a| + |b|..] == c
  {
  }

  lemma Regroup(a: string, b: string, c: string)
    ensures a + (b + c) == a + b + c
  {
  }

  lemma OneMorePiece(p: string, piece: string, rest: string, more: seq<string>)
    requires p != "" && NoEarlier(p, piece) && CutAt(p, rest, more)
    ensures CutAt(p, piece + (p + rest), [piece] + more)
    ensures Join([piece] + more, PLACEHOLDER) == piece + (PLACEHOLDER + Join(more, PLACEHOLDER))
  {
    var pieces := [piece] + more;
    assert pieces[1..] == more;
    assert forall i :: 1 <= i < |pieces| ==> pieces[i] == more[i - 1];
  }

  /** A text is cut at every leftmost occurrence, and the replacement puts the placeholder into
      each cut: all the pieces between stay, in their order. */
  lemma {:induction false} SubReplacesEach(p: string, s: string) returns (pieces: seq<string>)
    requires p != ""
    ensures CutAt(p, s, pieces) && Sub(p, s) == Join(pieces, PLACEHOLDER)
    ensures forall i :: 0 <= i < |pieces| ==> !Contains(pieces[i], p)
    decreases |s|
  {
    match Find(p, s, 0)
    case None => pieces := [s];
    case Some(i) =>
      var piece, rest := s[..i], s[i + |p|..];
      CutHere(p, s, i);
      NothingBeforeFirst(p, s);
      var more := SubReplacesEach(p, rest);
      SubFirst(p, piece, rest);
      OneMorePiece(p, piece, rest, more);
      pieces := [piece] + more;
  }

  /** There is one way to cut a text. */
  lemma {:induction false} OneWayToCut(p: string, s: string, pieces: seq<string>)
    requires p != "" && CutAt(p, s, pieces)
    ensures Sub(p, s) == Join(pieces, PLACEHOLDER)
    decreases |pieces|
  {
    if |pieces| > 1 {
      var rest := pieces[1..];
      SubFirst(p, pieces[0], Join(rest, p));
      assert forall i :: 0 <= i < |rest| ==> rest[i] == pieces[i + 1];
      OneWayToCut(p, Join(rest, p), rest);
    }
  }

  // --- what can go wrong with one pattern ---

  /** Laid over the placeholder at offset `d`, the secret agrees wherever the two overlap. */
  predicate Agrees(p: string, d: int) {
    forall k :: 0 <= k < |p| && 0 <= d + k < |PLACEHOLDER| ==> p[k] == PLACEHOLDER[d + k]
  }

  /** Some part of the placeholder could be read as part of the secret. */
  ghost predicate Straddles(p: string) {
    exists d :: -|p| < d < |PLACEHOLDER| && Agrees(p, d)
  }

  lemma PlacedApart(a: string, b: string, p: string)
    requires p != "" && !Straddles(p)
    requires Contains(a + PLACEHOLDER + b, p)
    ensures Contains(a, p) || Contains(b, p)
  {
    var s := a + PLACEHOLDER + b;
    var i :| OccursAt(p, s, i);
    if i + |p| <= |a| {
      assert OccursAt(p, a, i);
    } else if i >= |a| + |PLACEHOLDER| {
      var at := i - |a| - |PLACEHOLDER|;
      assert OccursAt(p, b, at);
    } else {
      OverlapAgrees(a, b, p, i);
    }
  }

  lemma OverlapAgrees(a: string, b: string, p: string, i: int)
    requires OccursAt(p, a + PLACEHOLDER + b, i)
    ensures Agrees(p, i - |a|)
  {
    var s := a + PLACEHOLDER + b;
    forall k | 0 <= k < |p| && 0 <= i - |a| + k < |PLACEHOLDER|
      ensures p[k] == PLACEHOLDER[i - |a| + k]
    {
    }
  }

  lemma ContainsWithin(s: string, lo: nat, hi: nat, p: string)
    requires lo <= hi <= |s|
    requires Contains(s[lo..hi], p)
    ensures Contains(s, p)
  {
    var i :| OccursAt(p, s[lo..hi], i);
    assert OccursAt(p, s, lo + i);
  }

  /** Replacing `p` brings in no secret that was not there and cannot straddle. */
  lemma {:induction false} SubAddsNothing(p: string, q: string, s: string)
    requires p != "" && q != "" && !Straddles(q)
    requires !Contains(s, q)
    ensures !Contains(Sub(p, s), q)
    decreases |s|
  {
    match Find(p, s, 0)
    case None =>
    case Some(i) =>
      var rest := s[i + |p|..];
      if Contains(s[..i], q) {
        ContainsWithin(s, 0, i, q);
      }
      if Contains(rest, q) {
        assert rest == s[i + |p|..|s|];
        ContainsWithin(s, i + |p|, |s|, q);
      }
      SubAddsNothing(p, q, rest);
      if Contains(Sub(p, s), q) {
        PlacedApart(s[..i], Sub(p, rest), q);
      }
  }

  lemma {:induction false} SubRemoves(p: string, s: string)
    requires p != "" && !Straddles(p)
    ensures !Contains(Sub(p, s), p)
    decreases |s|
  {
    match Find(p, s, 0)
    case None =>
    case Some(i) =>
      var rest := s[i + |p|..];
      NothingBeforeFirst(p, s);
      SubRemoves(p, rest);
      if Contains(Sub(p, s), p) {
        PlacedApart(s[..i], Sub(p, rest), p);
      }
  }

  lemma SubUnchanged(p: string, s: string)
    requires p != "" && !Contains(s, p)
    ensures Sub(p, s) == s
  {
  }

  // --- when one pattern is safe, exactly ---

  function Lead(p: string, d: int): string
    requires -|p| < d
  {
    if d < 0 then p[..-d] else ""
  }

  function Trail(p: string, d: int): string
    requires d < |PLACEHOLDER|
  {
    if |p| > |PLACEHOLDER| - d then p[|PLACEHOLDER| - d..] else ""
  }

  /** The secret agrees with the placeholder at offset `d`, and the part of it that would
      stand before the placeholder does not itself complete an earlier occurrence. */
  predicate LeaksAt(p: string, d: int) {
    && -|p| < d < |PLACEHOLDER|
    && Agrees(p, d)
    && NoEarlier(p, Lead(p, d))
  }

  /** A text in which the first occurrence stands where the placeholder will complete the
      secret again. */
  function LeakText(p: string, d: int): string
    requires -|p| < d < |PLACEHOLDER|
  {
    Lead(p, d) + p + Trail(p, d)
  }

  lemma LeakComesBack(p: string, d: int)
    requires p != "" && -|p| < d < |PLACEHOLDER| && Agrees(p, d)
    ensures OccursAt(p, Lead(p, d) + PLACEHOLDER + Trail(p, d), if d < 0 then 0 else d)
  {
    var out := Lead(p, d) + PLACEHOLDER + Trail(p, d);
    var at := if d < 0 then 0 else d;
    assert |out| >= at + |p|;
    forall k | 0 <= k < |p|
      ensures p[k] == out[at + k]
    {
      if 0 <= d + k < |PLACEHOLDER| {
        assert p[k] == PLACEHOLDER[d + k];
      }
    }
  }

  lemma LeakIsReal(p: string, d: int)
    requires p != "" && LeaksAt(p, d)
    ensures Contains(Sub(p, LeakText(p, d)), p)
  {
    var a, b, s := Lead(p, d), Trail(p, d), LeakText(p, d);
    FirstIsAfterLead(p, a, b);
    assert |b| < |p|;
    SubOnce(p, a, b);
    LeakComesBack(p, d);
  }

  lemma SubOnce(p: string, a: string, b: string)
    requires p != "" && Find(p, a + p + b, 0) == Some(|a|) && !Contains(b, p)
    ensures Sub(p, a + p + b) == a + PLACEHOLDER + b
  {
    var s := a + p + b;
    assert s[..|a|] == a && s[|a| + |p|..] == b;
    SubUnchanged(p, b);
  }

  lemma {:induction false} LeakHasAnOffset(p: string, s: string) returns (d: int)
    requires p != "" && Contains(Sub(p, s), p)
    ensures LeaksAt(p, d)
    decreases |s|
  {
    var i := Find(p, s, 0).value;
    var rest := s[i + |p|..];
    if Contains(Sub(p, rest), p) {
      d := LeakHasAnOffset(p, rest);
    } else {
      var x :| OccursAt(p, s[..i] + PLACEHOLDER + Sub(p, rest), x);
      d := LeakAcross(p, s, i, x, Sub(p, rest));
    }
  }

  /** The secret reappears over the first placeholder, in neither of the texts beside it. */
  lemma LeakAcross(p: string, s: string, i: nat, x: int, after: string) returns (d: int)
    requires p != "" && Find(p, s, 0) == Some(i)
    requires OccursAt(p, s[..i] + PLACEHOLDER + after, x)
    requires !Contains(after, p)
    ensures LeaksAt(p, d)
  {
    var out := s[..i] + PLACEHOLDER + after;
    d := x - i;
    NothingBeforeFirst(p, s);
    BesidePlaceholder(p, s[..i], after, x);
    OverlapAgrees(s[..i], after, p, x);
    if d < 0 {
      forall k | 0 <= k < i - x
        ensures s[x + k] == p[k]
      {
        assert out[x + k] == p[k];
      }
      LeadIsText(p, s, i, x);
      assert Lead(p, d) == p[..i - x];
    }
  }

  lemma BesidePlaceholder(p: string, before: string, after: string, x: int)
    requires OccursAt(p, before + PLACEHOLDER + after, x)
    requires !Contains(before, p) && !Contains(after, p)
    ensures |before| - |p| < x < |before| + |PLACEHOLDER|
  {
    var out := before + PLACEHOLDER + after;
    var at := x - |before| - |PLACEHOLDER|;
    assert !OccursAt(p, after, at);
    assert !OccursAt(p, before, x);
    assert forall k :: 0 <= k < |before| ==> out[k] == before[k];
    assert forall k :: 0 <= k < |after| ==> out[|before| + |PLACEHOLDER| + k] == after[k];
  }

  lemma LeadIsText(p: string, s: string, i: nat, x: int)
    requires OccursAt(p, s, i) && 0 <= x < i && i - x < |p|
    requires forall j :: 0 <= j < i ==> !OccursAt(p, s, j)
    requires forall k :: 0 <= k < i - x ==> s[x + k] == p[k]
    ensures NoEarlier(p, p[..i - x])
  {
    var lead := p[..i - x];
    forall k | 0 <= k < |lead + p|
      ensures (lead + p)[k] == s[x + k]
    {
      if k >= i - x {
        assert p[k - (i - x)] == s[i + (k - (i - x))];
      }
    }
    forall j | 0 <= j < i - x
      ensures OccursAt(p, lead + p, j) ==> OccursAt(p, s, x + j)
    {
      forall k | 0 <= k < |p|
        ensures p[k] == s[x + j + k] <==> p[k] == (lead + p)[j + k]
      {
      }
    }
  }

  /** Some text still holds the secret after the replacement. */
  ghost predicate CanLeak(p: string)
    requires p != ""
  {
    exists s :: Contains(Sub(p, s), p)
  }

  /** The secret can be laid over the placeholder in a way that leaks. */
  ghost predicate HasLeak(p: string) {
    exists d :: LeaksAt(p, d)
  }

  lemma LeakNeedsOffset(p: string)
    requires p != "" && CanLeak(p)
    ensures HasLeak(p)
  {
    var s :| Contains(Sub(p, s), p);
    var d := LeakHasAnOffset(p, s);
  }

  lemma OffsetLeaks(p: string)
    requires p != "" && HasLeak(p)
    ensures CanLeak(p)
  {
    var d :| LeaksAt(p, d);
    LeakIsReal(p, d);
  }

  /** One pattern on its own leaks for some text exactly when it has a leaking offset. */
  lemma LeaksExactlyWhen(p: string)
    requires p != ""
    ensures CanLeak(p) <==> HasLeak(p)
  {
    if CanLeak(p) {
      LeakNeedsOffset(p);
    }
    if HasLeak(p) {
      OffsetLeaks(p);
    }
  }

  /** The word inside the placeholder leaks, and so does a secret that starts with the
      closing bracket. */
  lemma SecretsThatLeak()
    ensures CanLeak("redacted") && CanLeak("]abcdefg")
  {
    assert LeaksAt("redacted", 1);
    OffsetLeaks("redacted");
    assert LeaksAt("]abcdefg", 9);
    OffsetLeaks("]abcdefg");
  }

  /** A secret with no bracket that is not inside the word "redacted" cannot straddle. */
  lemma BracketFreeCannotStraddle(p: string)
    requires p != "" && '[' !in p && ']' !in p
    requires !Contains("redacted", p)
    ensures !Straddles(p)
  {
    forall d | -|p| < d < |PLACEHOLDER|
      ensures !Agrees(p, d)
    {
      if d <= 0 {
        assert p[-d] in p;
        assert p[-d] != PLACEHOLDER[d + -d];
      } else if d + |p| > 9 {
        assert p[9 - d] in p;
        assert p[9 - d] != PLACEHOLDER[d + (9 - d)];
      } else {
        InsideTheWord(p, d);
      }
    }
  }

  lemma InsideTheWord(p: string, d: int)
    requires 1 <= d && d + |p| <= 9
    ensures Agrees(p, d) ==> OccursAt(p, "redacted", d - 1)
  {
    assert PLACEHOLDER[1..9] == "redacted";
    assert forall k :: 0 <= k < 8 ==> "redacted"[k] == PLACEHOLDER[k + 1];
    if Agrees(p, d) {
      forall k | 0 <= k < |p|
        ensures p[k] == "redacted"[d - 1 + k]
      {
        assert p[k] == PLACEHOLDER[d + k];
      }
    }
  }

  // --- the registry ---

  function Length(s: string): real {
    |s| as real
  }

  /** Without duplicates, nothing short, longest first. */
  ghost predicate ValidRegistry(secrets: seq<string>) {
    && (forall i, j :: 0 <= i < j < |secrets| ==> secrets[i] != secrets[j])
    && (forall s :: s in secrets ==> |s| >= MIN_SECRET_LENGTH)
    && Descending(Length, secrets)
  }

  /** The values that are strings, long enough and not known yet, in order. */
  function Additions(known: set<string>, values: seq<Option<string>>): seq<string>
    decreases |values|
  {
    if values == [] then []
    else if values[0].None? || |values[0].value| < MIN_SECRET_LENGTH || values[0].value in known then
      Additions(known, values[1..])
    else [values[0].value] + Additions(known + {values[0].value}, values[1..])
  }

  function Elements(s: seq<string>): set<string> {
    set x | x in s
  }

  function Registered(current: seq<string>, values: seq<Option<string>>): seq<string> {
    SortDescending(Length, current + Additions(Elements(current), values))
  }

  predicate Registrable(values: seq<Option<string>>, s: string) {
    Some(s) in values && |s| >= MIN_SECRET_LENGTH
  }

  lemma {:induction false} AdditionsFacts(known: set<string>, values: seq<Option<string>>)
    ensures var a := Additions(known, values);
            && (forall i, j :: 0 <= i < j < |a| ==> a[i] != a[j])
            && (forall s :: s in a <==> Registrable(values, s) && s !in known)
    decreases |values|
  {
    if values != [] {
      forall s
        ensures Registrable(values, s) <==>
                (values[0] == Some(s) && |s| >= MIN_SECRET_LENGTH) || Registrable(values[1..], s)
      {
        assert Some(s) in values <==> Some(s) == values[0] || Some(s) in values[1..];
      }
      if values[0].None? || |values[0].value| < MIN_SECRET_LENGTH || values[0].value in known {
        AdditionsFacts(known, values[1..]);
      } else {
        AdditionsFacts(known + {values[0].value}, values[1..]);
      }
    }
  }

  predicate IsFirst(values: seq<Option<string>>, k: nat)
    requires k < |values|
  {
    forall j :: 0 <= j < k ==> values[j] != values[k]
  }

  /** The values added stand in the order of their first appearance. */
  lemma {:induction false} AdditionsInOrder(known: set<string>, values: seq<Option<string>>) returns (at: seq<nat>)
    ensures |at| == |Additions(known, values)|
    ensures forall i :: 0 <= i < |at| ==>
              at[i] < |values| && values[at[i]] == Some(Additions(known, values)[i]) && IsFirst(values, at[i])
    ensures forall i, j :: 0 <= i < j < |at| ==> at[i] < at[j]
    decreases |values|
  {
    at := [];
    if values != [] {
      var skips := values[0].None? || |values[0].value| < MIN_SECRET_LENGTH || values[0].value in known;
      var more := AdditionsInOrder(if skips then known else known + {values[0].value}, values[1..]);
      AdditionsFacts(if skips then known else known + {values[0].value}, values[1..]);
      var shifted: seq<nat> := seq(|more|, i requires 0 <= i < |more| => more[i] + 1);
      at := if skips then shifted else [0] + shifted;
      OneLater(known, values, more);
    }
  }

  /** No value added later is the first one. */
  lemma OneLater(known: set<string>, values: seq<Option<string>>, more: seq<nat>)
    requires values != []
    requires var skips := values[0].None? || |values[0].value| < MIN_SECRET_LENGTH || values[0].value in known;
             var rest := Additions(if skips then known else known + {values[0].value}, values[1..]);
             && |more| == |rest|
             && forall i :: 0 <= i < |more| ==>
                  more[i] < |values[1..]| && values[1..][more[i]] == Some(rest[i]) && IsFirst(values[1..], more[i])
    ensures forall i :: 0 <= i < |more| ==> IsFirst(values, more[i] + 1)
  {
    var skips := values[0].None? || |values[0].value| < MIN_SECRET_LENGTH || values[0].value in known;
    var now := if skips then known else known + {values[0].value};
    AdditionsFacts(now, values[1..]);
    forall i | 0 <= i < |more|
      ensures IsFirst(values, more[i] + 1)
    {
      assert Additions(now, values[1..])[i] in Additions(now, values[1..]);
      forall j | 0 <= j < more[i] + 1
        ensures values[j] != values[more[i] + 1]
      {
        assert j > 0 ==> values[1..][j - 1] != values[1..][more[i]];
      }
    }
  }

  lemma DistinctByMultiset(s: seq<string>)
    ensures (forall i, j :: 0 <= i < j < |s| ==> s[i] != s[j]) <==> (forall x :: multiset(s)[x] <= 1)
  {
    if forall i, j :: 0 <= i < j < |s| ==> s[i] != s[j] {
      DistinctCountsOnce(s);
    }
    if forall x :: multiset(s)[x] <= 1 {
      CountedOnceIsDistinct(s);
    }
  }

  lemma CountOfFirst(s: seq<string>)
    requires s != []
    ensures multiset(s) == multiset{s[0]} + multiset(s[1..])
  {
    assert s == [s[0]] + s[1..];
  }

  lemma {:induction false} DistinctCountsOnce(s: seq<string>)
    requires forall i, j :: 0 <= i < j < |s| ==> s[i] != s[j]
    ensures forall x :: multiset(s)[x] <= 1
  {
    if s != [] {
      CountOfFirst(s);
      DistinctCountsOnce(s[1..]);
      assert s[0] !in s[1..];
    }
  }

  lemma {:induction false} CountedOnceIsDistinct(s: seq<string>)
    requires forall x :: multiset(s)[x] <= 1
    ensures forall i, j :: 0 <= i < j < |s| ==> s[i] != s[j]
  {
    if s != [] {
      CountOfFirst(s);
      assert forall x :: multiset(s[1..])[x] <= multiset(s)[x];
      CountedOnceIsDistinct(s[1..]);
      assert s[0] !in s[1..] by {
        assert multiset(s)[s[0]] == 1 + multiset(s[1..])[s[0]];
      }
      forall i, j | 0 <= i < j < |s|
        ensures s[i] != s[j]
      {
        assert s[j] == s[1..][j - 1];
        assert i > 0 ==> s[i] == s[1..][i - 1];
      }
    }
  }

  lemma RegisteredFacts(current: seq<string>, values: seq<Option<string>>)
    requires ValidRegistry(current)
    ensures ValidRegistry(Registered(current, values))
    ensures forall s :: s in Registered(current, values) <==> s in current || Registrable(values, s)
  {
    var known := Elements(current);
    var all := current + Additions(known, values);
    var sorted := Registered(current, values);
    AdditionsFacts(known, values);
    assert forall i :: 0 <= i < |current| ==> current[i] in known;
    assert forall i :: |current| <= i < |all| ==> all[i] in Additions(known, values);
    SortedFacts(all);
  }

  lemma SortedFacts(all: seq<string>)
    requires forall i, j :: 0 <= i < j < |all| ==> all[i] != all[j]
    ensures var sorted := SortDescending(Length, all);
            && (forall i, j :: 0 <= i < j < |sorted| ==> sorted[i] != sorted[j])
            && (forall s :: s in sorted <==> s in all)
            && Descending(Length, sorted)
  {
    var sorted := SortDescending(Length, all);
    SortIsDescending(Length, all);
    DistinctByMultiset(all);
    DistinctByMultiset(sorted);
    forall s
      ensures s in sorted <==> s in all
    {
      assert s in multiset(sorted) <==> s in multiset(all);
    }
  }

  /** Registering the same values again changes nothing, order included. */
  lemma RegisterTwice(current: seq<string>, values: seq<Option<string>>)
    requires ValidRegistry(current)
    ensures Registered(Registered(current, values), values) == Registered(current, values)
  {
    var once := Registered(current, values);
    RegisteredFacts(current, values);
    NothingToAdd(Elements(once), values);
    assert once + [] == once;
    DescendingIsSorted(Length, once);
  }

  lemma {:induction false} NothingToAdd(known: set<string>, values: seq<Option<string>>)
    requires forall s :: Registrable(values, s) ==> s in known
    ensures Additions(known, values) == []
  {
    if values != [] {
      assert values[0].None? || Some(values[0].value) in values;
      assert values[0].Some? ==> Registrable(values, values[0].value) || |values[0].value| < MIN_SECRET_LENGTH;
      forall s | Registrable(values[1..], s)
        ensures s in known
      {
        assert Registrable(values, s);
      }
      NothingToAdd(known, values[1..]);
    }
  }

  lemma AdditionsStep(known: set<string>, values: seq<Option<string>>, k: nat)
    requires k < |values|
    ensures Additions(known, values[k..])
            == if values[k].Some? && |values[k].value| >= MIN_SECRET_LENGTH && values[k].value !in known
               then [values[k].value] + Additions(known + {values[k].value}, values[k + 1..])
               else Additions(known, values[k + 1..])
  {
    assert values[k..][1..] == values[k + 1..];
  }

  lemma OneMoreAddition(additions: seq<string>, value: string, rest: seq<string>)
    ensures additions + ([value] + rest) == additions + [value] + rest
  {
  }

  /** What setting the context variable returned, with what has become of it since. */
  datatype Token = Token(before: seq<string>, mintedHere: bool, used: bool)

  class Registry {
    var secrets: seq<string>

    constructor ()
      ensures secrets == [] && ValidRegistry(secrets)
    {
      secrets := [];
    }

    method Register(values: seq<Option<string>>) returns (token: seq<string>)
      requires ValidRegistry(secrets)
      modifies this
      ensures ValidRegistry(secrets)
      ensures token == old(secrets)
      ensures secrets == Registered(old(secrets), values)
      ensures forall s :: s in secrets <==> s in old(secrets) || Registrable(values, s)
    {
      token := secrets;
      var additions := Unknown(values);
      RegisteredFacts(secrets, values);
      secrets := SortDescending(Length, secrets + additions);
    }

    /** The values to add: strings, long enough, each once and none already registered. */
    method Unknown(values: seq<Option<string>>) returns (additions: seq<string>)
      ensures additions == Additions(Elements(secrets), values)
    {
      var known := Elements(secrets);
      additions := [];
      var k := 0;
      assert values[0..] == values;
      while k < |values|
        invariant 0 <= k <= |values|
        invariant additions + Additions(known, values[k..]) == Additions(Elements(secrets), values)
      {
        AdditionsStep(known, values, k);
        if values[k].Some? {
          OneMoreAddition(additions, values[k].value, Additions(known + {values[k].value}, values[k + 1..]));
        }
        if values[k].Some? && |values[k].value| >= MIN_SECRET_LENGTH && values[k].value !in known {
          known := known + {values[k].value};
          additions := additions + [values[k].value];
        }
        k := k + 1;
      }
    }

    /** Empty the registry, or restore what an unused token of this context recorded. A token
        already used raises, and then the secrets stay. */
    method Discard(token: Option<Token>) returns (raised: bool)
      requires token.Some? ==> ValidRegistry(token.value.before)
      requires ValidRegistry(secrets)
      modifies this
      ensures ValidRegistry(secrets)
      ensures raised <==> token.Some? && token.value.used
      ensures secrets == if raised then old(secrets)
                         else if token.Some? && token.value.mintedHere then token.value.before
                         else []
    {
      if token.None? {
        secrets := [];
        return false;
      }
      if token.value.used {
        return true;
      }
      if token.value.mintedHere {
        secrets := token.value.before;
      } else {
        secrets := [];
      }
      raised := false;
    }

    method Scrub(text: Option<string>) returns (r: Option<string>)
      requires ValidRegistry(secrets)
      ensures text.None? ==> r.None?
      ensures text.Some? ==> r == Some(Scrubbed(secrets, text.value))
    {
      if text.None? {
        return None;
      }
      NoneShortIsNoneEmpty(secrets);
      var out := ScrubWith(secrets, text.value);
      r := Some(out);
    }
  }

  lemma NoneShortIsNoneEmpty(secrets: seq<string>)
    requires ValidRegistry(secrets)
    ensures NoneEmpty(secrets)
  {
    assert forall i :: 0 <= i < |secrets| ==> secrets[i] in secrets;
  }

  /** The loop of `scrub`. */
  method ScrubWith(secrets: seq<string>, text: string) returns (out: string)
    requires NoneEmpty(secrets)
    ensures out == Scrubbed(secrets, text)
  {
    out := text;
    var k := 0;
    while k < |secrets|
      invariant 0 <= k <= |secrets|
      invariant out == Scrubbed(secrets[..k], text)
    {
      assert secrets[..k + 1][..k] == secrets[..k];
      out := Sub(secrets[k], out);
      k := k + 1;
    }
    assert secrets[..k] == secrets;
  }

  // --- scrubbing with the whole registry ---

  predicate NoneEmpty(secrets: seq<string>) {
    forall i :: 0 <= i < |secrets| ==> secrets[i] != ""
  }

  function Scrubbed(secrets: seq<string>, text: string): string
    requires NoneEmpty(secrets)
  {
    if secrets == [] then text
    else Sub(secrets[|secrets| - 1], Scrubbed(secrets[..|secrets| - 1], text))
  }

  ghost predicate NoneStraddle(secrets: seq<string>) {
    forall i :: 0 <= i < |secrets| ==> secrets[i] != "" && !Straddles(secrets[i])
  }

  ghost predicate Holds(text: string, secrets: seq<string>) {
    exists i :: 0 <= i < |secrets| && Contains(text, secrets[i])
  }

  /** No registered secret is left in the output. */
  lemma {:induction false} ScrubLeavesNoSecret(secrets: seq<string>, text: string)
    requires NoneStraddle(secrets)
    ensures !Holds(Scrubbed(secrets, text), secrets)
  {
    if secrets != [] {
      var init, last := secrets[..|secrets| - 1], secrets[|secrets| - 1];
      var before := Scrubbed(init, text);
      ScrubLeavesNoSecret(init, text);
      SubRemoves(last, before);
      forall i | 0 <= i < |init|
        ensures !Contains(Scrubbed(secrets, text), secrets[i])
      {
        assert init[i] == secrets[i];
        SubAddsNothing(last, secrets[i], before);
      }
    }
  }

  lemma {:induction false} CleanTextUnchanged(secrets: seq<string>, text: string)
    requires NoneEmpty(secrets) && !Holds(text, secrets)
    ensures Scrubbed(secrets, text) == text
  {
    if secrets != [] {
      var init, last := secrets[..|secrets| - 1], secrets[|secrets| - 1];
      assert forall i :: 0 <= i < |init| ==> init[i] == secrets[i];
      CleanTextUnchanged(init, text);
      SubUnchanged(last, text);
    }
  }

  // --- what a registry replaces ---

  /** The pieces with what was cut out between them. */
  function Between(pieces: seq<string>, cuts: seq<string>): string
    requires |pieces| == |cuts| + 1
  {
    if cuts == [] then pieces[0] else pieces[0] + (cuts[0] + Between(pieces[1..], cuts[1..]))
  }

  lemma {:induction false} BetweenAppend(a: seq<string>, cuts: seq<string>, cut: string,
                                         b: seq<string>, more: seq<string>)
    requires |a| == |cuts| + 1 && |b| == |more| + 1
    ensures Between(a + b, cuts + [cut] + more) == Between(a, cuts) + (cut + Between(b, more))
  {
    var pieces, all := a + b, cuts + [cut] + more;
    if cuts == [] {
      assert pieces[1..] == b && all[1..] == more;
    } else {
      assert pieces[1..] == a[1..] + b && all[1..] == cuts[1..] + [cut] + more;
      BetweenAppend(a[1..], cuts[1..], cut, b, more);
      FourParts(a[0], cuts[0], Between(a[1..], cuts[1..]), cut + Between(b, more));
    }
  }

  lemma FourParts(a: string, b: string, c: string, d: string)
    ensures a + (b + (c + d)) == a + (b + c) + d
  {
  }

  lemma {:induction false} JoinAppend(a: seq<string>, b: seq<string>, separator: string)
    requires a != [] && b != []
    ensures Join(a + b, separator) == Join(a, separator) + (separator + Join(b, separator))
  {
    var pieces := a + b;
    if |a| == 1 {
      assert pieces[1..] == b;
    } else {
      assert pieces[1..] == a[1..] + b;
      JoinAppend(a[1..], b, separator);
      FourParts(a[0], separator, Join(a[1..], separator), separator + Join(b, separator));
    }
  }

  lemma {:induction false} JoinIsBetween(pieces: seq<string>, separator: string) returns (cuts: seq<string>)
    requires pieces != []
    ensures |pieces| == |cuts| + 1 && Between(pieces, cuts) == Join(pieces, separator)
    ensures forall cut :: cut in cuts ==> cut == separator
  {
    cuts := [];
    if |pieces| > 1 {
      var more := JoinIsBetween(pieces[1..], separator);
      cuts := [separator] + more;
      assert cuts[1..] == more;
    }
  }

  /** What cannot straddle is replaced on either side of a placeholder by itself. */
  lemma {:induction false} SubApart(q: string, a: string, b: string)
    requires q != "" && !Straddles(q)
    ensures Sub(q, a + (PLACEHOLDER + b)) == Sub(q, a) + (PLACEHOLDER + Sub(q, b))
    decreases |a|
  {
    var s := a + (PLACEHOLDER + b);
    match Find(q, a, 0)
    case None => NothingIn(q, a, b);
    case Some(i) =>
      var rest := a[i + |q|..];
      CutHere(q, a, i);
      SubApart(q, rest, b);
      SubFirst(q, a[..i], rest);
      SubFirst(q, a[..i], rest + (PLACEHOLDER + b));
      FourParts(a[..i], q, rest, PLACEHOLDER + b);
      FourParts(a[..i], PLACEHOLDER, Sub(q, rest), PLACEHOLDER + Sub(q, b));
  }

  lemma OccursBehind(q: string, front: string, s: string, j: int)
    requires 0 <= j
    ensures OccursAt(q, front + s, |front| + j) <==> OccursAt(q, s, j)
  {
    assert forall k :: 0 <= k < |s| ==> (front + s)[|front| + k] == s[k];
  }

  /** Text in front of the first occurrence stays. */
  lemma SubBehind(q: string, front: string, s: string)
    requires q != ""
    requires forall j :: 0 <= j < |front| ==> !OccursAt(q, front + s, j)
    ensures Sub(q, front + s) == front + Sub(q, s)
  {
    match Find(q, s, 0)
    case None =>
      forall j
        ensures !OccursAt(q, front + s, j)
      {
        if j >= |front| {
          OccursBehind(q, front, s, j - |front|);
        }
      }
      SubUnchanged(q, front + s);
    case Some(i) =>
      var piece, rest := s[..i], s[i + |q|..];
      CutHere(q, s, i);
      NoEarlierBehind(q, front, piece, rest);
      SubFirst(q, piece, rest);
      SubFirst(q, front + piece, rest);
      Regroup(front, piece, q + rest);
      Regroup(front, piece, PLACEHOLDER + Sub(q, rest));
  }

  lemma NoEarlierBehind(q: string, front: string, piece: string, rest: string)
    requires NoEarlier(q, piece)
    requires forall j :: 0 <= j < |front| ==> !OccursAt(q, front + (piece + (q + rest)), j)
    ensures NoEarlier(q, front + piece)
  {
    assert front + (piece + (q + rest)) == front + piece + q + rest;
    assert front + (piece + q) == front + piece + q;
    forall j | 0 <= j < |front + piece|
      ensures !OccursAt(q, front + piece + q, j)
    {
      if j < |front| {
        OccursInPrefix(q, front + piece + q, rest, j);
      } else {
        OccursBehind(q, front, piece + q, j - |front|);
      }
    }
  }

  lemma NothingIn(q: string, a: string, b: string)
    requires q != "" && !Straddles(q) && Find(q, a, 0).None?
    ensures Sub(q, a + (PLACEHOLDER + b)) == Sub(q, a) + (PLACEHOLDER + Sub(q, b))
  {
    var front := a + PLACEHOLDER;
    Regroup(a, PLACEHOLDER, b);
    forall j | 0 <= j < |front|
      ensures !OccursAt(q, front + b, j)
    {
      if OccursAt(q, front + b, j) {
        if j + |q| <= |a| {
          assert OccursAt(q, a, j);
        } else {
          OverlapAgrees(a, b, q, j);
        }
      }
    }
    SubBehind(q, front, b);
    Regroup(a, PLACEHOLDER, Sub(q, b));
  }

  /** One more secret cuts the pieces further. */
  lemma {:induction false} CutFurther(q: string, pieces: seq<string>, cuts: seq<string>)
    returns (finer: seq<string>, more: seq<string>)
    requires q != "" && !Straddles(q) && |pieces| == |cuts| + 1
    ensures |finer| == |more| + 1 && Between(finer, more) == Between(pieces, cuts)
    ensures Join(finer, PLACEHOLDER) == Sub(q, Join(pieces, PLACEHOLDER))
    ensures forall cut :: cut in more ==> cut == q || cut in cuts
    decreases |cuts|
  {
    finer := SubReplacesEach(q, pieces[0]);
    more := JoinIsBetween(finer, q);
    if cuts != [] {
      var others, further := CutFurther(q, pieces[1..], cuts[1..]);
      BetweenAppend(finer, more, cuts[0], others, further);
      JoinAppend(finer, others, PLACEHOLDER);
      SubApart(q, pieces[0], Join(pieces[1..], PLACEHOLDER));
      finer, more := finer + others, more + [cuts[0]] + further;
    }
  }

  /** All the registry does to a text: some registered secrets are cut out of it, the placeholder
      is put into each cut, the pieces between stay in their order, and none of them holds a
      secret. */
  lemma {:induction false} ScrubReplacesSecretsOnly(secrets: seq<string>, text: string)
    returns (pieces: seq<string>, cuts: seq<string>)
    requires NoneStraddle(secrets)
    ensures |pieces| == |cuts| + 1 && Between(pieces, cuts) == text
    ensures Scrubbed(secrets, text) == Join(pieces, PLACEHOLDER)
    ensures forall cut :: cut in cuts ==> cut in secrets
    ensures forall i :: 0 <= i < |pieces| ==> !Holds(pieces[i], secrets)
  {
    pieces, cuts := [text], [];
    if secrets != [] {
      var init, last := secrets[..|secrets| - 1], secrets[|secrets| - 1];
      pieces, cuts := ScrubReplacesSecretsOnly(init, text);
      pieces, cuts := CutFurther(last, pieces, cuts);
      assert forall cut :: cut in init ==> cut in secrets;
    }
    ScrubLeavesNoSecret(secrets, text);
    forall i | 0 <= i < |pieces|
      ensures !Holds(pieces[i], secrets)
    {
      if k :| 0 <= k < |secrets| && Contains(pieces[i], secrets[k]) {
        PieceIsPart(pieces, i, secrets[k]);
      }
    }
  }

  lemma {:induction false} PieceIsPart(pieces: seq<string>, i: nat, q: string)
    requires i < |pieces| && Contains(pieces[i], q)
    ensures Contains(Join(pieces, PLACEHOLDER), q)
  {
    var s := Join(pieces, PLACEHOLDER);
    if i == 0 {
      assert s[..|pieces[0]|] == pieces[0];
      ContainsWithin(s, 0, |pieces[0]|, q);
    } else {
      PieceIsPart(pieces[1..], i - 1, q);
      var rest := Join(pieces[1..], PLACEHOLDER);
      assert s[|pieces[0]| + |PLACEHOLDER|..|s|] == rest;
      ContainsWithin(s, |pieces[0]| + |PLACEHOLDER|, |s|, q);
    }
  }

  /** One text is the other with the placeholder in every leftmost cut. */
  ghost predicate Replaces(p: string, before: string, after: string) {
    exists pieces :: CutAt(p, before, pieces) && after == Join(pieces, PLACEHOLDER)
  }

  /** Whatever the secrets: the text goes through one such replacement after another. */
  lemma {:induction false} ScrubIsInStages(secrets: seq<string>, text: string) returns (stages: seq<string>)
    requires NoneEmpty(secrets)
    ensures |stages| == |secrets| + 1 && stages[0] == text && stages[|secrets|] == Scrubbed(secrets, text)
    ensures forall k :: 0 <= k < |secrets| ==> Replaces(secrets[k], stages[k], stages[k + 1])
  {
    stages := [text];
    if secrets != [] {
      var n := |secrets| - 1;
      var before := ScrubIsInStages(secrets[..n], text);
      var pieces := SubReplacesEach(secrets[n], before[n]);
      stages := before + [Scrubbed(secrets, text)];
      assert Replaces(secrets[n], before[n], Scrubbed(secrets, text));
      StagesGrow(secrets, before, Scrubbed(secrets, text));
    }
  }

  lemma StagesGrow(secrets: seq<string>, before: seq<string>, last: string)
    requires secrets != [] && |before| == |secrets|
    requires forall k :: 0 <= k < |secrets| - 1 ==> Replaces(secrets[..|secrets| - 1][k], before[k], before[k + 1])
    requires Replaces(secrets[|secrets| - 1], before[|secrets| - 1], last)
    ensures forall k :: 0 <= k < |secrets| ==> Replaces(secrets[k], (before + [last])[k], (before + [last])[k + 1])
  {
    var n := |secrets| - 1;
    forall k | 0 <= k < |secrets|
      ensures Replaces(secrets[k], (before + [last])[k], (before + [last])[k + 1])
    {
      assert k < n ==> secrets[..n][k] == secrets[k];
    }
  }

  // --- what replacing several can bring back ---

  /** What one pattern alone cannot do: a secret that does not survive its own replacement is
      completed by the replacement of one that comes later. */
  lemma AnotherCompletes(p: string, q: string, d: int)
    requires p != "" && q != "" && -|p| < d < |PLACEHOLDER| && Agrees(p, d)
    requires var t := Lead(p, d) + q + Trail(p, d);
             !Contains(t, p) && Find(q, t, 0) == Some(|Lead(p, d)|) && !Contains(Trail(p, d), q)
    ensures Contains(Scrubbed([p, q], Lead(p, d) + q + Trail(p, d)), p)
  {
    var a, b := Lead(p, d), Trail(p, d);
    var t := a + q + b;
    TwoPatterns(p, q, t);
    SubUnchanged(p, t);
    assert t[..|a|] == a && t[|a| + |q|..] == b;
    SubUnchanged(q, b);
    LeakComesBack(p, d);
  }

  lemma TwoPatterns(p: string, q: string, text: string)
    requires p != "" && q != ""
    ensures Scrubbed([p, q], text) == Sub(q, Sub(p, text))
  {
    assert [p, q][..1] == [p] && [p][..0] == [];
    assert Scrubbed([p], text) == Sub(p, text);
  }

  const BRACKETED: string := "[a[a[a[a["
  const PLAIN: string := "xxxxxxxx"

  /** Of these two registrable secrets neither leaks alone, and together they leak. */
  lemma TogetherTheyLeak()
    ensures !CanLeak(BRACKETED) && !CanLeak(PLAIN)
    ensures exists text :: Contains(Scrubbed([BRACKETED, PLAIN], text), BRACKETED)
  {
    BracketedAlone();
    PlainAlone();
    var t := Lead(BRACKETED, -8) + PLAIN + Trail(BRACKETED, -8);
    TextOfTheTwo();
    AnotherCompletes(BRACKETED, PLAIN, -8);
    assert Contains(Scrubbed([BRACKETED, PLAIN], t), BRACKETED);
  }

  lemma BracketedAlone()
    ensures !CanLeak(BRACKETED)
  {
    forall d
      ensures !LeaksAt(BRACKETED, d)
    {
      if d == -8 {
        assert Lead(BRACKETED, d) == "[a[a[a[a";
        assert OccursAt(BRACKETED, "[a[a[a[a" + BRACKETED, 0);
      } else if -9 < d <= 0 {
        assert BRACKETED[1 - d] != PLACEHOLDER[1];
      } else if 0 < d < 10 {
        assert BRACKETED[0] != PLACEHOLDER[d];
      }
    }
    LeaksExactlyWhen(BRACKETED);
  }

  lemma PlainAlone()
    ensures !CanLeak(PLAIN)
  {
    forall d
      ensures !LeaksAt(PLAIN, d)
    {
      if -8 < d <= 0 {
        assert PLAIN[-d] != PLACEHOLDER[0];
      } else if 0 < d < 10 {
        assert PLAIN[0] != PLACEHOLDER[d];
      }
    }
    LeaksExactlyWhen(PLAIN);
  }

  lemma TextOfTheTwo()
    ensures Agrees(BRACKETED, -8) && Trail(BRACKETED, -8) == ""
    ensures var t := Lead(BRACKETED, -8) + PLAIN + "";
            && !Contains(t, BRACKETED) && Find(PLAIN, t, 0) == Some(8) && |Lead(BRACKETED, -8)| == 8
    ensures !Contains("", PLAIN)
  {
    var t := Lead(BRACKETED, -8) + PLAIN + "";
    assert Lead(BRACKETED, -8) == "[a[a[a[a";
    forall i
      ensures !OccursAt(BRACKETED, t, i)
    {
      if 0 <= i <= |t| - 9 {
        assert BRACKETED[8] != t[i + 8];
      }
    }
    assert OccursAt(PLAIN, t, 8);
    forall i | 0 <= i < 8
      ensures !OccursAt(PLAIN, t, i)
    {
      assert PLAIN[0] != t[i];
    }
  }

  lemma ScrubTwice(secrets: seq<string>, text: string)
    requires NoneStraddle(secrets)
    ensures Scrubbed(secrets, Scrubbed(secrets, text)) == Scrubbed(secrets, text)
  {
    ScrubLeavesNoSecret(secrets, text);
    CleanTextUnchanged(secrets, Scrubbed(secrets, text));
  }

  /** Longest first: a registered secret is replaced whole, even when shorter registered
      secrets are parts of it. */
  lemma WholeSecretIsHidden(secrets: seq<string>, k: nat)
    requires ValidRegistry(secrets) && NoneStraddle(secrets)
    requires k < |secrets|
    ensures Scrubbed(secrets, secrets[k]) == PLACEHOLDER
  {
    ValidBeginning(secrets, k + 1);
    LastIsHidden(secrets[..k + 1]);
    AllLeavePlaceholder(secrets, k + 1);
    StaysAsItIs(secrets, k + 1, secrets[k], PLACEHOLDER);
  }

  lemma ValidBeginning(secrets: seq<string>, n: nat)
    requires ValidRegistry(secrets) && NoneStraddle(secrets) && n <= |secrets|
    ensures ValidRegistry(secrets[..n]) && NoneStraddle(secrets[..n])
  {
    var init := secrets[..n];
    assert forall i :: 0 <= i < |init| ==> init[i] == secrets[i];
    assert forall s :: s in init ==> s in secrets;
  }

  /** The secrets from the `from`-th on leave the text alone. */
  ghost predicate LeaveAlone(secrets: seq<string>, from: nat, text: string)
    requires NoneEmpty(secrets)
  {
    forall i :: from <= i < |secrets| ==> Sub(secrets[i], text) == text
  }

  lemma AllLeavePlaceholder(secrets: seq<string>, from: nat)
    requires NoneEmpty(secrets) && NoneStraddle(secrets)
    ensures LeaveAlone(secrets, from, PLACEHOLDER)
  {
    forall i | from <= i < |secrets|
      ensures Sub(secrets[i], PLACEHOLDER) == PLACEHOLDER
    {
      NotInPlaceholder(secrets[i]);
      SubUnchanged(secrets[i], PLACEHOLDER);
    }
  }

  lemma {:induction false} StaysAsItIs(secrets: seq<string>, n: nat, text: string, out: string)
    requires NoneEmpty(secrets) && n <= |secrets|
    requires Scrubbed(secrets[..n], text) == out && LeaveAlone(secrets, n, out)
    ensures Scrubbed(secrets, text) == out
  {
    if n == |secrets| {
      assert secrets[..n] == secrets;
    } else {
      var init := secrets[..|secrets| - 1];
      assert init[..n] == secrets[..n];
      StaysAsItIs(init, n, text, out);
    }
  }

  lemma LastIsHidden(secrets: seq<string>)
    requires secrets != [] && ValidRegistry(secrets) && NoneStraddle(secrets)
    ensures Scrubbed(secrets, secrets[|secrets| - 1]) == PLACEHOLDER
  {
    var init, last := secrets[..|secrets| - 1], secrets[|secrets| - 1];
    forall i | 0 <= i < |init|
      ensures !Contains(last, init[i])
    {
      assert Length(secrets[i]) >= Length(last);
      LongerIsNotInside(secrets[i], last);
    }
    CleanTextUnchanged(init, last);
    SubWhole(last);
  }

  lemma SubWhole(p: string)
    requires p != ""
    ensures Sub(p, p) == PLACEHOLDER
  {
    assert OccursAt(p, p, 0);
    assert Find(p, p, 0) == Some(0);
    assert p[..0] == "" && p[0 + |p|..] == "";
    assert Sub(p, "") == "";
  }

  lemma LongerIsNotInside(p: string, s: string)
    requires |p| >= |s| && p != s
    ensures !Contains(s, p)
  {
    forall i
      ensures OccursAt(p, s, i) ==> p == s
    {
    }
  }

  lemma NotInPlaceholder(p: string)
    requires p != "" && !Straddles(p)
    ensures !Contains(PLACEHOLDER, p)
  {
    if Contains(PLACEHOLDER, p) {
      assert PLACEHOLDER == "" + PLACEHOLDER + "";
      PlacedApart("", "", p);
    }
  }

  // --- scrubbing at every depth ---

  datatype Value =
    | Text(text: string)
    | Mapping(entries: seq<Entry>)
    | Bytes(bytes: seq<int>)
    | Tuple(items: seq<Value>)
    | List(items: seq<Value>)
    | Collection(frozen: bool, items: seq<Value>)
    | Scalar(scalar: int)

  datatype Entry = Entry(key: Value, item: Value)

  /** What a dict display does with a key it already holds: the last item wins. */
  function Put(entries: seq<Entry>, e: Entry): seq<Entry> {
    if entries == [] then [e]
    else if entries[0].key == e.key then [e] + entries[1..]
    else [entries[0]] + Put(entries[1..], e)
  }

  function ScrubDeep(secrets: seq<string>, v: Value): Value
    requires NoneEmpty(secrets)
    decreases v, 0
  {
    match v
    case Text(text) => Text(Scrubbed(secrets, text))
    case Mapping(entries) => Mapping(ScrubEntries(secrets, [], entries))
    case Tuple(items) => Tuple(ScrubItems(secrets, items))
    case List(items) => List(ScrubItems(secrets, items))
    case Collection(frozen, items) => Collection(frozen, Distinct(ScrubItems(secrets, items)))
    case _ => v
  }

  function ScrubItems(secrets: seq<string>, items: seq<Value>): (r: seq<Value>)
    requires NoneEmpty(secrets)
    ensures |r| == |items|
    decreases items, 1
  {
    if items == [] then [] else [ScrubDeep(secrets, items[0])] + ScrubItems(secrets, items[1..])
  }

  function ScrubEntry(secrets: seq<string>, e: Entry): Entry
    requires NoneEmpty(secrets)
    decreases e, 0
  {
    Entry(ScrubDeep(secrets, e.key), ScrubDeep(secrets, e.item))
  }

  function ScrubEntries(secrets: seq<string>, done: seq<Entry>, entries: seq<Entry>): seq<Entry>
    requires NoneEmpty(secrets)
    decreases entries, 1
  {
    if entries == [] then done
    else
      ScrubEntries(secrets, Put(done, ScrubEntry(secrets, entries[0])), entries[1..])
  }

  /** A set keeps one of each. */
  function Distinct(items: seq<Value>): (r: seq<Value>)
    ensures forall x :: x in r <==> x in items
  {
    if items == [] then []
    else
      var rest := Distinct(items[..|items| - 1]);
      var last := items[|items| - 1];
      assert forall x :: x in items <==> x in items[..|items| - 1] || x == last;
      if last in rest then rest else rest + [last]
  }

  /** No string at any depth, keys included, holds a secret. */
  ghost predicate Clean(secrets: seq<string>, v: Value) {
    match v
    case Text(text) => !Holds(text, secrets)
    case Mapping(entries) =>
      forall i :: 0 <= i < |entries| ==> Clean(secrets, entries[i].key) && Clean(secrets, entries[i].item)
    case Tuple(items) => forall i :: 0 <= i < |items| ==> Clean(secrets, items[i])
    case List(items) => forall i :: 0 <= i < |items| ==> Clean(secrets, items[i])
    case Collection(_, items) => forall i :: 0 <= i < |items| ==> Clean(secrets, items[i])
    case _ => true
  }

  /** Keys of a mapping are distinct and so are elements of a set, at every depth. */
  predicate Proper(v: Value) {
    match v
    case Mapping(entries) =>
      && (forall i, j :: 0 <= i < j < |entries| ==> entries[i].key != entries[j].key)
      && (forall i :: 0 <= i < |entries| ==> Proper(entries[i].key) && Proper(entries[i].item))
    case Tuple(items) => forall i :: 0 <= i < |items| ==> Proper(items[i])
    case List(items) => forall i :: 0 <= i < |items| ==> Proper(items[i])
    case Collection(_, items) =>
      && (forall i, j :: 0 <= i < j < |items| ==> items[i] != items[j])
      && (forall i :: 0 <= i < |items| ==> Proper(items[i]))
    case _ => true
  }

  ghost predicate CleanItems(secrets: seq<string>, items: seq<Value>) {
    forall i :: 0 <= i < |items| ==> Clean(secrets, items[i]) && Proper(items[i])
  }

  ghost predicate CleanEntries(secrets: seq<string>, entries: seq<Entry>) {
    && (forall i, j :: 0 <= i < j < |entries| ==> entries[i].key != entries[j].key)
    && (forall i :: 0 <= i < |entries| ==> CleanEntry(secrets, entries[i]))
  }

  ghost predicate CleanEntry(secrets: seq<string>, e: Entry) {
    Clean(secrets, e.key) && Clean(secrets, e.item) && Proper(e.key) && Proper(e.item)
  }

  lemma {:induction false} PutKeys(entries: seq<Entry>, e: Entry)
    ensures forall i :: 0 <= i < |Put(entries, e)| ==> Put(entries, e)[i] == e || Put(entries, e)[i] in entries
    ensures forall x :: x in Put(entries, e) ==> x.key == e.key || x in entries
  {
    if entries != [] && entries[0].key != e.key {
      PutKeys(entries[1..], e);
    }
  }

  lemma {:induction false} PutKeepsClean(secrets: seq<string>, entries: seq<Entry>, e: Entry)
    requires CleanEntries(secrets, entries) && CleanEntry(secrets, e)
    ensures CleanEntries(secrets, Put(entries, e))
  {
    if entries != [] && entries[0].key != e.key {
      var rest := Put(entries[1..], e);
      PutKeepsClean(secrets, entries[1..], e);
      PutKeys(entries[1..], e);
      forall j | 0 <= j < |rest|
        ensures rest[j].key != entries[0].key
      {
        assert rest[j] in rest;
      }
    }
  }

  lemma {:induction false} DistinctIsDistinct(items: seq<Value>)
    ensures forall i, j :: 0 <= i < j < |Distinct(items)| ==> Distinct(items)[i] != Distinct(items)[j]
    ensures (forall i, j :: 0 <= i < j < |items| ==> items[i] != items[j]) ==> Distinct(items) == items
  {
    if items != [] {
      var init := items[..|items| - 1];
      DistinctIsDistinct(init);
      assert items == init + [items[|items| - 1]];
    }
  }

  // --- nothing is lost at any depth ---

  /** The item a list of entries leaves under a key: the last one. */
  function Under(entries: seq<Entry>, key: Value): Option<Value> {
    if entries == [] then None
    else if entries[|entries| - 1].key == key then Some(entries[|entries| - 1].item)
    else Under(entries[..|entries| - 1], key)
  }

  predicate KeysDiffer(entries: seq<Entry>) {
    forall i, j :: 0 <= i < j < |entries| ==> entries[i].key != entries[j].key
  }

  lemma {:induction false} UnderAppend(a: seq<Entry>, b: seq<Entry>, key: Value)
    ensures Under(a + b, key) == if Under(b, key).Some? then Under(b, key) else Under(a, key)
  {
    if b == [] {
      assert a + b == a;
    } else {
      assert (a + b)[..|a + b| - 1] == a + b[..|b| - 1];
      UnderAppend(a, b[..|b| - 1], key);
    }
  }

  lemma UnderFirst(entries: seq<Entry>, key: Value)
    requires entries != []
    ensures Under(entries, key) ==
            if Under(entries[1..], key).Some? then Under(entries[1..], key)
            else if entries[0].key == key then Some(entries[0].item) else None
  {
    assert entries == [entries[0]] + entries[1..];
    UnderAppend([entries[0]], entries[1..], key);
    assert [entries[0]][..0] == [];
  }

  lemma {:induction false} UnderNone(entries: seq<Entry>, key: Value)
    requires forall i :: 0 <= i < |entries| ==> entries[i].key != key
    ensures Under(entries, key) == None
  {
    if entries != [] {
      UnderNone(entries[..|entries| - 1], key);
    }
  }

  lemma {:induction false} UnderPut(entries: seq<Entry>, e: Entry, key: Value)
    requires KeysDiffer(entries)
    ensures Under(Put(entries, e), key) == if key == e.key then Some(e.item) else Under(entries, key)
    ensures KeysDiffer(Put(entries, e))
  {
    if entries == [] {
      assert [e][..0] == [];
    } else {
      UnderFirst(entries, key);
      UnderFirst(Put(entries, e), key);
      if entries[0].key == e.key {
        UnderNone(entries[1..], e.key);
        assert Put(entries, e)[1..] == entries[1..];
      } else {
        UnderPut(entries[1..], e, key);
        UnderNone(entries[1..], entries[0].key);
        PutKeys(entries[1..], e);
        assert Put(entries, e)[1..] == Put(entries[1..], e);
        assert forall j :: 0 <= j < |Put(entries[1..], e)| ==> Put(entries[1..], e)[j].key != entries[0].key;
      }
    }
  }

  function EachEntry(secrets: seq<string>, entries: seq<Entry>): (r: seq<Entry>)
    requires NoneEmpty(secrets)
    ensures |r| == |entries|
    ensures forall i :: 0 <= i < |r| ==>
              r[i] == Entry(ScrubDeep(secrets, entries[i].key), ScrubDeep(secrets, entries[i].item))
  {
    seq(|entries|, i requires 0 <= i < |entries| => ScrubEntry(secrets, entries[i]))
  }

  lemma {:induction false} EntriesInPlace(secrets: seq<string>, done: seq<Entry>, entries: seq<Entry>, key: Value)
    requires NoneEmpty(secrets) && KeysDiffer(done)
    ensures var r := ScrubEntries(secrets, done, entries);
            KeysDiffer(r) && Under(r, key) == Under(done + EachEntry(secrets, entries), key)
    decreases |entries|
  {
    var each := EachEntry(secrets, entries);
    if entries == [] {
      assert done + each == done;
    } else {
      var e, rest := ScrubEntry(secrets, entries[0]), EachEntry(secrets, entries[1..]);
      UnderPut(done, e, key);
      EntriesInPlace(secrets, Put(done, e), entries[1..], key);
      assert each == [e] + rest;
      UnderAppend(Put(done, e), rest, key);
      UnderAppend(done, each, key);
      UnderFirst(each, key);
      assert each[1..] == rest;
    }
  }

  lemma {:induction false} ItemsInPlace(secrets: seq<string>, items: seq<Value>)
    requires NoneEmpty(secrets)
    ensures forall i :: 0 <= i < |items| ==> ScrubItems(secrets, items)[i] == ScrubDeep(secrets, items[i])
  {
    if items != [] {
      ItemsInPlace(secrets, items[1..]);
      forall i | 0 < i < |items|
        ensures ScrubItems(secrets, items)[i] == ScrubDeep(secrets, items[i])
      {
        assert items[1..][i - 1] == items[i];
      }
    }
  }

  /** `scrub_deep` keeps every container and every place in it: a text is scrubbed, the items of
      a list or a tuple stand where they stood, a set has the scrubbed elements, under a scrubbed
      key is the last item that has it, and nothing else changes. */
  lemma DeepKeepsItsPlaces(secrets: seq<string>, v: Value)
    requires NoneEmpty(secrets)
    ensures var r := ScrubDeep(secrets, v);
            match v
            case Text(text) => r == Text(Scrubbed(secrets, text))
            case Mapping(entries) =>
              && r.Mapping? && KeysDiffer(r.entries)
              && forall key :: Under(r.entries, key) == Under(EachEntry(secrets, entries), key)
            case Tuple(items) =>
              && r.Tuple? && |r.items| == |items|
              && forall i :: 0 <= i < |items| ==> r.items[i] == ScrubDeep(secrets, items[i])
            case List(items) =>
              && r.List? && |r.items| == |items|
              && forall i :: 0 <= i < |items| ==> r.items[i] == ScrubDeep(secrets, items[i])
            case Collection(frozen, items) =>
              && r.Collection? && r.frozen == frozen
              && forall x :: x in r.items <==> exists i :: 0 <= i < |items| && x == ScrubDeep(secrets, items[i])
            case _ => r == v
  {
    match v
    case Mapping(entries) =>
      forall key
        ensures Under(ScrubEntries(secrets, [], entries), key) == Under(EachEntry(secrets, entries), key)
      {
        EntriesInPlace(secrets, [], entries, key);
        assert [] + EachEntry(secrets, entries) == EachEntry(secrets, entries);
      }
      EntriesInPlace(secrets, [], entries, v);
    case Tuple(items) => ItemsInPlace(secrets, items);
    case List(items) => ItemsInPlace(secrets, items);
    case Collection(_, items) => ItemsInPlace(secrets, items);
    case _ =>
  }

  /** `scrub_deep` leaves no registered secret in any string at any depth. */
  lemma {:induction false} DeepLeavesNoSecret(secrets: seq<string>, v: Value)
    requires NoneStraddle(secrets)
    ensures Clean(secrets, ScrubDeep(secrets, v))
    ensures Proper(ScrubDeep(secrets, v))
    decreases v, 0
  {
    match v
    case Text(text) => ScrubLeavesNoSecret(secrets, text);
    case Mapping(entries) => EntriesLeaveNoSecret(secrets, [], entries);
    case Tuple(items) => ItemsLeaveNoSecret(secrets, items);
    case List(items) => ItemsLeaveNoSecret(secrets, items);
    case Collection(_, items) =>
      ItemsLeaveNoSecret(secrets, items);
      var scrubbed := ScrubItems(secrets, items);
      DistinctIsDistinct(scrubbed);
      assert forall i :: 0 <= i < |Distinct(scrubbed)| ==> Distinct(scrubbed)[i] in scrubbed;
    case _ =>
  }

  lemma {:induction false} ItemsLeaveNoSecret(secrets: seq<string>, items: seq<Value>)
    requires NoneStraddle(secrets)
    ensures CleanItems(secrets, ScrubItems(secrets, items))
    decreases items, 1
  {
    if items != [] {
      DeepLeavesNoSecret(secrets, items[0]);
      ItemsLeaveNoSecret(secrets, items[1..]);
    }
  }

  lemma {:induction false} EntryLeavesNoSecret(secrets: seq<string>, e: Entry)
    requires NoneStraddle(secrets)
    ensures CleanEntry(secrets, ScrubEntry(secrets, e))
    decreases e, 0
  {
    DeepLeavesNoSecret(secrets, e.key);
    DeepLeavesNoSecret(secrets, e.item);
  }

  lemma {:induction false} EntriesLeaveNoSecret(secrets: seq<string>, done: seq<Entry>, entries: seq<Entry>)
    requires NoneStraddle(secrets) && CleanEntries(secrets, done)
    ensures CleanEntries(secrets, ScrubEntries(secrets, done, entries))
    decreases entries, 1
  {
    if entries != [] {
      var e := ScrubEntry(secrets, entries[0]);
      EntryLeavesNoSecret(secrets, entries[0]);
      PutKeepsClean(secrets, done, e);
      EntriesLeaveNoSecret(secrets, Put(done, e), entries[1..]);
    }
  }

  /** A value with no secret in it comes through unchanged. */
  lemma {:induction false} CleanValueUnchanged(secrets: seq<string>, v: Value)
    requires NoneEmpty(secrets) && Clean(secrets, v) && Proper(v)
    ensures ScrubDeep(secrets, v) == v
    decreases v, 0
  {
    match v
    case Text(text) => CleanTextUnchanged(secrets, text);
    case Mapping(entries) => CleanEntriesUnchanged(secrets, [], entries);
    case Tuple(items) => CleanItemsUnchanged(secrets, items);
    case List(items) => CleanItemsUnchanged(secrets, items);
    case Collection(_, items) =>
      CleanItemsUnchanged(secrets, items);
      DistinctIsDistinct(items);
    case _ =>
  }

  lemma {:induction false} CleanItemsUnchanged(secrets: seq<string>, items: seq<Value>)
    requires NoneEmpty(secrets) && CleanItems(secrets, items)
    ensures ScrubItems(secrets, items) == items
    decreases items, 1
  {
    if items != [] {
      CleanValueUnchanged(secrets, items[0]);
      CleanItemsUnchanged(secrets, items[1..]);
    }
  }

  lemma {:induction false} CleanEntryUnchanged(secrets: seq<string>, e: Entry)
    requires NoneEmpty(secrets) && CleanEntry(secrets, e)
    ensures ScrubEntry(secrets, e) == e
    decreases e, 0
  {
    CleanValueUnchanged(secrets, e.key);
    CleanValueUnchanged(secrets, e.item);
  }

  lemma {:induction false} CleanEntriesUnchanged(secrets: seq<string>, done: seq<Entry>, entries: seq<Entry>)
    requires NoneEmpty(secrets) && CleanEntries(secrets, done + entries)
    ensures ScrubEntries(secrets, done, entries) == done + entries
    decreases entries, 1
  {
    if entries != [] {
      var e := entries[0];
      assert (done + entries)[|done|] == e;
      CleanEntryUnchanged(secrets, e);
      forall i | 0 <= i < |done|
        ensures done[i].key != e.key
      {
        assert (done + entries)[i] == done[i];
      }
      PutNew(done, e);
      assert (done + [e]) + entries[1..] == done + entries;
      CleanEntriesUnchanged(secrets, done + [e], entries[1..]);
    }
  }

  lemma {:induction false} PutNew(entries: seq<Entry>, e: Entry)
    requires forall i :: 0 <= i < |entries| ==> entries[i].key != e.key
    ensures Put(entries, e) == entries + [e]
  {
    if entries != [] {
      PutNew(entries[1..], e);
    }
  }

  lemma DeepTwice(secrets: seq<string>, v: Value)
    requires NoneStraddle(secrets)
    ensures ScrubDeep(secrets, ScrubDeep(secrets, v)) == ScrubDeep(secrets, v)
  {
    DeepLeavesNoSecret(secrets, v);
    CleanValueUnchanged(secrets, ScrubDeep(secrets, v));
  }
}
