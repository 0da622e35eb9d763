/** Which sections of a draft are reported as moved against the live version.

    Models `outOfOrder` and the part of `compareToLive` that feeds it
    (app/components/builder/compare.ts). */
module Compare {
  import opened Counting

  /** The positions at the chosen indices are in increasing order. */
  ghost predicate InOrder(positions: seq<int>, chosen: set<nat>) {
    && (forall i :: i in chosen ==> i < |positions|)
    && (forall i, j :: i in chosen && j in chosen && i < j ==> positions[i] < positions[j])
  }

  /** The chosen indices form a longest increasing run. */
  ghost predicate LongestRun(positions: seq<int>, chosen: set<nat>) {
    && InOrder(positions, chosen)
    && (forall other :: InOrder(positions, other) ==> |other| <= |chosen|)
  }

  /** From the greatest index down, the first one that only one of the two has is in `other`. */
  ghost predicate EndsEarlier(keep: set<nat>, other: set<nat>) {
    exists m :: m in other && m !in keep && SameAbove(keep, other, m)
  }

  ghost predicate SameAbove(keep: set<nat>, other: set<nat>, bound: int) {
    forall x: nat :: x > bound ==> (x in keep <==> x in other)
  }

  /** Of the longest increasing runs, the one whose indices, read from the end, are least at the
      first difference from any other. */
  ghost predicate EarliestRun(positions: seq<int>, chosen: set<nat>) {
    && LongestRun(positions, chosen)
    && (forall other :: LongestRun(positions, other) && other != chosen ==> EndsEarlier(chosen, other))
  }

  /** The ids whose index is not in `keep`, in their own order. */
  function Without<T>(ids: seq<T>, keep: set<nat>): seq<T> {
    if ids == [] then []
    else
      Without(ids[..|ids| - 1], keep) + (if |ids| - 1 in keep then [] else [ids[|ids| - 1]])
  }

  // --- the table ---

  /** What the two filled arrays say: `length` bounds every run ending at an index from
      above, and the back pointers in `previous` attain it, each at the first index that does. */
  ghost predicate RowDone(positions: seq<int>, length: seq<int>, previous: seq<int>, i: int)
    requires |length| == |previous| == |positions|
    requires 0 <= i < |positions|
  {
    && (forall j :: 0 <= j < i && positions[j] < positions[i] ==> length[j] + 1 <= length[i])
    && RowAttained(positions, length, previous, i)
  }

  ghost predicate RowAttained(positions: seq<int>, length: seq<int>, previous: seq<int>, i: int)
    requires |length| == |previous| == |positions|
    requires 0 <= i < |positions|
  {
    && 1 <= length[i]
    && -1 <= previous[i] < i
    && (previous[i] == -1 ==> length[i] == 1)
    && (previous[i] != -1 ==>
          positions[previous[i]] < positions[i] && length[i] == length[previous[i]] + 1)
    && (forall k :: 0 <= k < previous[i] && positions[k] < positions[i] ==> length[k] + 1 < length[i])
  }

  ghost predicate Table(positions: seq<int>, length: seq<int>, previous: seq<int>) {
    && |length| == |previous| == |positions|
    && (forall i :: 0 <= i < |positions| ==> RowDone(positions, length, previous, i))
  }

  lemma {:induction false} GreatestIndex(chosen: set<nat>) returns (m: nat)
    requires chosen != {}
    ensures m in chosen
    ensures forall x :: x in chosen ==> x <= m
  {
    m :| m in chosen;
    if chosen != {m} {
      var rest := chosen - {m};
      assert forall x :: x in chosen ==> x == m || x in rest;
      var r := GreatestIndex(rest);
      m := if r > m then r else m;
    }
  }

  /** No run is longer than the table entry of its last index. */
  lemma {:induction false} RunIsBounded(positions: seq<int>, length: seq<int>, previous: seq<int>, chosen: set<nat>)
      returns (last: nat)
    requires Table(positions, length, previous)
    requires InOrder(positions, chosen) && chosen != {}
    ensures last in chosen && (forall x :: x in chosen ==> x <= last)
    ensures |chosen| <= length[last]
    decreases |chosen|
  {
    last := GreatestIndex(chosen);
    assert RowDone(positions, length, previous, last);
    var rest := chosen - {last};
    assert |chosen| == |rest| + 1;
    assert 1 <= length[last];
    if rest != {} {
      var before := RunIsBounded(positions, length, previous, rest);
      assert before in chosen && before < last;
      assert length[before] + 1 <= length[last];
    }
  }

  // --- which of the longest runs is kept ---

  /** A run of the greatest length either has what was kept so far and the next index to keep, or
      has already shown a later index. */
  ghost predicate KeptFirst(keep: set<nat>, other: set<nat>, end: int) {
    || (exists m: nat :: m > end && m in other && m !in keep && SameAbove(keep, other, m))
    || (SameAbove(keep, other, end) && (end < 0 || end in other))
  }

  ghost predicate Ahead(positions: seq<int>, keep: set<nat>, end: int, top: int) {
    forall other :: InOrder(positions, other) && |other| == top ==> KeptFirst(keep, other, end)
  }

  lemma BelowIsBounded(positions: seq<int>, length: seq<int>, previous: seq<int>, below: set<nat>, end: nat)
      returns (last: nat)
    requires Table(positions, length, previous) && end < |positions|
    requires InOrder(positions, below + {end}) && below != {} && forall x :: x in below ==> x < end
    ensures last in below && (forall x :: x in below ==> x <= last)
    ensures |below| + 1 <= length[last] + 1 <= length[end]
  {
    assert forall x :: x in below ==> x in below + {end};
    last := RunIsBounded(positions, length, previous, below);
    assert RowDone(positions, length, previous, end);
    assert last in below + {end} && end in below + {end};
  }

  lemma SplitAt(keep: set<nat>, other: set<nat>, end: nat) returns (below: set<nat>)
    requires SameAbove(keep, other, end) && end in other && forall k :: k in keep ==> end < k
    ensures below == set x | x in other && x < end
    ensures |other| == |keep| + 1 + |below|
  {
    below := set x | x in other && x < end;
    assert other == keep + {end} + below;
    assert |keep + {end}| == |keep| + 1;
  }

  lemma AtLeastOne(positions: seq<int>, length: seq<int>, previous: seq<int>)
    requires Table(positions, length, previous)
    ensures forall k :: 0 <= k < |length| ==> 1 <= length[k]
  {
    forall k | 0 <= k < |length|
      ensures 1 <= length[k]
    {
      assert RowDone(positions, length, previous, k);
    }
  }

  /** The next index to keep is the first that a run of the greatest length can go on with. */
  lemma NextIsFirst(positions: seq<int>, length: seq<int>, previous: seq<int>, end: nat, below: set<nat>)
    requires Table(positions, length, previous) && end < |positions|
    requires InOrder(positions, below + {end}) && (forall x :: x in below ==> x < end)
    requires |below| + 1 == length[end]
    ensures below == {} ==> previous[end] == -1
    ensures below != {} ==> exists last: nat ::
              last in below && previous[end] <= last && forall x :: x in below ==> x <= last
  {
    assert RowDone(positions, length, previous, end);
    AtLeastOne(positions, length, previous);
    if below != {} {
      var last := BelowIsBounded(positions, length, previous, below, end);
      assert length[last] + 1 == length[end];
      assert previous[end] <= last;
    }
  }

  lemma StillAhead(keep: set<nat>, other: set<nat>, end: nat, next: int)
    requires next < end && exists m: nat :: m > end && m in other && m !in keep && SameAbove(keep, other, m)
    ensures KeptFirst(keep + {end}, other, next)
  {
    var m: nat :| m > end && m in other && m !in keep && SameAbove(keep, other, m);
    assert SameAbove(keep + {end}, other, m);
  }

  lemma StepBack(positions: seq<int>, length: seq<int>, previous: seq<int>, keep: set<nat>, end: nat, other: set<nat>)
    requires Table(positions, length, previous) && end < |positions|
    requires forall k :: k in keep ==> end < k
    requires InOrder(positions, other) && |other| == |keep| + length[end] && KeptFirst(keep, other, end)
    ensures KeptFirst(keep + {end}, other, previous[end])
  {
    assert RowDone(positions, length, previous, end);
    if SameAbove(keep, other, end) && end in other {
      var below := SplitAt(keep, other, end);
      NextIsFirst(positions, length, previous, end, below);
      NextOf(keep, other, end, below, previous[end]);
    } else {
      StillAhead(keep, other, end, previous[end]);
    }
  }

  lemma NextOf(keep: set<nat>, other: set<nat>, end: nat, below: set<nat>, next: int)
    requires forall k :: k in keep ==> end < k
    requires SameAbove(keep, other, end) && end in other && below == (set x | x in other && x < end)
    requires below == {} ==> next == -1
    requires below != {} ==> exists last: nat :: last in below && next <= last && forall x :: x in below ==> x <= last
    ensures KeptFirst(keep + {end}, other, next)
  {
    if below == {} {
      assert forall x: nat :: x in other && x < end ==> x in below;
      assert SameAbove(keep + {end}, other, -1);
    } else {
      var last: nat :| last in below && next <= last && forall x :: x in below ==> x <= last;
      assert forall x: nat :: x in other && last < x < end ==> x in below;
      assert SameAbove(keep + {end}, other, last);
    }
  }

  lemma FirstOfAll(positions: seq<int>, length: seq<int>, previous: seq<int>, end: nat, other: set<nat>)
    requires Table(positions, length, previous) && end < |positions|
    requires forall k :: 0 <= k < end ==> length[k] < length[end]
    requires InOrder(positions, other) && |other| == length[end]
    ensures KeptFirst({}, other, end)
  {
    assert RowDone(positions, length, previous, end);
    var last := RunIsBounded(positions, length, previous, other);
    assert SameAbove({}, other, last);
  }

  lemma AllTheSame(keep: set<nat>, other: set<nat>)
    ensures SameAbove(keep, other, -1) <==> keep == other
  {
  }

  lemma AheadIsEarliest(positions: seq<int>, keep: set<nat>, top: int)
    requires LongestRun(positions, keep) && |keep| == top && Ahead(positions, keep, -1, top)
    ensures EarliestRun(positions, keep)
  {
    forall other | LongestRun(positions, other) && other != keep
      ensures EndsEarlier(keep, other)
    {
      assert KeptFirst(keep, other, -1);
      AllTheSame(keep, other);
    }
  }

  // --- the algorithm ---

  method OutOfOrder(positions: seq<int>, ids: seq<string>) returns (moved: seq<string>)
    requires |positions| == |ids|
    ensures exists keep :: EarliestRun(positions, keep) && moved == Without(ids, keep)
  {
    var n := |positions|;
    var length := new int[n](_ => 1);
    var previous := new int[n](_ => -1);
    var i := 0;
    while i < n
      invariant 0 <= i <= n
      invariant forall k :: 0 <= k < i ==> RowDone(positions, length[..], previous[..], k)
      invariant forall k :: i <= k < n ==> length[k] == 1 && previous[k] == -1
    {
      FillRow(positions, length, previous, i);
      i := i + 1;
    }
    assert Table(positions, length[..], previous[..]);
    forall k | 0 <= k < n
      ensures 1 <= length[k]
    {
      assert RowDone(positions, length[..], previous[..], k);
    }

    var end := IndexOfMaximum(length);
    ghost var top := if end == -1 then 0 else length[end];
    var keep: set<nat> := {};
    forall other | InOrder(positions, other) && |other| == top
      ensures KeptFirst(keep, other, end)
    {
      if end != -1 {
        FirstOfAll(positions, length[..], previous[..], end, other);
      } else {
        assert other == {};
      }
    }
    while end != -1
      invariant -1 <= end < n
      invariant InOrder(positions, keep)
      invariant forall k :: k in keep && end != -1 ==> end < k && positions[end] < positions[k]
      invariant |keep| + (if end == -1 then 0 else length[end]) == top
      invariant Ahead(positions, keep, end, top)
      invariant Table(positions, length[..], previous[..])
      decreases end
    {
      assert RowDone(positions, length[..], previous[..], end);
      forall other | InOrder(positions, other) && |other| == top
        ensures KeptFirst(keep + {end}, other, previous[end])
      {
        StepBack(positions, length[..], previous[..], keep, end, other);
      }
      keep := keep + {end};
      end := previous[end];
    }
    forall other | InOrder(positions, other)
      ensures |other| <= |keep|
    {
      if other != {} {
        var last := RunIsBounded(positions, length[..], previous[..], other);
        assert length[..][last] <= top;
      }
    }
    AheadIsEarliest(positions, keep, top);
    moved := Without(ids, keep);
  }

  /** The inner loop: the best predecessor of `i` among the indices before it. */
  method FillRow(positions: seq<int>, length: array<int>, previous: array<int>, i: nat)
    requires length != previous
    requires length.Length == previous.Length == |positions|
    requires i < |positions|
    requires forall k :: 0 <= k < i ==> RowDone(positions, length[..], previous[..], k)
    requires length[i] == 1 && previous[i] == -1
    modifies length, previous
    ensures forall k :: 0 <= k <= i ==> RowDone(positions, length[..], previous[..], k)
    ensures forall k :: 0 <= k < length.Length && k != i ==>
                          length[k] == old(length[k]) && previous[k] == old(previous[k])
  {
    var j := 0;
    while j < i
      invariant 0 <= j <= i
      invariant forall k :: 0 <= k < length.Length && k != i ==>
                              length[k] == old(length[k]) && previous[k] == old(previous[k])
      invariant RowAttained(positions, length[..], previous[..], i)
      invariant forall k :: 0 <= k < j && positions[k] < positions[i] ==> length[k] + 1 <= length[i]
    {
      if positions[j] < positions[i] && length[j] + 1 > length[i] {
        length[i] := length[j] + 1;
        previous[i] := j;
      }
      j := j + 1;
    }
    forall k | 0 <= k <= i
      ensures RowDone(positions, length[..], previous[..], k)
    {
      if k < i {
        assert RowDone(positions, old(length[..]), old(previous[..]), k);
      }
    }
  }

  /** `length.indexOf(Math.max(0, ...length))`: the first index holding the greatest
      entry, or -1 when there is none. */
  method IndexOfMaximum(length: array<int>) returns (end: int)
    requires forall k :: 0 <= k < length.Length ==> 1 <= length[k]
    ensures -1 <= end < length.Length
    ensures end == -1 <==> length.Length == 0
    ensures end != -1 ==> forall k :: 0 <= k < length.Length ==> length[k] <= length[end]
    ensures end != -1 ==> forall k :: 0 <= k < end ==> length[k] < length[end]
  {
    end := -1;
    var k := 0;
    while k < length.Length
      invariant 0 <= k <= length.Length
      invariant -1 <= end < k || (end == -1 && k == 0)
      invariant end == -1 <==> k == 0
      invariant end != -1 ==> forall m :: 0 <= m < k ==> length[m] <= length[end]
      invariant end != -1 ==> forall m :: 0 <= m < end ==> length[m] < length[end]
    {
      if end == -1 || length[end] < length[k] {
        end := k;
      }
      k := k + 1;
    }
  }

  /** There is one such run, so what is reported is determined. */
  lemma OneEarliestRun(positions: seq<int>, a: set<nat>, b: set<nat>)
    requires EarliestRun(positions, a) && EarliestRun(positions, b)
    ensures a == b
  {
    assert EndsEarlier(a, b) ==> !EndsEarlier(b, a);
  }

  lemma RunsOfThree(positions: seq<int>, other: set<nat>)
    requires positions == [1, 0, 2] && InOrder(positions, other)
    ensures |other| <= 2
    ensures |other| == 2 ==> other == {0, 2} || other == {1, 2}
  {
    assert positions[1] < positions[0];
    var bound: set<nat> := if 0 in other then {0, 2} else {1, 2};
    assert forall x :: x in other ==> x in bound;
    Within(other, bound);
  }

  lemma Within(a: set<nat>, b: set<nat>)
    requires a <= b
    ensures |a| <= |b| && (|a| == |b| ==> a == b)
  {
    var rest := b - a;
    assert b == a + rest;
  }

  /** Of the draft B, A, C against A, B, C it is A that is reported, not B. */
  lemma FirstOfTwoIsKept(positions: seq<int>, keep: set<nat>)
    requires positions == [1, 0, 2] && EarliestRun(positions, keep)
    ensures keep == {0, 2}
  {
    var first: set<nat> := {0, 2};
    assert InOrder(positions, first);
    forall other | InOrder(positions, other)
      ensures |other| <= |first|
    {
      RunsOfThree(positions, other);
    }
    forall other | LongestRun(positions, other) && other != first
      ensures EndsEarlier(first, other)
    {
      RunsOfThree(positions, other);
      assert SameAbove(first, other, 1);
    }
    OneEarliestRun(positions, keep, first);
  }

  // --- sections ---

  predicate Unique(ids: seq<string>) {
    forall i, j :: 0 <= i < j < |ids| ==> ids[i] != ids[j]
  }

  ghost predicate Before(ids: seq<string>, x: string, y: string) {
    exists i, j :: 0 <= i < j < |ids| && ids[i] == x && ids[j] == y
  }

  /** With the sections `removed` set aside, the sections that both versions have stand in
      the same order in both. */
  ghost predicate AgreeWithout(live: seq<string>, draft: seq<string>, removed: set<string>) {
    forall x, y :: x in live && x in draft && x !in removed && y in live && y in draft && y !in removed
                   ==> (Before(draft, x, y) <==> Before(live, x, y))
  }

  /** The sections a draft shares with the live version, in draft order. */
  function Common(live: seq<string>, draft: seq<string>): (r: seq<string>)
    ensures forall x :: x in r <==> x in live && x in draft
    ensures Unique(draft) ==> Unique(r)
  {
    if draft == [] then []
    else
      var rest := Common(live, draft[1..]);
      assert forall x :: x in draft <==> x == draft[0] || x in draft[1..];
      if draft[0] in live then [draft[0]] + rest else rest
  }

  lemma FirstIsBefore(ids: seq<string>, y: string)
    requires ids != [] && y in ids[1..]
    ensures Before(ids, ids[0], y)
  {
    var k :| 0 <= k < |ids[1..]| && ids[1..][k] == y;
    assert ids[k + 1] == y;
  }

  lemma BeforeFurtherOn(ids: seq<string>, x: string, y: string)
    requires ids != [] && Before(ids[1..], x, y)
    ensures Before(ids, x, y)
  {
    var a, b :| 0 <= a < b < |ids[1..]| && ids[1..][a] == x && ids[1..][b] == y;
    assert ids[a + 1] == x && ids[b + 1] == y;
  }

  lemma {:induction false} CommonKeepsOrder(live: seq<string>, draft: seq<string>, i: nat, j: nat)
    requires i < j < |Common(live, draft)|
    ensures Before(draft, Common(live, draft)[i], Common(live, draft)[j])
  {
    var common := Common(live, draft);
    var rest := Common(live, draft[1..]);
    if draft[0] in live && i == 0 {
      assert common[j] == rest[j - 1] && rest[j - 1] in draft[1..];
      FirstIsBefore(draft, common[j]);
    } else {
      var shift := if draft[0] in live then 1 else 0;
      CommonKeepsOrder(live, draft[1..], i - shift, j - shift);
      BeforeFurtherOn(draft, common[i], common[j]);
    }
  }

  /** An id at an index outside `keep`. */
  predicate IsLeft<T(==)>(ids: seq<T>, keep: set<nat>, x: T) {
    exists k: nat :: k < |ids| && k !in keep && ids[k] == x
  }

  lemma LeftWithLast<T>(ids: seq<T>, keep: set<nat>, x: T)
    requires ids != []
    ensures var last := |ids| - 1;
            IsLeft(ids, keep, x) <==> IsLeft(ids[..last], keep - {last}, x) || (last !in keep && ids[last] == x)
  {
    var last := |ids| - 1;
    if IsLeft(ids[..last], keep - {last}, x) {
      var k: nat :| k < last && k !in keep - {last} && ids[..last][k] == x;
      assert ids[k] == x && k !in keep;
    }
    if k: nat :| k < last && k !in keep && ids[k] == x {
      assert ids[..last][k] == x && k !in keep - {last};
    }
  }

  lemma {:induction false} WithoutFacts<T>(ids: seq<T>, keep: set<nat>)
    requires forall k :: k in keep ==> k < |ids|
    ensures |Without(ids, keep)| == |ids| - |keep|
    ensures forall x :: x in Without(ids, keep) <==> IsLeft(ids, keep, x)
  {
    if ids == [] {
      assert keep == {};
    } else {
      var last := |ids| - 1;
      var init := ids[..last];
      var fewer := keep - {last};
      WithoutIgnores(init, keep, last);
      WithoutFacts(init, fewer);
      assert last !in keep ==> fewer == keep;
      forall x
        ensures x in Without(ids, keep) <==> IsLeft(ids, keep, x)
      {
        LeftWithLast(ids, keep, x);
      }
    }
  }

  lemma {:induction false} WithoutIgnores<T>(ids: seq<T>, keep: set<nat>, beyond: nat)
    requires |ids| <= beyond
    ensures Without(ids, keep) == Without(ids, keep - {beyond})
  {
    if ids != [] {
      WithoutIgnores(ids[..|ids| - 1], keep, beyond);
    }
  }

  /** The positions the shared sections have in the live version. */
  ghost predicate PositionsOf(live: seq<string>, common: seq<string>, positions: seq<int>) {
    && |positions| == |common|
    && (forall k :: 0 <= k < |common| ==> 0 <= positions[k] < |live| && live[positions[k]] == common[k])
  }

  lemma {:induction false} AgreementIsInOrder(live: seq<string>, draft: seq<string>, positions: seq<int>,
                                              removed: set<string>, kept: set<nat>)
    requires Unique(live) && Unique(draft)
    requires PositionsOf(live, Common(live, draft), positions)
    requires forall k: nat :: k in kept <==> k < |positions| && Common(live, draft)[k] !in removed
    ensures AgreeWithout(live, draft, removed) <==> InOrder(positions, kept)
  {
    var common := Common(live, draft);
    if AgreeWithout(live, draft, removed) {
      forall i, j | i in kept && j in kept && i < j
        ensures positions[i] < positions[j]
      {
        CommonKeepsOrder(live, draft, i, j);
        assert common[i] in common && common[j] in common;
        var a, b :| 0 <= a < b < |live| && live[a] == common[i] && live[b] == common[j];
        assert positions[i] == a && positions[j] == b;
      }
    }
    if InOrder(positions, kept) {
      forall x, y | x in live && x in draft && x !in removed && y in live && y in draft && y !in removed
        ensures Before(draft, x, y) <==> Before(live, x, y)
      {
        assert x in common && y in common;
        var i: nat :| i < |common| && common[i] == x;
        var j: nat :| j < |common| && common[j] == y;
        if i < j {
          CommonKeepsOrder(live, draft, i, j);
          assert Before(live, x, y);
        } else if j < i {
          CommonKeepsOrder(live, draft, j, i);
          assert Before(live, y, x);
        }
      }
    }
  }

  /** The ids reported as moved are a smallest set whose removal leaves the sections both
      versions share in the same order, and none is reported exactly when that order is
      already the same. */
  method MovedSections(live: seq<string>, draft: seq<string>) returns (moved: seq<string>)
    requires Unique(live) && Unique(draft)
    ensures forall x :: x in moved ==> x in live && x in draft
    ensures AgreeWithout(live, draft, set x | x in moved)
    ensures forall removed :: AgreeWithout(live, draft, removed) ==> |moved| <= |removed|
    ensures moved == [] <==> AgreeWithout(live, draft, {})
    ensures exists positions, keep ::
              PositionsOf(live, Common(live, draft), positions) && EarliestRun(positions, keep) &&
              moved == Without(Common(live, draft), keep)
  {
    var common := Common(live, draft);
    var positions: seq<int> := [];
    var k := 0;
    while k < |common|
      invariant 0 <= k <= |common|
      invariant PositionsOf(live, common[..k], positions)
    {
      assert common[k] in common;
      var at := 0;
      while live[at] != common[k]
        invariant 0 <= at < |live|
        invariant common[k] !in live[..at]
        decreases |live| - at
      {
        at := at + 1;
      }
      positions := positions + [at];
      k := k + 1;
    }
    assert common[..k] == common;
    moved := OutOfOrder(positions, common);
    ghost var keep: set<nat> :| EarliestRun(positions, keep) && moved == Without(common, keep);
    MovedIsSmallest(live, draft, positions, keep, moved);
  }

  lemma KeptAreNotReported(common: seq<string>, keep: set<nat>)
    requires Unique(common)
    requires forall k :: k in keep ==> k < |common|
    ensures forall k: nat :: k in keep <==> k < |common| && common[k] !in Without(common, keep)
  {
    WithoutFacts(common, keep);
    forall k: nat | k < |common|
      ensures k in keep <==> common[k] !in Without(common, keep)
    {
      if common[k] in Without(common, keep) {
        var m: nat :| m < |common| && m !in keep && common[m] == common[k];
        assert m == k;
      }
    }
  }

  lemma NoSmallerRemoval(live: seq<string>, draft: seq<string>, positions: seq<int>, keep: set<nat>,
                         removed: set<string>)
    requires Unique(live) && Unique(draft)
    requires PositionsOf(live, Common(live, draft), positions)
    requires LongestRun(positions, keep)
    requires AgreeWithout(live, draft, removed)
    ensures |positions| - |keep| <= |removed|
  {
    var common := Common(live, draft);
    var all := UpTo(|common|);
    var kept := set i: nat | i in all && common[i] !in removed;
    AgreementIsInOrder(live, draft, positions, removed, kept);
    Injection(all - kept, common, removed);
    assert |all - kept| == |all| - |kept|;
  }

  lemma MovedIsSmallest(live: seq<string>, draft: seq<string>, positions: seq<int>, keep: set<nat>,
                        moved: seq<string>)
    requires Unique(live) && Unique(draft)
    requires PositionsOf(live, Common(live, draft), positions)
    requires LongestRun(positions, keep) && moved == Without(Common(live, draft), keep)
    ensures forall x :: x in moved ==> x in live && x in draft
    ensures AgreeWithout(live, draft, set x | x in moved)
    ensures forall removed :: AgreeWithout(live, draft, removed) ==> |moved| <= |removed|
    ensures moved == [] <==> AgreeWithout(live, draft, {})
  {
    var common := Common(live, draft);
    WithoutFacts(common, keep);
    assert forall x :: x in moved ==> x in common;
    var gone := set x | x in moved;
    KeptAreNotReported(common, keep);
    AgreementIsInOrder(live, draft, positions, gone, keep);
    forall removed | AgreeWithout(live, draft, removed)
      ensures |moved| <= |removed|
    {
      NoSmallerRemoval(live, draft, positions, keep, removed);
    }
    if moved == [] {
      assert gone == {};
    }
    if AgreeWithout(live, draft, {}) {
      var none: set<string> := {};
      assert |moved| <= |none|;
    }
  }
}
