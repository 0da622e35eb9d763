/** Linear probing over the five categorical slots, in terms of preferred slots only.

    The inner loop of `assignColors` (app/components/charts/palette.ts). */
module Probing {
  import opened Counting

  const LIMIT: nat := 5

  type Slot = s: nat | s < 5

  function Next(slot: Slot): Slot {
    if slot == 4 then 0 else slot + 1
  }

  /** The first free slot from `slot` on, giving up after `attempts` steps. */
  function Probe(slot: Slot, used: set<Slot>, attempts: nat): Slot
    decreases attempts
  {
    if attempts == 0 || slot !in used then slot else Probe(Next(slot), used, attempts - 1)
  }

  function Used(slots: seq<Slot>): set<Slot> {
    set s | s in slots
  }

  /** The slots given out for a list of preferences, each probed against the ones before. */
  function Slots(preferred: seq<Slot>): (slots: seq<Slot>)
    ensures |slots| == |preferred|
  {
    if preferred == [] then []
    else
      var before := Slots(preferred[..|preferred| - 1]);
      before + [Probe(preferred[|preferred| - 1], Used(before), LIMIT)]
  }

  method FindSlot(preferred: Slot, used: set<Slot>) returns (slot: Slot)
    ensures slot == Probe(preferred, used, LIMIT)
  {
    slot := preferred;
    var attempt := 0;
    while attempt < LIMIT && slot in used
      invariant 0 <= attempt <= LIMIT
      invariant Probe(slot, used, LIMIT - attempt) == Probe(preferred, used, LIMIT)
    {
      slot := Next(slot);
      attempt := attempt + 1;
    }
  }

  ghost predicate AllUsed(used: set<Slot>) {
    forall s: Slot :: s in used
  }

  /** Five steps visit every slot: the probe ends on a free one, or there is none and it
      comes back to where it started. */
  lemma ProbeOutcome(slot: Slot, used: set<Slot>)
    ensures AllUsed(used) ==> Probe(slot, used, LIMIT) == slot
    ensures !AllUsed(used) ==> Probe(slot, used, LIMIT) !in used
  {
    var s1 := Next(slot);
    var s2 := Next(s1);
    var s3 := Next(s2);
    var s4 := Next(s3);
    assert Next(s4) == slot;
    if slot in used && s1 in used && s2 in used && s3 in used && s4 in used {
      forall s: Slot
        ensures s in used
      {
        assert s == slot || s == s1 || s == s2 || s == s3 || s == s4;
      }
    }
    assert Probe(slot, used, 0) == slot;
    assert Probe(s4, used, 1) == if s4 !in used then s4 else slot;
    assert Probe(s3, used, 2) == if s3 !in used then s3 else Probe(s4, used, 1);
    assert Probe(s2, used, 3) == if s2 !in used then s2 else Probe(s3, used, 2);
    assert Probe(s1, used, 4) == if s1 !in used then s1 else Probe(s2, used, 3);
  }

  lemma {:induction false} UsedIsSmall(slots: seq<Slot>)
    ensures |Used(slots)| <= |slots|
  {
    if slots != [] {
      UsedIsSmall(slots[1..]);
      assert Used(slots) == Used(slots[1..]) + {slots[0]};
    }
  }

  lemma AllUsedMeansFive(slots: seq<Slot>)
    requires AllUsed(Used(slots))
    ensures |slots| >= LIMIT
  {
    var all: set<Slot> := {0, 1, 2, 3, 4};
    assert |all| == 5;
    assert all == Used(slots);
    UsedIsSmall(slots);
  }

  lemma FiveDistinctUseAll(slots: seq<Slot>)
    requires |slots| == LIMIT
    requires forall i, j :: 0 <= i < j < |slots| ==> slots[i] != slots[j]
    ensures AllUsed(Used(slots))
  {
    Injection(UpTo(LIMIT), slots, Used(slots));
    FiveIsAll(Used(slots));
  }

  lemma FiveIsAll(used: set<Slot>)
    requires |used| >= LIMIT
    ensures AllUsed(used)
  {
    forall s: Slot
      ensures s in used
    {
      if s !in used {
        var rest: set<Slot> := {0, 1, 2, 3, 4} - {s};
        assert used <= rest;
        SubsetIsSmaller(used, rest);
      }
    }
  }

  lemma SubsetIsSmaller(small: set<Slot>, large: set<Slot>)
    requires small <= large
    ensures |small| <= |large|
  {
    assert large == small + (large - small);
  }

  /** The first five get five different slots; from the sixth on every slot is used and each
      gets its preference. */
  lemma {:induction false} DistinctToTheCap(preferred: seq<Slot>)
    ensures forall i, j :: 0 <= i < j < |preferred| && j < LIMIT ==> Slots(preferred)[i] != Slots(preferred)[j]
    ensures forall i :: LIMIT <= i < |preferred| ==> Slots(preferred)[i] == preferred[i]
    ensures |preferred| >= LIMIT ==> AllUsed(Used(Slots(preferred)))
  {
    if preferred != [] {
      var init := preferred[..|preferred| - 1];
      var last := preferred[|preferred| - 1];
      var before := Slots(init);
      DistinctToTheCap(init);
      ProbeOutcome(last, Used(before));
      if AllUsed(Used(before)) {
        AllUsedMeansFive(before);
      }
      if |init| == LIMIT - 1 {
        FiveDistinctUseAll(Slots(preferred));
      }
      assert forall s :: s in Used(before) ==> s in Used(Slots(preferred));
    }
  }

  /** What is asked for later never changes what was given earlier. */
  lemma {:induction false} PrefixStable(first: seq<Slot>, second: seq<Slot>)
    ensures Slots(first) <= Slots(first + second)
    decreases |second|
  {
    if second == [] {
      assert first + second == first;
    } else {
      var init := second[..|second| - 1];
      PrefixStable(first, init);
      assert (first + second)[..|first + second| - 1] == first + init;
    }
  }

  lemma {:induction false} SlotAt(preferred: seq<Slot>, i: nat)
    requires i < |preferred|
    ensures Slots(preferred)[..i] == Slots(preferred[..i])
    ensures Slots(preferred)[i] == Probe(preferred[i], Used(Slots(preferred[..i])), LIMIT)
  {
    var init := preferred[..|preferred| - 1];
    if i < |init| {
      SlotAt(init, i);
      assert init[..i] == preferred[..i];
      assert Slots(preferred)[..i] == Slots(init)[..i];
    }
  }

  // --- when a preference goes unmet, in terms of the preferences alone ---

  function Before(slot: Slot): Slot {
    if slot == 0 then 4 else slot - 1
  }

  function CountOf(preferred: seq<Slot>, slot: Slot): nat {
    if preferred == [] then 0
    else
      CountOf(preferred[..|preferred| - 1], slot) + if preferred[|preferred| - 1] == slot then 1 else 0
  }

  /** How many ask for the slot or for one of the `d` slots before it, going round. */
  function Load(count: Slot -> nat, slot: Slot, d: nat): nat
    decreases d
  {
    count(slot) + if d == 0 then 0 else Load(count, Before(slot), d - 1)
  }

  predicate Overloaded(count: Slot -> nat, slot: Slot) {
    exists d :: 0 <= d < LIMIT && Load(count, slot, d) > d
  }

  function Counts(preferred: seq<Slot>): Slot -> nat {
    slot => CountOf(preferred, slot)
  }

  /** Some stretch of `d + 1` slots ending in this one is asked for by more than `d`. */
  predicate Crowded(preferred: seq<Slot>, slot: Slot) {
    Overloaded(Counts(preferred), slot)
  }

  /** `Overloaded` on the five counts, the slot's own first and then those before it. */
  predicate Full(c0: nat, c1: nat, c2: nat, c3: nat, c4: nat) {
    c0 > 0 || c0 + c1 > 1 || c0 + c1 + c2 > 2 || c0 + c1 + c2 + c3 > 3 || c0 + c1 + c2 + c3 + c4 > 4
  }

  lemma OverloadedIsFull(count: Slot -> nat, s0: Slot, s1: Slot, s2: Slot, s3: Slot, s4: Slot)
    requires s1 == Before(s0) && s2 == Before(s1) && s3 == Before(s2) && s4 == Before(s3)
    ensures Overloaded(count, s0) <==> Full(count(s0), count(s1), count(s2), count(s3), count(s4))
  {
    assert Load(count, s0, 0) == count(s0);
    assert Load(count, s1, 0) == count(s1);
    assert Load(count, s0, 1) == count(s0) + count(s1);
    assert Load(count, s2, 0) == count(s2);
    assert Load(count, s1, 1) == count(s1) + count(s2);
    assert Load(count, s0, 2) == count(s0) + count(s1) + count(s2);
    assert Load(count, s3, 0) == count(s3);
    assert Load(count, s2, 1) == count(s2) + count(s3);
    assert Load(count, s1, 2) == count(s1) + count(s2) + count(s3);
    assert Load(count, s0, 3) == count(s0) + count(s1) + count(s2) + count(s3);
    assert Load(count, s4, 0) == count(s4);
    assert Load(count, s3, 1) == count(s3) + count(s4);
    assert Load(count, s2, 2) == count(s2) + count(s3) + count(s4);
    assert Load(count, s1, 3) == count(s1) + count(s2) + count(s3) + count(s4);
    assert Load(count, s0, 4) == count(s0) + count(s1) + count(s2) + count(s3) + count(s4);
  }

  lemma {:induction false} CountsAddUp(preferred: seq<Slot>)
    ensures CountOf(preferred, 0) + CountOf(preferred, 1) + CountOf(preferred, 2) + CountOf(preferred, 3) +
            CountOf(preferred, 4) == |preferred|
  {
    if preferred != [] {
      CountsAddUp(preferred[..|preferred| - 1]);
    }
  }

  /** One more for a slot fills it, or the first one after it that was not full; `ci` is the
      count of the `i`-th slot from there on. */
  lemma OneMoreFills(c0: nat, c1: nat, c2: nat, c3: nat, c4: nat)
    requires c0 + c1 + c2 + c3 + c4 < LIMIT - 1
    ensures var f0, f1 := Full(c0, c4, c3, c2, c1), Full(c1, c0, c4, c3, c2);
            var f2, f3, f4 := Full(c2, c1, c0, c4, c3), Full(c3, c2, c1, c0, c4), Full(c4, c3, c2, c1, c0);
            && Full(c0 + 1, c4, c3, c2, c1)
            && (Full(c1, c0 + 1, c4, c3, c2) <==> f1 || f0)
            && (Full(c2, c1, c0 + 1, c4, c3) <==> f2 || (f0 && f1))
            && (Full(c3, c2, c1, c0 + 1, c4) <==> f3 || (f0 && f1 && f2))
            && (Full(c4, c3, c2, c1, c0 + 1) <==> f4 || (f0 && f1 && f2 && f3))
  {
  }

  lemma ProbeTakes(slot: Slot, used: set<Slot>)
    requires !AllUsed(used)
    ensures var (s1, s2) := (Next(slot), Next(Next(slot)));
            var (s3, s4) := (Next(s2), Next(Next(s2)));
            var taken := used + {Probe(slot, used, LIMIT)};
            && slot in taken
            && (s1 in taken <==> s1 in used || slot in used)
            && (s2 in taken <==> s2 in used || (slot in used && s1 in used))
            && (s3 in taken <==> s3 in used || (slot in used && s1 in used && s2 in used))
            && (s4 in taken <==> s4 in used || (slot in used && s1 in used && s2 in used && s3 in used))
  {
    var s1 := Next(slot);
    var s2 := Next(s1);
    var s3 := Next(s2);
    var s4 := Next(s3);
    ProbeOutcome(slot, used);
    assert Probe(slot, used, 5) == if slot !in used then slot else Probe(s1, used, 4);
    assert Probe(s1, used, 4) == if s1 !in used then s1 else Probe(s2, used, 3);
    assert Probe(s2, used, 3) == if s2 !in used then s2 else Probe(s3, used, 2);
    assert Probe(s3, used, 2) == if s3 !in used then s3 else Probe(s4, used, 1);
    assert Probe(s4, used, 1) == if s4 !in used then s4 else slot;
  }

  /** The step of `TakenExactlyWhen`: `count` before and `more` after one more preference for
      `q0`, for the slots from there on. */
  lemma OneMoreOverloads(count: Slot -> nat, more: Slot -> nat, q0: Slot, q1: Slot, q2: Slot, q3: Slot, q4: Slot)
    requires count(q0) + count(q1) + count(q2) + count(q3) + count(q4) < LIMIT - 1
    requires q1 == Next(q0) && q2 == Next(q1) && q3 == Next(q2) && q4 == Next(q3)
    requires more(q0) == count(q0) + 1 && more(q1) == count(q1) && more(q2) == count(q2)
    requires more(q3) == count(q3) && more(q4) == count(q4)
    ensures var f0, f1, f2 := Overloaded(count, q0), Overloaded(count, q1), Overloaded(count, q2);
            var f3, f4 := Overloaded(count, q3), Overloaded(count, q4);
            && Overloaded(more, q0)
            && (Overloaded(more, q1) <==> f1 || f0)
            && (Overloaded(more, q2) <==> f2 || (f0 && f1))
            && (Overloaded(more, q3) <==> f3 || (f0 && f1 && f2))
            && (Overloaded(more, q4) <==> f4 || (f0 && f1 && f2 && f3))
  {
    OneMoreFills(count(q0), count(q1), count(q2), count(q3), count(q4));
    OverloadedRound(count, q0, q1, q2, q3, q4);
    OverloadedRound(more, q0, q1, q2, q3, q4);
  }

  lemma OverloadedRound(count: Slot -> nat, q0: Slot, q1: Slot, q2: Slot, q3: Slot, q4: Slot)
    requires q1 == Next(q0) && q2 == Next(q1) && q3 == Next(q2) && q4 == Next(q3)
    ensures var c0, c1, c2, c3, c4 := count(q0), count(q1), count(q2), count(q3), count(q4);
            && (Overloaded(count, q0) <==> Full(c0, c4, c3, c2, c1))
            && (Overloaded(count, q1) <==> Full(c1, c0, c4, c3, c2))
            && (Overloaded(count, q2) <==> Full(c2, c1, c0, c4, c3))
            && (Overloaded(count, q3) <==> Full(c3, c2, c1, c0, c4))
            && (Overloaded(count, q4) <==> Full(c4, c3, c2, c1, c0))
  {
    OverloadedIsFull(count, q0, q4, q3, q2, q1);
    OverloadedIsFull(count, q1, q0, q4, q3, q2);
    OverloadedIsFull(count, q2, q1, q0, q4, q3);
    OverloadedIsFull(count, q3, q2, q1, q0, q4);
    OverloadedIsFull(count, q4, q3, q2, q1, q0);
  }

  lemma CountGrows(preferred: seq<Slot>, last: Slot, slot: Slot)
    ensures CountOf(preferred + [last], slot) == CountOf(preferred, slot) + if slot == last then 1 else 0
  {
    assert (preferred + [last])[..|preferred|] == preferred;
  }

  lemma SumsAgree(count: Slot -> nat, q0: Slot, q1: Slot, q2: Slot, q3: Slot, q4: Slot)
    requires q1 == Next(q0) && q2 == Next(q1) && q3 == Next(q2) && q4 == Next(q3)
    ensures count(q0) + count(q1) + count(q2) + count(q3) + count(q4) ==
            count(0) + count(1) + count(2) + count(3) + count(4)
  {
  }

  lemma OneMoreCounts(preferred: seq<Slot>, q0: Slot, q1: Slot, q2: Slot, q3: Slot, q4: Slot)
    requires q1 == Next(q0) && q2 == Next(q1) && q3 == Next(q2) && q4 == Next(q3)
    ensures var count, more := Counts(preferred), Counts(preferred + [q0]);
            && count(q0) + count(q1) + count(q2) + count(q3) + count(q4) == |preferred|
            && more(q0) == count(q0) + 1 && more(q1) == count(q1) && more(q2) == count(q2)
            && more(q3) == count(q3) && more(q4) == count(q4)
  {
    CountsAddUp(preferred);
    CountGrows(preferred, q0, q0);
    CountGrows(preferred, q0, q1);
    CountGrows(preferred, q0, q2);
    CountGrows(preferred, q0, q3);
    CountGrows(preferred, q0, q4);
    SumsAgree(Counts(preferred), q0, q1, q2, q3, q4);
  }

  lemma NobodyCrowds(slot: Slot)
    ensures !Crowded([], slot)
  {
    var s1 := Before(slot);
    var s2 := Before(s1);
    var s3 := Before(s2);
    OverloadedIsFull(Counts([]), slot, s1, s2, s3, Before(s3));
  }

  /** While slots are left, the ones given out are exactly the crowded ones. */
  lemma {:induction false} TakenExactlyWhen(preferred: seq<Slot>, slot: Slot)
    requires |preferred| < LIMIT
    ensures slot in Used(Slots(preferred)) <==> Crowded(preferred, slot)
    decreases |preferred|
  {
    if preferred == [] {
      NobodyCrowds(slot);
    } else {
      var init, q0 := preferred[..|preferred| - 1], preferred[|preferred| - 1];
      var used := Used(Slots(init));
      var q1 := Next(q0);
      var q2 := Next(q1);
      var q3 := Next(q2);
      var q4 := Next(q3);
      TakenExactlyWhen(init, q0);
      TakenExactlyWhen(init, q1);
      TakenExactlyWhen(init, q2);
      TakenExactlyWhen(init, q3);
      TakenExactlyWhen(init, q4);
      assert preferred == init + [q0];
      OneMoreCounts(init, q0, q1, q2, q3, q4);
      OneMoreOverloads(Counts(init), Counts(preferred), q0, q1, q2, q3, q4);
      if AllUsed(used) {
        AllUsedMeansFive(Slots(init));
      }
      ProbeTakes(q0, used);
      assert Used(Slots(preferred)) == used + {Probe(q0, used, LIMIT)};
      assert slot == q0 || slot == q1 || slot == q2 || slot == q3 || slot == q4;
    }
  }

  /** A preference is met exactly when five came before it, or no stretch of slots ending in
      the preferred one was asked for before by as many as fill it. */
  lemma MetExactlyWhen(preferred: seq<Slot>, i: nat)
    requires i < |preferred|
    ensures Slots(preferred)[i] == preferred[i] <==> i >= LIMIT || !Crowded(preferred[..i], preferred[i])
  {
    if i >= LIMIT {
      DistinctToTheCap(preferred);
    } else {
      var used := Used(Slots(preferred[..i]));
      SlotAt(preferred, i);
      TakenExactlyWhen(preferred[..i], preferred[i]);
      ProbeOutcome(preferred[i], used);
      if AllUsed(used) {
        AllUsedMeansFive(Slots(preferred[..i]));
      }
    }
  }

  /** Two that want slot 3 push the second to slot 4, and the one that wants slot 4 on. */
  lemma TwoThenANeighbour()
    ensures Slots([3, 3, 4]) == [3, 4, 0]
  {
    var three: seq<Slot> := [3, 3, 4];
    assert three[..2][..1] == [3] && three[..2][..1][..0] == [];
    assert Slots(three[..2][..1]) == [3];
    assert Used([3]) == {3};
    assert Probe(4, {3}, 4) == 4;
    assert Slots(three[..2]) == [3, 4];
    assert Used([3, 4]) == {3, 4};
    assert Probe(0, {3, 4}, 4) == 0;
  }
}
