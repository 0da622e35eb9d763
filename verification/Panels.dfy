/** How chart series split across stacked panels by magnitude.

    Models `seriesMaxAbs` and `panelGroups` (app/components/charts/panels.ts). Magnitudes are
    reals: floating-point rounding of the quotient is not modelled. */
module Panels {
  import opened Counting
  import opened StableSort

  /** A parsed point value; `NonFinite` stands for NaN and the infinities. */
  datatype Reading = Finite(value: real) | NonFinite

  datatype Series = Series(key: string, points: seq<Reading>)

  /** Something ranked by a magnitude: a series key, or a whole panel. */
  datatype Ranked<T> = Ranked(item: T, max: real)

  type Entry = Ranked<string>

  function Rank<T>(r: Ranked<T>): real {
    r.max
  }

  function Abs(x: real): real {
    if x < 0.0 then -x else x
  }

  /** The greatest magnitude among the finite points; zero when there is none. */
  method SeriesMaxAbs(series: Series) returns (max: real)
    ensures max == MaxAbs(series.points)
    ensures forall i :: 0 <= i < |series.points| && series.points[i].Finite? ==> Abs(series.points[i].value) <= max
    ensures max == 0.0 || exists i :: 0 <= i < |series.points| && series.points[i].Finite?
                                      && Abs(series.points[i].value) == max
  {
    max := 0.0;
    var k := 0;
    while k < |series.points|
      invariant 0 <= k <= |series.points|
      invariant max == MaxAbs(series.points[..k])
      invariant forall i :: 0 <= i < k && series.points[i].Finite? ==> Abs(series.points[i].value) <= max
      invariant max == 0.0 || exists i :: 0 <= i < k && series.points[i].Finite? && Abs(series.points[i].value) == max
    {
      assert series.points[..k + 1][..k] == series.points[..k];
      if series.points[k].Finite? && Abs(series.points[k].value) > max {
        max := Abs(series.points[k].value);
      }
      k := k + 1;
    }
    assert series.points[..k] == series.points;
  }

  function MaxAbs(points: seq<Reading>): (max: real)
    ensures 0.0 <= max
  {
    if points == [] then 0.0
    else
      var rest := MaxAbs(points[..|points| - 1]);
      match points[|points| - 1]
      case NonFinite => rest
      case Finite(value) => if Abs(value) > rest then Abs(value) else rest
  }

  // --- panels ---

  /** May two series share a panel? Zero only with zero; otherwise less than a factor of
      ten apart. */
  predicate Compatible(a: Entry, b: Entry) {
    if a.max == 0.0 || b.max == 0.0 then a.max == b.max
    else a.max < 10.0 * b.max && b.max < 10.0 * a.max
  }

  function Flatten<T>(groups: seq<seq<T>>): seq<T> {
    if groups == [] then [] else groups[0] + Flatten(groups[1..])
  }

  lemma {:induction false} FlattenAppend<T>(a: seq<seq<T>>, b: seq<seq<T>>)
    ensures Flatten(a + b) == Flatten(a) + Flatten(b)
  {
    if a == [] {
      assert a + b == b;
    } else {
      assert (a + b)[1..] == a[1..] + b;
      FlattenAppend(a[1..], b);
    }
  }

  /** The invariant of the greedy pass: each panel is led by its greatest series, which
      everything in the panel is compatible with, and no leader belongs in an earlier panel. */
  ghost predicate Panelled(panels: seq<seq<Entry>>) {
    && (forall g :: 0 <= g < |panels| ==> panels[g] != [])
    && (forall g, i :: 0 <= g < |panels| && 0 <= i < |panels[g]| ==>
          0.0 <= panels[g][i].max <= panels[g][0].max && Compatible(panels[g][0], panels[g][i]))
    && (forall g, h :: 0 <= g < h < |panels| ==>
          panels[h][0].max < panels[g][0].max && !Compatible(panels[g][0], panels[h][0]))
  }

  function KeysOf(entries: seq<Entry>): seq<string> {
    seq(|entries|, i requires 0 <= i < |entries| => entries[i].item)
  }

  function KeyGroups(groups: seq<seq<Entry>>): seq<seq<string>> {
    seq(|groups|, i requires 0 <= i < |groups| => KeysOf(groups[i]))
  }

  function Entries(series: seq<Series>): seq<Entry> {
    seq(|series|, i requires 0 <= i < |series| => Ranked(series[i].key, MaxAbs(series[i].points)))
  }

  /** Every series in exactly one panel. */
  ghost predicate Partition(entries: seq<Entry>, panels: seq<seq<Entry>>) {
    multiset(Flatten(panels)) == multiset(entries)
  }

  ghost predicate AllCompatible(panels: seq<seq<Entry>>) {
    forall g, a, b :: 0 <= g < |panels| && a in panels[g] && b in panels[g] ==> Compatible(a, b)
  }

  /** The greatest magnitude in a panel stands first in it, and is below the one before. */
  ghost predicate MaximaDecrease(panels: seq<seq<Entry>>) {
    && (forall g :: 0 <= g < |panels| ==> panels[g] != [])
    && (forall g, e :: 0 <= g < |panels| && e in panels[g] ==> e.max <= panels[g][0].max)
    && (forall g, h :: 0 <= g < h < |panels| ==> panels[h][0].max < panels[g][0].max)
  }

  ghost predicate MinimalPanels(entries: seq<Entry>, panels: seq<seq<Entry>>) {
    && Partition(entries, panels)
    && AllCompatible(panels)
    && MaximaDecrease(panels)
    && (forall other :: Partition(entries, other) && AllCompatible(other) ==> |panels| <= |other|)
  }

  /** Each series with its greatest magnitude, greatest first. */
  method WithMaxima(series: seq<Series>) returns (withMax: seq<Entry>)
    ensures withMax == SortDescending(Rank, Entries(series))
    ensures Descending(Rank, withMax)
    ensures forall i :: 0 <= i < |withMax| ==> withMax[i].max >= 0.0
    ensures |withMax| == |series|
  {
    withMax := [];
    var n := 0;
    while n < |series|
      invariant 0 <= n <= |series|
      invariant withMax == Entries(series)[..n]
    {
      var max := SeriesMaxAbs(series[n]);
      withMax := withMax + [Ranked(series[n].key, max)];
      n := n + 1;
    }
    assert withMax == Entries(series);
    withMax := SortDescending(Rank, withMax);
    SortedEntries(Entries(series));
  }

  lemma SortedEntries(entries: seq<Entry>)
    requires forall i :: 0 <= i < |entries| ==> entries[i].max >= 0.0
    ensures var sorted := SortDescending(Rank, entries);
            && Descending(Rank, sorted) && |sorted| == |entries|
            && forall i :: 0 <= i < |sorted| ==> sorted[i].max >= 0.0
  {
    var sorted := SortDescending(Rank, entries);
    SortIsDescending(Rank, entries);
    forall i | 0 <= i < |sorted|
      ensures sorted[i].max >= 0.0
    {
      assert sorted[i] in multiset(sorted);
      assert sorted[i] in multiset(entries);
    }
    assert |multiset(sorted)| == |multiset(entries)|;
  }

  /** The panels after one more series: in the last panel, or in one of its own. */
  function Place(panels: seq<seq<Entry>>, e: Entry, splits: bool): seq<seq<Entry>>
    requires panels != []
  {
    if splits then panels + [[e]]
    else panels[..|panels| - 1] + [panels[|panels| - 1] + [e]]
  }

  lemma PlaceFlattens(panels: seq<seq<Entry>>, e: Entry, splits: bool)
    requires panels != []
    ensures Flatten(Place(panels, e, splits)) == Flatten(panels) + [e]
  {
    if splits {
      FlattenAppend(panels, [[e]]);
      assert Flatten([[e]]) == [e];
    } else {
      var init, last := panels[..|panels| - 1], panels[|panels| - 1];
      assert panels == init + [last];
      FlattenAppend(init, [last]);
      FlattenAppend(init, [last + [e]]);
      assert Flatten([last]) == last && Flatten([last + [e]]) == last + [e];
    }
  }

  lemma PlaceKeeps(panels: seq<seq<Entry>>, e: Entry, splits: bool)
    requires panels != [] && Panelled(panels)
    requires 0.0 <= e.max <= panels[|panels| - 1][0].max
    requires splits <==> !Compatible(panels[|panels| - 1][0], e)
    ensures Panelled(Place(panels, e, splits))
  {
    if splits {
      OpenPanel(panels, e);
    } else {
      JoinPanel(panels, e);
    }
  }

  lemma PlaceKeyGroups(panels: seq<seq<Entry>>, e: Entry, splits: bool)
    requires panels != []
    ensures var groups := KeyGroups(panels);
            KeyGroups(Place(panels, e, splits))
            == if splits then groups + [[e.item]]
               else groups[..|groups| - 1] + [groups[|groups| - 1] + [e.item]]
  {
    if splits {
      assert KeysOf([e]) == [e.item];
    } else {
      var last := panels[|panels| - 1];
      assert KeysOf(last + [e]) == KeysOf(last) + [e.item];
    }
  }

  lemma JoinPanel(panels: seq<seq<Entry>>, e: Entry)
    requires panels != [] && Panelled(panels)
    requires 0.0 <= e.max <= panels[|panels| - 1][0].max
    requires Compatible(panels[|panels| - 1][0], e)
    ensures Panelled(Place(panels, e, false))
  {
    var next := Place(panels, e, false);
    var last := |panels| - 1;
    assert forall g :: 0 <= g < last ==> next[g] == panels[g];
    assert next[last] == panels[last] + [e];
    assert forall g :: 0 <= g < |next| ==> next[g][0] == panels[g][0];
  }

  /** The state of the greedy pass after `placed`. */
  ghost predicate Built(groups: seq<seq<string>>, groupMaxima: seq<real>, panels: seq<seq<Entry>>, placed: seq<Entry>) {
    && panels != [] && Panelled(panels)
    && groups == KeyGroups(panels)
    && groupMaxima == Maxima(panels)
    && Flatten(panels) == placed
  }

  /** The series stand from the greatest down, equal ones in the order given, and each panel
      takes all that fit its first before the next one opens. */
  ghost predicate FilledInOrder(entries: seq<Entry>, panels: seq<seq<Entry>>) {
    Flatten(panels) == SortDescending(Rank, entries) && Panelled(panels)
  }

  /** The first panel is all that fits its first series. */
  lemma FirstPanelIsFull(panels: seq<seq<Entry>>)
    requires Panelled(panels) && panels != []
    ensures var flat, n := Flatten(panels), |panels[0]|;
            && 0 < n <= |flat| && flat[..n] == panels[0] && flat[n..] == Flatten(panels[1..])
            && (forall i :: 0 <= i < n ==> Compatible(flat[0], flat[i]))
            && (n < |flat| ==> !Compatible(flat[0], flat[n]))
  {
    var flat, n := Flatten(panels), |panels[0]|;
    assert forall i :: 0 <= i < n ==> flat[i] == panels[0][i];
    if |panels| == 1 {
      assert Flatten(panels[1..]) == [];
    } else {
      assert panels[1..][0] == panels[1];
      assert flat[n] == panels[1][0];
    }
  }

  /** There is one way to fill panels like that. */
  lemma {:induction false} OneWayToFill(a: seq<seq<Entry>>, b: seq<seq<Entry>>)
    requires Panelled(a) && Panelled(b) && Flatten(a) == Flatten(b)
    ensures a == b
  {
    if a != [] {
      FirstPanelIsFull(a);
    }
    if b != [] {
      FirstPanelIsFull(b);
    }
    if a != [] && b != [] {
      RestIsPanelled(a);
      RestIsPanelled(b);
      assert |a[0]| == |b[0]|;
      OneWayToFill(a[1..], b[1..]);
      assert a == [a[0]] + a[1..] && b == [b[0]] + b[1..];
    }
  }

  lemma RestIsPanelled(panels: seq<seq<Entry>>)
    requires Panelled(panels) && panels != []
    ensures Panelled(panels[1..])
  {
    assert forall g :: 0 <= g < |panels[1..]| ==> panels[1..][g] == panels[g + 1];
  }

  method PanelGroups(series: seq<Series>) returns (groups: seq<seq<string>>)
    ensures exists panels :: MinimalPanels(Entries(series), panels) && FilledInOrder(Entries(series), panels) &&
                             groups == KeyGroups(panels)
  {
    if |series| == 0 {
      groups := [];
      ghost var none: seq<seq<Entry>> := [];
      assert MinimalPanels(Entries(series), none) && FilledInOrder(Entries(series), none) && groups == KeyGroups(none);
      return;
    }
    var withMax := WithMaxima(series);
    var groupMaxima;
    ghost var panels;
    groups, groupMaxima, panels := Greedy(withMax);
    PanelsAreMinimal(Entries(series), panels);
    groups := SortGroups(groups, groupMaxima, panels);
  }

  /** One pass over the sorted series: each joins the last panel or opens the next. */
  method Greedy(withMax: seq<Entry>)
      returns (groups: seq<seq<string>>, groupMaxima: seq<real>, ghost panels: seq<seq<Entry>>)
    requires withMax != [] && Descending(Rank, withMax)
    requires forall i :: 0 <= i < |withMax| ==> withMax[i].max >= 0.0
    ensures Built(groups, groupMaxima, panels, withMax)
  {
    groups, groupMaxima, panels := FirstPanel(withMax[0]);
    var k := 1;
    while k < |withMax|
      invariant 1 <= k <= |withMax|
      invariant Built(groups, groupMaxima, panels, withMax[..k])
      invariant withMax[k - 1].max <= groupMaxima[|groupMaxima| - 1]
    {
      assert withMax[k - 1].max >= withMax[k].max;
      groups, groupMaxima, panels := PlaceNext(groups, groupMaxima, withMax[k], panels, withMax[..k]);
      assert withMax[..k + 1] == withMax[..k] + [withMax[k]];
      k := k + 1;
    }
    assert withMax[..k] == withMax;
  }

  method FirstPanel(e: Entry) returns (groups: seq<seq<string>>, groupMaxima: seq<real>, ghost panels: seq<seq<Entry>>)
    requires e.max >= 0.0
    ensures Built(groups, groupMaxima, panels, [e])
    ensures groupMaxima == [e.max]
  {
    groups, groupMaxima, panels := [[e.item]], [e.max], [[e]];
    assert KeysOf(panels[0]) == groups[0];
  }

  method PlaceNext(groups: seq<seq<string>>, groupMaxima: seq<real>, e: Entry,
                   ghost panels: seq<seq<Entry>>, ghost placed: seq<Entry>)
      returns (groups': seq<seq<string>>, groupMaxima': seq<real>, ghost panels': seq<seq<Entry>>)
    requires Built(groups, groupMaxima, panels, placed)
    requires 0.0 <= e.max <= groupMaxima[|groupMaxima| - 1]
    ensures Built(groups', groupMaxima', panels', placed + [e])
    ensures e.max <= groupMaxima'[|groupMaxima'| - 1]
  {
    var currentMax := groupMaxima[|groupMaxima| - 1];
    var splits := (e.max == 0.0 || currentMax == 0.0) && e.max != currentMax;
    if !splits && currentMax != 0.0 {
      splits := currentMax / e.max >= 10.0;
    }
    QuotientIsFactor(currentMax, e.max);
    PlaceKeeps(panels, e, splits);
    PlaceFlattens(panels, e, splits);
    PlaceKeyGroups(panels, e, splits);
    if splits {
      groups' := groups + [[e.item]];
      groupMaxima' := groupMaxima + [e.max];
    } else {
      groups' := groups[..|groups| - 1] + [groups[|groups| - 1] + [e.item]];
      groupMaxima' := groupMaxima;
    }
    panels' := Place(panels, e, splits);
  }

  function Maxima(panels: seq<seq<Entry>>): seq<real>
    requires forall g :: 0 <= g < |panels| ==> panels[g] != []
  {
    seq(|panels|, g requires 0 <= g < |panels| => panels[g][0].max)
  }

  /** The closing sort by panel maximum, which changes nothing. */
  method SortGroups(groups: seq<seq<string>>, groupMaxima: seq<real>, ghost panels: seq<seq<Entry>>)
      returns (sorted: seq<seq<string>>)
    requires Panelled(panels)
    requires groups == KeyGroups(panels) && groupMaxima == Maxima(panels)
    ensures sorted == groups
  {
    var ranked := seq(|groups|, i requires 0 <= i < |groups| => Ranked(groups[i], groupMaxima[i]));
    assert Descending(Rank, ranked);
    DescendingIsSorted(Rank, ranked);
    ranked := SortDescending(Rank, ranked);
    sorted := seq(|ranked|, i requires 0 <= i < |ranked| => ranked[i].item);
  }

  lemma QuotientIsFactor(leader: real, max: real)
    requires leader >= max >= 0.0
    ensures max > 0.0 ==> (leader / max >= 10.0 <==> leader >= 10.0 * max)
  {
    if max > 0.0 {
      assert leader == leader / max * max;
    }
  }

  /** A series that does not fit the last panel fits none before it. */
  lemma OpenPanel(panels: seq<seq<Entry>>, e: Entry)
    requires panels != [] && Panelled(panels)
    requires 0.0 <= e.max <= panels[|panels| - 1][0].max
    requires !Compatible(panels[|panels| - 1][0], e)
    ensures Panelled(panels + [[e]])
  {
    var next := panels + [[e]];
    forall g | 0 <= g < |panels|
      ensures e.max < panels[g][0].max && !Compatible(panels[g][0], e)
    {
      assert panels[g][0].max >= panels[|panels| - 1][0].max;
    }
    assert forall g :: 0 <= g < |panels| ==> next[g] == panels[g];
  }

  lemma {:induction false} InFlatten<T>(groups: seq<seq<T>>, x: T)
    ensures x in Flatten(groups) <==> exists g :: 0 <= g < |groups| && x in groups[g]
  {
    if groups != [] {
      InFlatten(groups[1..], x);
      if x in Flatten(groups[1..]) {
        var g :| 0 <= g < |groups[1..]| && x in groups[1..][g];
        assert groups[g + 1] == groups[1..][g];
      }
      if g :| 0 <= g < |groups| && x in groups[g] {
        assert g > 0 ==> groups[1..][g - 1] == groups[g];
      }
    }
  }

  lemma PanelsAreMinimal(entries: seq<Entry>, panels: seq<seq<Entry>>)
    requires Panelled(panels)
    requires Flatten(panels) == SortDescending(Rank, entries)
    ensures MinimalPanels(entries, panels)
  {
    forall other | Partition(entries, other) && AllCompatible(other)
      ensures |panels| <= |other|
    {
      LeadersNeedTheirOwnPanels(panels, other);
    }
  }

  lemma Home(panels: seq<seq<Entry>>, other: seq<seq<Entry>>, g: nat) returns (h: nat)
    requires g < |panels| && panels[g] != []
    requires multiset(Flatten(other)) == multiset(Flatten(panels))
    ensures h < |other| && panels[g][0] in other[h]
  {
    var leader := panels[g][0];
    InFlatten(panels, leader);
    assert leader in multiset(Flatten(panels));
    assert leader in multiset(Flatten(other));
    InFlatten(other, leader);
    h :| h < |other| && leader in other[h];
  }

  lemma HomesDiffer(panels: seq<seq<Entry>>, other: seq<seq<Entry>>, g: nat, h: nat, hg: nat, hh: nat)
    requires Panelled(panels) && AllCompatible(other)
    requires g < h < |panels|
    requires hg < |other| && panels[g][0] in other[hg]
    requires hh < |other| && panels[h][0] in other[hh]
    ensures hg != hh
  {
    assert !Compatible(panels[g][0], panels[h][0]);
  }

  lemma {:induction false} Homes(panels: seq<seq<Entry>>, other: seq<seq<Entry>>, n: nat) returns (homes: seq<nat>)
    requires n <= |panels|
    requires forall g :: 0 <= g < |panels| ==> panels[g] != []
    requires multiset(Flatten(other)) == multiset(Flatten(panels))
    ensures |homes| == n
    ensures forall g :: 0 <= g < n ==> homes[g] < |other| && panels[g][0] in other[homes[g]]
  {
    if n == 0 {
      homes := [];
    } else {
      homes := Homes(panels, other, n - 1);
      var h := Home(panels, other, n - 1);
      homes := homes + [h];
    }
  }

  /** The leaders are pairwise incompatible, so any partition with the same limits has a
      panel for each of them. */
  lemma LeadersNeedTheirOwnPanels(panels: seq<seq<Entry>>, other: seq<seq<Entry>>)
    requires Panelled(panels)
    requires multiset(Flatten(other)) == multiset(Flatten(panels))
    requires AllCompatible(other)
    ensures |panels| <= |other|
  {
    var homes := Homes(panels, other, |panels|);
    forall g, h | 0 <= g < h < |homes|
      ensures homes[g] != homes[h]
    {
      HomesDiffer(panels, other, g, h, homes[g], homes[h]);
    }
    Pigeonhole(homes, |other|);
  }
}
