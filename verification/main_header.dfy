/**
  The phase strip of `components/main-header.tsx`: the phases it is given,
  the width of the track under them and the position of the indicator
  drawn under each active phase.
*/
module MainHeader {

  /** `Phase` of `types/milestone.ts`. */
  datatype Phase = Phase(id: string, name: string, number: int, icon: string, isActive: bool)

  const IconWidth: int := 100
  const Gap: int := 20
  const IndicatorWidth: int := 100

  /** The track's width in pixels for `n` phases: every icon plus the gaps
      between them. */
  function TrackWidth(n: nat): (w: int)
    ensures n >= 1 ==> w == n * IconWidth + (n - 1) * Gap
    ensures n >= 1 ==> w >= IconWidth
  {
    n * 100 + (n - 1) * 20
  }

  /** The indicator's left offset under phase `index`: the phase's centre
      less half the indicator. */
  function IndicatorLeft(index: nat): (left: int)
    ensures left == index * (IconWidth + Gap)
  {
    var phaseCenter := index * (IconWidth + Gap) + IconWidth / 2;
    phaseCenter - IndicatorWidth / 2
  }

  /** Under any phase of the strip, the indicator lies inside the track. */
  lemma IndicatorWithinTrack(index: nat, n: nat)
    requires index < n
    ensures 0 <= IndicatorLeft(index)
    ensures IndicatorLeft(index) + IndicatorWidth <= TrackWidth(n)
  {
  }

  /** Indicators under distinct phases never overlap. */
  lemma IndicatorsDisjoint(i: nat, j: nat)
    requires i < j
    ensures IndicatorLeft(i) + IndicatorWidth <= IndicatorLeft(j)
  {
    assert IndicatorLeft(j) - IndicatorLeft(i) == (j - i) * 120;
  }

  /** The indices of the phases an indicator is drawn under, from `from` on,
      in order. */
  function Indicators(phases: seq<Phase>, from: nat): (r: seq<nat>)
    requires from <= |phases|
    ensures forall k :: 0 <= k < |r| ==> from <= r[k] < |phases| && phases[r[k]].isActive
    ensures forall i :: from <= i < |phases| && phases[i].isActive ==> i in r
    ensures forall k, l :: 0 <= k < l < |r| ==> r[k] < r[l]
    ensures r == [] <==> forall i :: from <= i < |phases| ==> !phases[i].isActive
    decreases |phases| - from
  {
    if from == |phases| then []
    else if phases[from].isActive then [from] + Indicators(phases, from + 1)
    else Indicators(phases, from + 1)
  }

  /** Exactly one indicator is drawn when exactly one phase is active. */
  lemma OneIndicatorPerActivePhase(phases: seq<Phase>, a: nat)
    requires a < |phases| && phases[a].isActive
    requires forall i :: 0 <= i < |phases| && i != a ==> !phases[i].isActive
    ensures Indicators(phases, 0) == [a]
  {
    IndicatorsFrom(phases, a, 0);
  }

  lemma {:induction false} IndicatorsFrom(phases: seq<Phase>, a: nat, from: nat)
    requires a < |phases| && from <= |phases|
    requires forall i :: 0 <= i < |phases| ==> (phases[i].isActive <==> i == a)
    ensures Indicators(phases, from) == if from <= a then [a] else []
    decreases |phases| - from
  {
    if from < |phases| {
      IndicatorsFrom(phases, a, from + 1);
    }
  }
}
