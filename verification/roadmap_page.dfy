/**
  The roadmap page (`app/roadmap/page.tsx`): one active phase id, the
  phases marked with it, the milestones of that phase and its caption.
*/
module RoadmapPage {
  import opened Wrappers
  import opened Text
  import opened MainHeader

  datatype Status = Completed | Continue | Start

  /** `Milestone` of `types/milestone.ts` (descriptive texts left out). */
  datatype Milestone = Milestone(title: string, status: Status, duration: string, phaseId: string)

  /** The phases of `data/roadmap-data.ts`. */
  const Phases: seq<Phase> := [
    Phase("self-discovery", "Self Discovery", 1, "atom", false),
    Phase("skill-deepening", "Skill Deepening", 2, "x", true),
    Phase("hands-on", "Hands On", 3, "building", false),
    Phase("networking", "Networking", 4, "wifi", false),
    Phase("career-launch", "Career Launch", 5, "rocket", false)
  ]

  /** The milestones of `data/roadmap-data.ts`. */
  const Milestones: seq<Milestone> := [
    Milestone("Mastering Backend Patterns", Completed, "2-3 Days", "skill-deepening"),
    Milestone("Optimizing Database Design", Continue, "2-3 Days", "skill-deepening"),
    Milestone("Building Scalable APIs", Start, "2-3 Days", "skill-deepening")
  ]

  const InitialPhaseId: string := "skill-deepening"

  /** `phasesWithActive`: each phase, active exactly when its id is the
      active one, and otherwise as given. */
  function WithActive(phases: seq<Phase>, activeId: string): (r: seq<Phase>)
    ensures |r| == |phases|
    ensures forall i :: 0 <= i < |r| ==> (r[i].isActive <==> phases[i].id == activeId)
    ensures forall i :: 0 <= i < |r| ==> r[i].(isActive := phases[i].isActive) == phases[i]
  {
    seq(|phases|, i requires 0 <= i < |phases| => phases[i].(isActive := phases[i].id == activeId))
  }

  /** `milestones.filter(m => m.phaseId === activePhaseId)`. */
  function ActiveMilestones(ms: seq<Milestone>, activeId: string): (r: seq<Milestone>)
    ensures |r| <= |ms|
    ensures forall k :: 0 <= k < |r| ==> r[k].phaseId == activeId && r[k] in ms
    ensures forall m :: m in ms && m.phaseId == activeId ==> m in r
    ensures r == [] <==> forall k :: 0 <= k < |ms| ==> ms[k].phaseId != activeId
  {
    if |ms| == 0 then []
    else
      var rest := ActiveMilestones(ms[1..], activeId);
      assert forall m :: m in ms[1..] ==> m in ms;
      if ms[0].phaseId == activeId then [ms[0]] + rest else rest
  }

  /** The filter keeps the original order: it distributes over
      concatenation. */
  lemma {:induction false} FilterKeepsOrder(a: seq<Milestone>, b: seq<Milestone>, activeId: string)
    ensures ActiveMilestones(a + b, activeId) == ActiveMilestones(a, activeId) + ActiveMilestones(b, activeId)
    decreases |a|
  {
    if |a| > 0 {
      assert (a + b)[1..] == a[1..] + b;
      FilterKeepsOrder(a[1..], b, activeId);
    } else {
      assert a + b == b;
    }
  }

  /** `phases.find(p => p.id === activePhaseId)`: the first phase with that id. */
  function FindPhase(phases: seq<Phase>, activeId: string): (r: Option<nat>)
    ensures r.None? <==> forall i :: 0 <= i < |phases| ==> phases[i].id != activeId
    ensures r.Some? ==> r.value < |phases| && phases[r.value].id == activeId &&
                        forall i :: 0 <= i < r.value ==> phases[i].id != activeId
  {
    if |phases| == 0 then None
    else if phases[0].id == activeId then Some(0)
    else match FindPhase(phases[1..], activeId)
      case None => None
      case Some(i) => Some(i + 1)
  }

  /** `phaseInfo`: `Phase {number} - {name}` of the found phase, or empty. */
  function PhaseInfo(phases: seq<Phase>, activeId: string): (s: string)
    ensures FindPhase(phases, activeId).None? <==> s == ""
    ensures FindPhase(phases, activeId).Some? ==>
      var p := phases[FindPhase(phases, activeId).value];
      s == "Phase " + IntToString(p.number) + " - " + p.name
  {
    match FindPhase(phases, activeId)
    case None => ""
    case Some(i) => "Phase " + IntToString(phases[i].number) + " - " + phases[i].name
  }

  /** What the page passes down for an active phase id. */
  datatype View = View(phases: seq<Phase>, milestones: seq<Milestone>, phaseInfo: string)

  function Render(activeId: string): View {
    View(WithActive(Phases, activeId), ActiveMilestones(Milestones, activeId), PhaseInfo(Phases, activeId))
  }

  /** `handlePhaseClick`: the page's whole state is the active id, so a
      click replaces it and nothing else. */
  function PhaseClick(activeId: string, clicked: string): (r: string)
    ensures r == clicked
  {
    clicked
  }

  lemma PhaseIdsDistinct()
    ensures forall i, j :: 0 <= i < j < |Phases| ==> Phases[i].id != Phases[j].id
  {
  }

  /** Clicking a listed phase marks it, and only it, active and draws
      exactly one indicator under it. */
  lemma ClickMarksOnePhase(activeId: string, k: nat)
    requires k < |Phases|
    ensures var v := Render(PhaseClick(activeId, Phases[k].id));
      (forall i :: 0 <= i < |v.phases| ==> (v.phases[i].isActive <==> i == k)) &&
      Indicators(v.phases, 0) == [k]
  {
    PhaseIdsDistinct();
    var v := Render(Phases[k].id);
    OneIndicatorPerActivePhase(v.phases, k);
  }

  /** The page as first shown: Skill Deepening, its three milestones and
      its caption. */
  lemma InitialView()
    ensures Render(InitialPhaseId).phaseInfo == "Phase 2 - Skill Deepening"
    ensures Render(InitialPhaseId).milestones == Milestones
  {
    var i := FindPhase(Phases, InitialPhaseId);
    assert Phases[0].id != InitialPhaseId;
    assert i == Some(1);
    var p := Phases[1];
    assert IntToString(p.number) == "2";
    assert "Phase " + "2" + " - " + p.name == "Phase 2 - Skill Deepening";
    FilterKeepsAll(Milestones, InitialPhaseId);
  }

  /** The filter keeps a list whose milestones all belong to the phase. */
  lemma {:induction false} FilterKeepsAll(ms: seq<Milestone>, activeId: string)
    requires forall k :: 0 <= k < |ms| ==> ms[k].phaseId == activeId
    ensures ActiveMilestones(ms, activeId) == ms
  {
    if |ms| > 0 {
      FilterKeepsAll(ms[1..], activeId);
    }
  }

  /** An id no phase has gives an empty caption, no active phase and no
      milestones. */
  lemma UnknownIdShowsNothing(activeId: string)
    requires forall i :: 0 <= i < |Phases| ==> Phases[i].id != activeId
    requires forall i :: 0 <= i < |Milestones| ==> Milestones[i].phaseId != activeId
    ensures Render(activeId).phaseInfo == ""
    ensures Render(activeId).milestones == []
    ensures Indicators(Render(activeId).phases, 0) == []
  {
    var v := Render(activeId);
    assert forall i :: 0 <= i < |v.phases| ==> !v.phases[i].isActive;
  }
}
