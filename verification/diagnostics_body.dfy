/**
  The wizard's view rules (`components/diagnostics-body.tsx`): which
  navigation buttons appear, when Next is disabled, its label, and how a
  category row is styled.
*/
module DiagnosticsBody {
  import Diagnostics

  /** The navigation controls the body renders. */
  datatype Controls = Controls(showPrev: bool, nextDisabled: bool, nextLabel: string, nextTitle: string, showSidebar: bool)

  /** The three looks of a category row, from the most to the least prominent. */
  datatype Tone = ActiveTone | CompletedTone | IdleTone

  datatype CategoryLook = CategoryLook(tone: Tone, checkmark: bool)

  const SubmitLabel: string := "Submit Info →"
  const NextLabel: string := "Next →"

  predicate IsLastQuestion(index: int, total: int) {
    index == total - 1
  }

  /** The controls for the given position; the sidebar is hidden in the follow-up section. */
  function RenderControls(index: int, total: int, canSubmit: bool, followup: bool): (c: Controls)
    ensures c.showPrev <==> index > 0
    ensures c.nextDisabled <==> IsLastQuestion(index, total) && !canSubmit
    ensures c.nextLabel == SubmitLabel <==> IsLastQuestion(index, total)
    ensures c.nextLabel == NextLabel <==> !IsLastQuestion(index, total)
    ensures c.showSidebar <==> !followup
  {
    var last := IsLastQuestion(index, total);
    Controls(index > 0,
             last && !canSubmit,
             if last then SubmitLabel else NextLabel,
             if last then "Submit (Enter key)" else "Next question (→ Arrow key)",
             !followup)
  }

  /** `CategoryItem`: the active look wins over the completed one; the check
      mark follows completion alone. */
  function CategoryItem(view: Diagnostics.CategoryView): (l: CategoryLook)
    ensures l.checkmark <==> view.isCompleted
    ensures l.tone == ActiveTone <==> view.isActive
    ensures l.tone == CompletedTone <==> !view.isActive && view.isCompleted
    ensures l.tone == IdleTone <==> !view.isActive && !view.isCompleted
  {
    var tone := if view.isActive then ActiveTone
                else if view.isCompleted then CompletedTone
                else IdleTone;
    CategoryLook(tone, view.isCompleted)
  }

  /** The controls the page passes in for a wizard state. */
  function PageControls(w: Diagnostics.Wizard, questions: seq<Diagnostics.Question>): Controls {
    RenderControls(w.index, |questions|, Diagnostics.AllAnswered(questions, w.answers), false)
  }

  /** Prev is shown exactly when pressing it moves the wizard. */
  lemma PrevShownIffItMoves(w: Diagnostics.Wizard, questions: seq<Diagnostics.Question>)
    ensures PageControls(w, questions).showPrev <==> Diagnostics.Previous(w) != w
  {
  }

  /** On a valid state, the Next button reads "Submit Info →" exactly when
      pressing it leaves the wizard where it is, and it is enabled exactly
      when pressing it either moves forward or submits. */
  lemma NextControlsMatchHandler(w: Diagnostics.Wizard, questions: seq<Diagnostics.Question>)
    requires Diagnostics.Valid(w, questions)
    ensures PageControls(w, questions).nextLabel == SubmitLabel <==> Diagnostics.Next(w, questions).0 == w
    ensures !PageControls(w, questions).nextDisabled <==>
      Diagnostics.Next(w, questions).0 != w || Diagnostics.Next(w, questions).1
  {
  }

  /** A row that is both active and completed keeps the active look and
      still shows the check mark. */
  lemma CategoryLooksExclusive(view: Diagnostics.CategoryView)
    ensures view.isActive && view.isCompleted ==>
      CategoryItem(view) == CategoryLook(ActiveTone, true)
  {
  }
}
