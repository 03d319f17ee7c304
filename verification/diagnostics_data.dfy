/**
  The wizard's fixed content (`data/diagnostics-data.ts`): five categories,
  one question per category in the same order, and five quotes.
*/
module DiagnosticsData {
  import opened Wrappers
  import opened Diagnostics

  const Categories: seq<Category> := [
    Category("career-snapshot", "Career Snapshot", 1),
    Category("feeling-check", "Feeling Check", 2),
    Category("root-cause-probe", "Root Cause Probe", 3),
    Category("ideal-next-step", "Ideal Next Step", 4),
    Category("readiness-support", "Readiness & Support", 5)
  ]

  const Questions: seq<Question> := [
    Question("q1", "career-snapshot"),
    Question("q2", "feeling-check"),
    Question("q3", "root-cause-probe"),
    Question("q4", "ideal-next-step"),
    Question("q5", "readiness-support")
  ]

  const Quotes: seq<string> := [
    "Your story matters! The more you share, the better we can guide you.",
    "Every expert was once a beginner. Your journey starts with a single step.",
    "The only way to do great work is to love what you do. Let's find your path.",
    "Progress, not perfection. Every answer brings you closer to clarity.",
    "You're not stuck — you're just gathering the tools to move forward."
  ]

  /** Question `k` belongs to category `k`, and the category ids are distinct. */
  lemma DataAligned()
    ensures |Questions| == |Categories| == |Quotes| == 5
    ensures forall k :: 0 <= k < 5 ==> Questions[k].categoryId == Categories[k].id
    ensures forall a, b :: 0 <= a < b < 5 ==> Categories[a].id != Categories[b].id
  {
  }

  /** Clicking category `k` opens question `k`, from any state. */
  lemma ClickOpensMatchingQuestion(w: Wizard, k: nat)
    requires k < 5
    ensures CategoryClick(w, Questions, Categories[k].id) == w.(index := k)
  {
    DataAligned();
    ClickLandsOnCategory(w, Questions, Categories[k].id);
  }

  /** Each question shows its own quote. */
  lemma QuotePerQuestion(w: Wizard)
    requires Valid(w, Questions)
    ensures Quote(Quotes, w.index) == Some(Quotes[w.index])
  {
  }

  /** On mount the first category is the active one. */
  lemma MountedActive()
    ensures var views := UpdatedCategories(Categories, Questions, Start);
      views[0].isActive && forall k :: 1 <= k < 5 ==> !views[k].isActive
  {
    DataAligned();
  }

  /** On mount no category is completed: each has a question, unanswered. */
  lemma MountedNothingCompleted()
    ensures forall k :: 0 <= k < 5 ==> !UpdatedCategories(Categories, Questions, Start)[k].isCompleted
  {
    forall k | 0 <= k < 5 ensures !CategoryCompleted(Questions, map[], Categories[k].id) {
      NotCompletedOnMount(k);
    }
  }

  lemma NotCompletedOnMount(k: nat)
    requires k < 5
    ensures !CategoryCompleted(Questions, map[], Categories[k].id)
  {
    DataAligned();
    CompletedIff(Questions, map[], Categories[k].id);
    assert Questions[k].categoryId == Categories[k].id;
    assert !Answered(map[], Questions[k].id);
  }

  /** On mount Next moves to the second question and submits nothing. */
  lemma MountedNext()
    ensures Next(Start, Questions) == (Start.(index := 1), false)
  {
  }
}
