/**
  The diagnostic wizard (`app/diagnostics/page.tsx`): an index over a fixed
  question list, a map of answers keyed by question id, the per-category
  completion and active flags derived from them, and the bounded
  previous / next / jump moves.
*/
module Diagnostics {
  import opened Wrappers
  import opened Text

  datatype Question = Question(id: string, categoryId: string)

  datatype Category = Category(id: string, name: string, order: int)

  /** A category as handed to the sidebar, with its derived flags. */
  datatype CategoryView = CategoryView(category: Category, isCompleted: bool, isActive: bool)

  /** The page's state: the current question index and the answers so far. */
  datatype Wizard = Wizard(index: nat, answers: map<string, string>)

  /** The state the page mounts with. */
  const Start: Wizard := Wizard(0, map[])

  /** The index names a question of the list. */
  predicate Valid(w: Wizard, questions: seq<Question>) {
    w.index < |questions|
  }

  /** `answers[id] && answers[id].trim() !== ''`. */
  predicate Answered(answers: map<string, string>, id: string) {
    id in answers && Trim(answers[id]) != ""
  }

  /** `questions.every(q => answered)`, scanning left to right. */
  function AllAnswered(questions: seq<Question>, answers: map<string, string>): (b: bool)
    ensures b <==> forall i :: 0 <= i < |questions| ==> Answered(answers, questions[i].id)
  {
    if |questions| == 0 then true
    else if !Answered(answers, questions[0].id) then false
    else
      var rest := AllAnswered(questions[1..], answers);
      AnsweredTail(questions, answers);
      rest
  }

  /** Every question is answered exactly when the first one is and every
      later one is. */
  lemma AnsweredTail(questions: seq<Question>, answers: map<string, string>)
    requires |questions| > 0
    ensures (forall i :: 0 <= i < |questions| ==> Answered(answers, questions[i].id)) <==>
      Answered(answers, questions[0].id) &&
      forall i :: 0 <= i < |questions[1..]| ==> Answered(answers, questions[1..][i].id)
  {
    assert forall i :: 1 <= i < |questions| ==> questions[i] == questions[1..][i - 1];
  }

  /** `questions.filter(q => q.categoryId === categoryId)`. */
  function CategoryQuestions(questions: seq<Question>, categoryId: string): (r: seq<Question>)
    ensures forall q :: q in r <==> q in questions && q.categoryId == categoryId
    ensures |r| <= |questions|
  {
    if |questions| == 0 then []
    else
      var rest := CategoryQuestions(questions[1..], categoryId);
      assert forall q :: q in questions <==> q == questions[0] || q in questions[1..];
      if questions[0].categoryId == categoryId then [questions[0]] + rest else rest
  }

  /** A category is completed when all of its questions are answered. */
  predicate CategoryCompleted(questions: seq<Question>, answers: map<string, string>, categoryId: string) {
    AllAnswered(CategoryQuestions(questions, categoryId), answers)
  }

  /** `updatedCategories`: the static categories with their derived flags. */
  function UpdatedCategories(categories: seq<Category>, questions: seq<Question>, w: Wizard): (r: seq<CategoryView>)
    requires Valid(w, questions)
    ensures |r| == |categories|
    ensures forall i :: 0 <= i < |r| ==> r[i].category == categories[i]
    ensures forall i :: 0 <= i < |r| ==>
      r[i].isCompleted == CategoryCompleted(questions, w.answers, categories[i].id)
    ensures forall i :: 0 <= i < |r| ==>
      (r[i].isActive <==> questions[w.index].categoryId == categories[i].id)
  {
    seq(|categories|, i requires 0 <= i < |categories| =>
      CategoryView(categories[i],
                   CategoryCompleted(questions, w.answers, categories[i].id),
                   questions[w.index].categoryId == categories[i].id))
  }

  /** The textarea's value: `answers[currentQuestion.id] || ''`. */
  function CurrentAnswer(w: Wizard, questions: seq<Question>): (a: string)
    requires Valid(w, questions)
    ensures questions[w.index].id in w.answers ==> a == w.answers[questions[w.index].id]
    ensures questions[w.index].id !in w.answers ==> a == ""
  {
    var id := questions[w.index].id;
    if id in w.answers then w.answers[id] else ""
  }

  /** `emotionalQuotes[index % emotionalQuotes.length]`; an empty list yields nothing. */
  function Quote(quotes: seq<string>, index: nat): (q: Option<string>)
    ensures |quotes| == 0 <==> q.None?
    ensures q.Some? ==> q.value in quotes
  {
    if |quotes| == 0 then None else Some(quotes[index % |quotes|])
  }

  /** `handleAnswerChange`: records the answer under the current question's id. */
  function AnswerChange(w: Wizard, questions: seq<Question>, answer: string): (r: Wizard)
    requires Valid(w, questions)
    ensures r.index == w.index
    ensures questions[w.index].id in r.answers && r.answers[questions[w.index].id] == answer
    ensures r.answers.Keys == w.answers.Keys + {questions[w.index].id}
    ensures forall id :: id in w.answers && id != questions[w.index].id ==> r.answers[id] == w.answers[id]
  {
    w.(answers := w.answers[questions[w.index].id := answer])
  }

  /** `handlePrevious`: steps back unless on the first question. */
  function Previous(w: Wizard): (r: Wizard)
    ensures r.answers == w.answers
    ensures w.index > 0 ==> r.index + 1 == w.index
    ensures w.index == 0 ==> r == w
  {
    if w.index > 0 then w.(index := w.index - 1) else w
  }

  /** `handleNext`: steps forward unless on the last question; on the last
      question it only reports whether the answers would be submitted. */
  function Next(w: Wizard, questions: seq<Question>): (r: (Wizard, bool))
    ensures r.0.answers == w.answers
    ensures w.index + 1 < |questions| ==> r.0.index == w.index + 1 && !r.1
    ensures w.index + 1 >= |questions| ==> r.0 == w && (r.1 <==> AllAnswered(questions, w.answers))
  {
    if w.index < |questions| - 1 then (w.(index := w.index + 1), false)
    else (w, AllAnswered(questions, w.answers))
  }

  /** `findIndex(q => q.categoryId === categoryId)`. */
  function FindCategory(questions: seq<Question>, categoryId: string): (r: Option<nat>)
    ensures r.Some? ==> r.value < |questions| && questions[r.value].categoryId == categoryId
    ensures r.Some? ==> forall j :: 0 <= j < r.value ==> questions[j].categoryId != categoryId
    ensures r.None? <==> forall j :: 0 <= j < |questions| ==> questions[j].categoryId != categoryId
  {
    if |questions| == 0 then None
    else if questions[0].categoryId == categoryId then Some(0)
    else
      match FindCategory(questions[1..], categoryId)
      case None =>
        assert forall j :: 1 <= j < |questions| ==> questions[j] == questions[1..][j - 1];
        None
      case Some(k) =>
        assert forall j :: 1 <= j <= k + 1 ==> questions[j] == questions[1..][j - 1];
        Some(k + 1)
  }

  /** `handleCategoryClick`: jumps to the category's first question, if any. */
  function CategoryClick(w: Wizard, questions: seq<Question>, categoryId: string): (r: Wizard)
    ensures r.answers == w.answers
  {
    match FindCategory(questions, categoryId)
    case Some(i) => w.(index := i)
    case None => w
  }

  /** The user actions the page reacts to. */
  datatype Move = Answer(text: string) | Prev | Forward | Click(categoryId: string)

  function Step(w: Wizard, questions: seq<Question>, m: Move): Wizard
    requires Valid(w, questions)
  {
    match m
    case Answer(text) => AnswerChange(w, questions, text)
    case Prev => Previous(w)
    case Forward => Next(w, questions).0
    case Click(c) => CategoryClick(w, questions, c)
  }

  function Run(w: Wizard, questions: seq<Question>, moves: seq<Move>): Wizard
    requires Valid(w, questions)
    decreases |moves|
  {
    if |moves| == 0 then w
    else
      var w' := Step(w, questions, moves[0]);
      StepKeepsValid(w, questions, moves[0]);
      Run(w', questions, moves[1..])
  }

  /** Each move keeps the index inside the question list. */
  lemma StepKeepsValid(w: Wizard, questions: seq<Question>, m: Move)
    requires Valid(w, questions)
    ensures Valid(Step(w, questions, m), questions)
  {
    match m
    case Click(c) =>
      var r := FindCategory(questions, c);
    case _ =>
  }

  /** From the mounted state, the index stays in `[0, n-1]` whatever the user does. */
  lemma {:induction false} RunKeepsValid(w: Wizard, questions: seq<Question>, moves: seq<Move>)
    requires Valid(w, questions)
    ensures Valid(Run(w, questions, moves), questions)
    decreases |moves|
  {
    if |moves| > 0 {
      StepKeepsValid(w, questions, moves[0]);
      RunKeepsValid(Step(w, questions, moves[0]), questions, moves[1..]);
    }
  }

  /** Navigation never touches the answers: only answer edits do. */
  lemma {:induction false} OnlyEditsChangeAnswers(w: Wizard, questions: seq<Question>, moves: seq<Move>)
    requires Valid(w, questions)
    requires forall i :: 0 <= i < |moves| ==> !moves[i].Answer?
    ensures Run(w, questions, moves).answers == w.answers
    decreases |moves|
  {
    if |moves| > 0 {
      StepKeepsValid(w, questions, moves[0]);
      OnlyEditsChangeAnswers(Step(w, questions, moves[0]), questions, moves[1..]);
    }
  }

  /** Previous undoes Next away from the last question, and Next undoes
      Previous away from the first. */
  lemma PreviousNextInverse(w: Wizard, questions: seq<Question>)
    requires Valid(w, questions)
    ensures w.index + 1 < |questions| ==> Previous(Next(w, questions).0) == w
    ensures w.index > 0 ==> Next(Previous(w), questions).0 == w
  {
  }

  /** The quote cycles through the list with period `|quotes|`. */
  lemma QuoteCycles(quotes: seq<string>, index: nat)
    ensures Quote(quotes, index + |quotes|) == Quote(quotes, index)
    ensures index < |quotes| ==> Quote(quotes, index) == Some(quotes[index])
  {
    if |quotes| > 0 {
      ModAddPeriod(index, |quotes|);
    }
  }

  lemma ModAddPeriod(a: nat, n: nat)
    requires n > 0
    ensures (a + n) % n == a % n
  {
    var q, r := a / n, a % n;
    assert a + n == (q + 1) * n + r;
    ModUnique(a + n, n, q + 1, r);
  }

  /** The remainder is determined by any quotient/remainder decomposition. */
  lemma ModUnique(x: nat, n: nat, q: int, r: int)
    requires n > 0 && 0 <= r < n && x == q * n + r
    ensures x % n == r
  {
    var q', r' := x / n, x % n;
    assert (q - q') * n == r' - r;
    // Split on the sign of the quotient difference; only zero fits.
    if q - q' >= 1 {
    } else if q - q' <= -1 {
    }
  }

  /** A click lands on the first question of the clicked category, and a
      category with no question leaves the index where it was. */
  lemma ClickLandsOnCategory(w: Wizard, questions: seq<Question>, categoryId: string)
    ensures var r := CategoryClick(w, questions, categoryId);
      (exists j :: 0 <= j < |questions| && questions[j].categoryId == categoryId) ==>
        r.index < |questions| && questions[r.index].categoryId == categoryId &&
        forall j :: 0 <= j < r.index ==> questions[j].categoryId != categoryId
    ensures (forall j :: 0 <= j < |questions| ==> questions[j].categoryId != categoryId) ==>
      CategoryClick(w, questions, categoryId) == w
  {
  }

  /** A category is completed exactly when each of its questions is answered;
      a category without questions is completed from the start. */
  lemma CompletedIff(questions: seq<Question>, answers: map<string, string>, categoryId: string)
    ensures CategoryCompleted(questions, answers, categoryId) <==>
      forall i :: 0 <= i < |questions| && questions[i].categoryId == categoryId ==> Answered(answers, questions[i].id)
    ensures (forall i :: 0 <= i < |questions| ==> questions[i].categoryId != categoryId) ==>
      CategoryCompleted(questions, answers, categoryId)
  {
    if CategoryCompleted(questions, answers, categoryId) {
      CompletedAnswersEach(questions, answers, categoryId);
    }
    if forall i :: 0 <= i < |questions| && questions[i].categoryId == categoryId ==> Answered(answers, questions[i].id) {
      EachAnsweredCompletes(questions, answers, categoryId);
    }
  }

  lemma CompletedAnswersEach(questions: seq<Question>, answers: map<string, string>, categoryId: string)
    requires CategoryCompleted(questions, answers, categoryId)
    ensures forall i :: 0 <= i < |questions| && questions[i].categoryId == categoryId ==> Answered(answers, questions[i].id)
  {
    var cq := CategoryQuestions(questions, categoryId);
    forall i | 0 <= i < |questions| && questions[i].categoryId == categoryId
      ensures Answered(answers, questions[i].id)
    {
      var q := questions[i];
      assert q in cq;
      var k :| 0 <= k < |cq| && cq[k] == q;
    }
  }

  lemma EachAnsweredCompletes(questions: seq<Question>, answers: map<string, string>, categoryId: string)
    requires forall i :: 0 <= i < |questions| && questions[i].categoryId == categoryId ==> Answered(answers, questions[i].id)
    ensures CategoryCompleted(questions, answers, categoryId)
  {
    var cq := CategoryQuestions(questions, categoryId);
    forall k | 0 <= k < |cq| ensures Answered(answers, cq[k].id) {
      var q := cq[k];
      assert q in questions;
      var i :| 0 <= i < |questions| && questions[i] == q;
    }
  }

  /** When every question belongs to a listed category, the submit condition
      holds exactly when every category in the sidebar is completed. */
  lemma AllAnsweredIffAllCompleted(categories: seq<Category>, questions: seq<Question>, w: Wizard)
    requires Valid(w, questions)
    requires forall i :: 0 <= i < |questions| ==> exists k :: 0 <= k < |categories| && categories[k].id == questions[i].categoryId
    ensures AllAnswered(questions, w.answers) <==>
      forall k :: 0 <= k < |categories| ==> UpdatedCategories(categories, questions, w)[k].isCompleted
  {
    var views := UpdatedCategories(categories, questions, w);
    if AllAnswered(questions, w.answers) {
      forall k | 0 <= k < |categories| ensures views[k].isCompleted {
        EachAnsweredCompletes(questions, w.answers, categories[k].id);
      }
    }
    if forall k :: 0 <= k < |categories| ==> views[k].isCompleted {
      forall i | 0 <= i < |questions| ensures Answered(w.answers, questions[i].id) {
        var k :| 0 <= k < |categories| && categories[k].id == questions[i].categoryId;
        assert CategoryCompleted(questions, w.answers, categories[k].id);
        CompletedAnswersEach(questions, w.answers, categories[k].id);
      }
    }
  }

  /** With distinct category ids, at most one category is active, and the
      current question's category is it when listed. */
  lemma OneActiveCategory(categories: seq<Category>, questions: seq<Question>, w: Wizard)
    requires Valid(w, questions)
    requires forall a, b :: 0 <= a < b < |categories| ==> categories[a].id != categories[b].id
    ensures var views := UpdatedCategories(categories, questions, w);
      forall a, b :: 0 <= a < |views| && 0 <= b < |views| && views[a].isActive && views[b].isActive ==> a == b
    ensures var views := UpdatedCategories(categories, questions, w);
      forall k :: 0 <= k < |categories| && categories[k].id == questions[w.index].categoryId ==> views[k].isActive
  {
  }
}
