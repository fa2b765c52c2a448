/**
 * `TestMapper`: the view of a test that is sent to the person taking it. Only
 * active questions are shown, in their stored order, and an option shows its
 * id and text only: its weight and category, which decide the score, are
 * never part of the response.
 */
module TestMapper {
  import opened Common
  import opened Entities

  datatype AnswerOptionResponse = AnswerOptionResponse(id: int, optionText: string)

  datatype QuestionResponse = QuestionResponse(
    id: int,
    questionText: string,
    orderNumber: int,
    options: Option<seq<AnswerOptionResponse>>)

  datatype TestResponse = TestResponse(
    id: int,
    name: string,
    description: Option<string>,
    testType: string,
    questionsToShow: int,
    questions: Option<seq<QuestionResponse>>)

  /** `filter(Question::getActive)`: the active questions, in their order. */
  function ActiveQuestions(qs: seq<Question>): (r: seq<Question>)
    ensures |r| <= |qs|
  {
    if qs == [] then []
    else
      var rest := ActiveQuestions(qs[..|qs| - 1]);
      var last := qs[|qs| - 1];
      if last.active then rest + [last] else rest
  }

  /** The filter keeps exactly the active questions. */
  lemma {:induction false} ActiveQuestionsMembers(qs: seq<Question>)
    ensures forall q :: q in ActiveQuestions(qs) <==> q in qs && q.active
  {
    if qs != [] {
      var init := qs[..|qs| - 1];
      ActiveQuestionsMembers(init);
      assert qs == init + [qs[|qs| - 1]];
    }
  }

  /** Filtering distributes over concatenation, so it keeps the relative order of the questions. */
  lemma {:induction false} ActiveQuestionsAppend(a: seq<Question>, b: seq<Question>)
    ensures ActiveQuestions(a + b) == ActiveQuestions(a) + ActiveQuestions(b)
    decreases |b|
  {
    if b == [] {
      assert a + b == a;
    } else {
      var init := b[..|b| - 1];
      ActiveQuestionsAppend(a, init);
      assert (a + b)[..|a + b| - 1] == a + init;
      assert (a + b)[|a + b| - 1] == b[|b| - 1];
    }
  }

  /** `toAnswerOptionResponse` on a present option. */
  function OptionResponse(o: AnswerOption): (r: AnswerOptionResponse)
    ensures r.id == o.id && r.optionText == o.optionText
  {
    AnswerOptionResponse(o.id, o.optionText)
  }

  /** `toAnswerOptionResponse`. */
  function ToAnswerOptionResponse(entity: Option<AnswerOption>): (r: Option<AnswerOptionResponse>)
    ensures r.None? <==> entity.None?
    ensures r.Some? ==> r.value == OptionResponse(entity.value)
  {
    if entity.None? then None else Some(OptionResponse(entity.value))
  }

  function OptionResponses(os: seq<AnswerOption>): (r: seq<AnswerOptionResponse>)
    ensures |r| == |os|
    ensures forall i :: 0 <= i < |os| ==> r[i] == OptionResponse(os[i])
  {
    seq(|os|, i requires 0 <= i < |os| => OptionResponse(os[i]))
  }

  /** `toQuestionResponse` on a present question: its options one-to-one and in order, `null` kept. */
  function QuestionResponseOf(q: Question): (r: QuestionResponse)
    ensures r.id == q.id && r.questionText == q.questionText && r.orderNumber == q.orderNumber
    ensures r.options.None? <==> q.answerOptions.None?
    ensures r.options.Some? ==> r.options.value == OptionResponses(q.answerOptions.value)
  {
    QuestionResponse(q.id, q.questionText, q.orderNumber,
      if q.answerOptions.None? then None else Some(OptionResponses(q.answerOptions.value)))
  }

  /** `toQuestionResponse`. */
  function ToQuestionResponse(entity: Option<Question>): (r: Option<QuestionResponse>)
    ensures r.None? <==> entity.None?
    ensures r.Some? ==> r.value == QuestionResponseOf(entity.value)
  {
    if entity.None? then None else Some(QuestionResponseOf(entity.value))
  }

  function QuestionResponses(qs: seq<Question>): (r: seq<QuestionResponse>)
    ensures |r| == |qs|
    ensures forall i :: 0 <= i < |qs| ==> r[i] == QuestionResponseOf(qs[i])
  {
    seq(|qs|, i requires 0 <= i < |qs| => QuestionResponseOf(qs[i]))
  }

  /** `toResponse`: the test's columns and exactly its active questions, a `null` list kept `null`. */
  function ToResponse(entity: Option<Test>): (r: Option<TestResponse>)
    ensures r.None? <==> entity.None?
    ensures r.Some? ==>
      var t := entity.value;
      r.value.id == t.id && r.value.name == t.name && r.value.description == t.description &&
      r.value.testType == t.testType.name && r.value.questionsToShow == t.questionsToShow &&
      (r.value.questions.None? <==> t.questions.None?) &&
      (r.value.questions.Some? ==> r.value.questions.value == QuestionResponses(ActiveQuestions(t.questions.value)))
  {
    match entity
    case None => None
    case Some(t) =>
      Some(TestResponse(t.id, t.name, t.description, t.testType.name, t.questionsToShow,
        if t.questions.None? then None else Some(QuestionResponses(ActiveQuestions(t.questions.value)))))
  }

  // ---------------------------------------------------- nothing of the scoring shows

  /** An option with its weight and category erased. */
  function Unscored(o: AnswerOption): AnswerOption {
    o.(weightValue := None, category := None)
  }

  function UnscoredQuestion(q: Question): Question {
    q.(answerOptions :=
      if q.answerOptions.None? then None
      else Some(seq(|q.answerOptions.value|, i requires 0 <= i < |q.answerOptions.value| =>
        Unscored(q.answerOptions.value[i]))))
  }

  function UnscoredQuestions(qs: seq<Question>): (r: seq<Question>)
    ensures |r| == |qs| && forall i :: 0 <= i < |qs| ==> r[i] == UnscoredQuestion(qs[i])
  {
    seq(|qs|, i requires 0 <= i < |qs| => UnscoredQuestion(qs[i]))
  }

  /** A test with every option's weight and category erased. */
  function UnscoredTest(t: Test): Test {
    t.(questions := if t.questions.None? then None else Some(UnscoredQuestions(t.questions.value)))
  }

  lemma QuestionResponsesAppend(s: seq<Question>, q: Question)
    ensures QuestionResponses(s + [q]) == QuestionResponses(s) + [QuestionResponseOf(q)]
  {
    assert forall i :: 0 <= i < |s| ==> (s + [q])[i] == s[i];
  }

  /**
   * Two question lists that agree, position by position, on the `active` flag
   * and on the response of each question have the same filtered responses.
   */
  lemma {:induction false} SameResponses(a: seq<Question>, b: seq<Question>)
    requires |a| == |b|
    requires forall i :: 0 <= i < |a| ==> a[i].active == b[i].active
    requires forall i :: 0 <= i < |a| ==> QuestionResponseOf(a[i]) == QuestionResponseOf(b[i])
    ensures QuestionResponses(ActiveQuestions(a)) == QuestionResponses(ActiveQuestions(b))
  {
    if a != [] {
      var n := |a| - 1;
      var a', b' := a[..n], b[..n];
      assert forall i :: 0 <= i < n ==> a'[i] == a[i] && b'[i] == b[i];
      SameResponses(a', b');
      if a[n].active {
        QuestionResponsesAppend(ActiveQuestions(a'), a[n]);
        QuestionResponsesAppend(ActiveQuestions(b'), b[n]);
      }
    }
  }

  /**
   * The response does not depend on any option's weight or category: erasing
   * them all leaves the response unchanged.
   */
  lemma ResponseHidesScoring(t: Test)
    ensures ToResponse(Some(UnscoredTest(t))) == ToResponse(Some(t))
  {
    if t.questions.Some? {
      var qs := t.questions.value;
      var us := UnscoredQuestions(qs);
      forall i | 0 <= i < |qs|
        ensures QuestionResponseOf(us[i]) == QuestionResponseOf(qs[i])
      {
        var q := qs[i];
        if q.answerOptions.Some? {
          assert OptionResponses(us[i].answerOptions.value) == OptionResponses(q.answerOptions.value);
        }
      }
      SameResponses(us, qs);
    }
  }
}
