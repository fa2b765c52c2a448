/**
 * `EvaluationServiceImpl`: the three submit operations, the history and the
 * detail queries, over the tables the service reads and writes.
 *
 * The tables are fields of `EvaluationService`. Tables that are only looked
 * up by id (tests, questions, answer options) are maps; tables the service
 * appends to are sequences whose generated ids are positions plus one. A
 * submit runs in one transaction: when any step throws, nothing it wrote
 * survives, so the model checks and resolves everything first and writes only
 * once nothing can fail. The user directory, the clock and the text-analysis
 * service are parameters; `keyOrder` stands for the iteration order `HashMap`
 * gives a key set.
 */
module Evaluations {
  import opened Common
  import opened Entities
  import Decimal
  import Ranking
  import Vocational
  import Cognitive
  import Personality

  const PersonalityKind: string := "personality"
  const VocationalKind: string := "vocational_interests"
  const CognitiveKind: string := "cognitive_skills"

  /** `EvaluationResultResponse`: the saved evaluation and its result data. */
  datatype ResultResponse = ResultResponse(
    evaluationId: int,
    testName: string,
    testType: string,
    completionDate: int,
    totalScore: Option<int>,
    resultDetails: Option<StoredResult>)

  /** `EvaluationHistoryResponse`. */
  datatype HistoryEntry = HistoryEntry(
    id: int,
    testName: string,
    testType: string,
    completionDate: int,
    totalScore: Option<int>)

  /** `UserAnswerDetail`. */
  datatype AnswerDetail = AnswerDetail(
    questionId: int,
    questionText: string,
    selectedOptionId: int,
    selectedOptionText: string,
    category: Option<string>,
    weightValue: Option<int>)

  /** `EvaluationDetailResponse`; `analysisResult` is null when the stored text does not parse. */
  datatype EvaluationDetail = EvaluationDetail(
    evaluationId: int,
    testName: string,
    testType: string,
    completionDate: int,
    totalScore: Option<int>,
    answers: seq<AnswerDetail>,
    analysisResult: Option<ResultArtifact>)

  // ------------------------------------------------- errors

  /** The errors the submits, the history and the evaluation lookup raise. */
  const UserNotFound := IllegalArgument("User not found")
  const TestNotFound := EntityNotFound("Test not found")
  const InvalidTestType := IllegalArgument("Invalid test type")
  const Unanswered := IllegalArgument("All questions must be answered")
  const QuestionNotFound := EntityNotFound("Question not found")
  const OptionNotFound := EntityNotFound("Answer option not found")
  const NullOptionList := Runtime("NullPointerException")
  const NoHistory := IllegalArgument("There is no review history for this user.")
  const EvaluationNotFound := EntityNotFound("Evaluation not found")
  const NotOwner := IllegalArgument("This evaluation does not belong to the user")

  // ------------------------------------------------- request checks

  /**
   * The checks every submit makes before it writes anything, in the order it
   * makes them: the user exists, the test exists, the test is of the
   * operation's kind, and there is one answer per question shown.
   */
  function CheckRequest(tests: map<int, Test>, userExists: bool, request: SubmitTestRequest, kind: string)
    : (r: Result<Test>)
    ensures r.Ok? <==>
      userExists && request.testId in tests &&
      tests[request.testId].testType.name == kind &&
      |request.answers| == tests[request.testId].questionsToShow
    ensures r.Ok? ==> r.value == tests[request.testId]
    ensures !userExists ==> r == Err(UserNotFound)
    ensures userExists && request.testId !in tests ==> r == Err(TestNotFound)
  {
    if !userExists then Err(UserNotFound)
    else if request.testId !in tests then Err(TestNotFound)
    else
      var test := tests[request.testId];
      if test.testType.name != kind then Err(InvalidTestType)
      else if |request.answers| != test.questionsToShow then Err(Unanswered)
      else Ok(test)
  }

  // ------------------------------------------------- answer resolution

  /**
   * One answer of the request: its question, then its option, are looked up;
   * the cognitive submit then reads the question's option list, which throws
   * when the list is null and the option counts.
   */
  function Step(req: UserAnswerRequest, questions: map<int, Question>, options: map<int, AnswerOption>,
                readsOptionList: bool): Result<Answered>
  {
    if req.questionId !in questions then Err(QuestionNotFound)
    else if req.optionId !in options then Err(OptionNotFound)
    else
      var a := Answered(questions[req.questionId], options[req.optionId]);
      if readsOptionList && Cognitive.Counts(a) && a.question.answerOptions.None? then
        Err(NullOptionList)
      else Ok(a)
  }

  /** Every answer of the request resolves. */
  predicate AllResolve(reqs: seq<UserAnswerRequest>, questions: map<int, Question>,
                       options: map<int, AnswerOption>, readsOptionList: bool)
  {
    forall i :: 0 <= i < |reqs| ==> Step(reqs[i], questions, options, readsOptionList).Ok?
  }

  /** Answer `i` is the first one of the request that does not resolve. */
  predicate FirstFailure(reqs: seq<UserAnswerRequest>, i: int, questions: map<int, Question>,
                         options: map<int, AnswerOption>, readsOptionList: bool)
  {
    0 <= i < |reqs| && Step(reqs[i], questions, options, readsOptionList).Err? &&
    forall j :: 0 <= j < i ==> Step(reqs[j], questions, options, readsOptionList).Ok?
  }

  /** All answers of a request, resolved in request order; the first failure stops the loop. */
  function ResolveAll(reqs: seq<UserAnswerRequest>, questions: map<int, Question>,
                      options: map<int, AnswerOption>, readsOptionList: bool): Result<seq<Answered>>
  {
    if reqs == [] then Ok([])
    else
      var prefix := ResolveAll(reqs[..|reqs| - 1], questions, options, readsOptionList);
      if prefix.Err? then Err(prefix.error)
      else
        var last := Step(reqs[|reqs| - 1], questions, options, readsOptionList);
        if last.Err? then Err(last.error) else Ok(prefix.value + [last.value])
  }

  /**
   * Resolution succeeds exactly when every answer resolves, and then yields
   * each answer's question and option in request order.
   */
  lemma {:induction false} ResolveAllSpec(reqs: seq<UserAnswerRequest>, questions: map<int, Question>,
                                          options: map<int, AnswerOption>, readsOptionList: bool)
    ensures var r := ResolveAll(reqs, questions, options, readsOptionList);
      r.Ok? <==> AllResolve(reqs, questions, options, readsOptionList)
    ensures var r := ResolveAll(reqs, questions, options, readsOptionList);
      r.Ok? ==> (|r.value| == |reqs| &&
        forall i :: 0 <= i < |reqs| ==> Step(reqs[i], questions, options, readsOptionList) == Ok(r.value[i]))
  {
    if reqs != [] {
      var n := |reqs| - 1;
      var init := reqs[..n];
      ResolveAllSpec(init, questions, options, readsOptionList);
      assert forall i :: 0 <= i < n ==> init[i] == reqs[i];
    }
  }

  /** Resolution fails with the error of the first answer that does not resolve. */
  lemma {:induction false} ResolveAllStops(reqs: seq<UserAnswerRequest>, i: int, questions: map<int, Question>,
                                           options: map<int, AnswerOption>, readsOptionList: bool)
    requires FirstFailure(reqs, i, questions, options, readsOptionList)
    ensures ResolveAll(reqs, questions, options, readsOptionList) ==
      Err(Step(reqs[i], questions, options, readsOptionList).error)
  {
    var n := |reqs| - 1;
    var init := reqs[..n];
    assert forall j :: 0 <= j < n ==> init[j] == reqs[j];
    if i < n {
      assert FirstFailure(init, i, questions, options, readsOptionList);
      ResolveAllStops(init, i, questions, options, readsOptionList);
    } else {
      ResolveAllSpec(init, questions, options, readsOptionList);
    }
  }

  /** Resolution yields the answers each request entry resolves to, when all of them do. */
  lemma ResolveAllSucceeds(reqs: seq<UserAnswerRequest>, answers: seq<Answered>, questions: map<int, Question>,
                           options: map<int, AnswerOption>, readsOptionList: bool)
    requires |answers| == |reqs|
    requires forall j :: 0 <= j < |reqs| ==> Step(reqs[j], questions, options, readsOptionList) == Ok(answers[j])
    ensures ResolveAll(reqs, questions, options, readsOptionList) == Ok(answers)
  {
    ResolveAllSpec(reqs, questions, options, readsOptionList);
    assert ResolveAll(reqs, questions, options, readsOptionList).value == answers;
  }

  /** The chosen options, in answer order. */
  function Chosen(answers: seq<Answered>): (r: seq<AnswerOption>)
    ensures |r| == |answers| && forall i :: 0 <= i < |answers| ==> r[i] == answers[i].option
  {
    seq(|answers|, i requires 0 <= i < |answers| => answers[i].option)
  }

  /** The `user_answers` rows a submit saves for evaluation `evaluationId`. */
  function AnswerRows(evaluationId: int, answers: seq<Answered>): (r: seq<UserAnswer>)
    ensures |r| == |answers|
    ensures forall i :: 0 <= i < |answers| ==>
      r[i] == UserAnswer(evaluationId, answers[i].question, answers[i].option)
  {
    seq(|answers|, i requires 0 <= i < |answers| =>
      UserAnswer(evaluationId, answers[i].question, answers[i].option))
  }

  /** The key a personality answer is stored under: "Q" and the question id. */
  function ResponseKey(q: Question): string {
    KeyPrefix + IntToString(q.id)
  }

  const KeyPrefix := "Q"

  /**
   * Option text by the question's key under `key`; a later answer to a
   * question replaces an earlier one.
   */
  function ResponsesBy(answers: seq<Answered>, key: Question -> string): map<string, string> {
    if answers == [] then map[]
    else
      var last := answers[|answers| - 1];
      ResponsesBy(answers[..|answers| - 1], key)[key(last.question) := last.option.optionText]
  }

  /** `responses`: option text by `ResponseKey`. */
  function Responses(answers: seq<Answered>): map<string, string> {
    ResponsesBy(answers, ResponseKey)
  }

  /** One more answer records its option text under its question's key. */
  lemma ResponsesStep(answers: seq<Answered>, a: Answered, key: Question -> string, m: map<string, string>)
    requires m == ResponsesBy(answers, key)
    ensures m[key(a.question) := a.option.optionText] == ResponsesBy(answers + [a], key)
  {
    assert (answers + [a])[..|answers|] == answers;
  }

  /** Every answered question has its key among the responses. */
  lemma {:induction false} ResponsesCoverAnswers(answers: seq<Answered>, key: Question -> string)
    ensures forall i :: 0 <= i < |answers| ==> key(answers[i].question) in ResponsesBy(answers, key)
  {
    if answers != [] {
      var n := |answers| - 1;
      var init := answers[..n];
      ResponsesCoverAnswers(init, key);
      forall i | 0 <= i < n
        ensures key(answers[i].question) in ResponsesBy(answers, key)
      {
        assert answers[i] == init[i];
      }
    }
  }

  /** Every key of the responses belongs to an answered question. */
  lemma {:induction false} ResponsesOnlyAnswers(answers: seq<Answered>, key: Question -> string)
    ensures forall k :: k in ResponsesBy(answers, key) ==>
      exists i :: 0 <= i < |answers| && key(answers[i].question) == k
  {
    if answers != [] {
      var n := |answers| - 1;
      var init := answers[..n];
      ResponsesOnlyAnswers(init, key);
      forall k | k in ResponsesBy(answers, key)
        ensures exists i :: 0 <= i < |answers| && key(answers[i].question) == k
      {
        if k != key(answers[n].question) {
          assert k in ResponsesBy(init, key);
          var i :| 0 <= i < |init| && key(init[i].question) == k;
          assert answers[i] == init[i];
        }
      }
    }
  }

  /**
   * The keys of `responses` are exactly the keys of the answered questions:
   * one per answered question, and none besides.
   */
  lemma ResponsesKeys(answers: seq<Answered>)
    ensures forall i :: 0 <= i < |answers| ==> ResponseKey(answers[i].question) in Responses(answers)
    ensures forall k :: k in Responses(answers) ==>
      exists i :: 0 <= i < |answers| && ResponseKey(answers[i].question) == k
  {
    ResponsesCoverAnswers(answers, ResponseKey);
    ResponsesOnlyAnswers(answers, ResponseKey);
  }

  // ------------------------------------------------- average of the dimensions

  /** A value of the stored "dimensions" map: a number, or something else. */
  datatype DimensionValue = Number(hundredths: int) | NotANumber

  /** The analysis map as `calculateAverageScore` reads it: its "dimensions" entry, if any. */
  datatype AnalysisView = AnalysisView(dimensions: Option<seq<DimensionValue>>)

  function NumberOrZero(v: DimensionValue): int {
    if v.Number? then v.hundredths else 0
  }

  function Numbers(values: seq<DimensionValue>): (r: seq<int>)
    ensures |r| == |values| && forall i :: 0 <= i < |values| ==> r[i] == NumberOrZero(values[i])
  {
    seq(|values|, i requires 0 <= i < |values| => NumberOrZero(values[i]))
  }

  /**
   * `calculateAverageScore`: 0 for a null analysis, a missing or an empty
   * "dimensions" map; otherwise the mean of the values rounded half-up to two
   * decimals, a value that is not a number counting as 0.
   */
  function CalculateAverageScore(analysis: Option<AnalysisView>): int {
    if analysis.None? || analysis.value.dimensions.None? || analysis.value.dimensions.value == [] then 0
    else
      var values := analysis.value.dimensions.value;
      Decimal.Mean(Sum(Numbers(values)), |values|)
  }

  /** When every number is between 0.00 and 100.00, so is the average. */
  lemma AverageScoreInRange(analysis: Option<AnalysisView>)
    requires analysis.Some? && analysis.value.dimensions.Some?
    requires forall v :: v in analysis.value.dimensions.value && v.Number? ==> 0 <= v.hundredths <= 10000
    ensures 0 <= CalculateAverageScore(analysis) <= 10000
  {
    var values := analysis.value.dimensions.value;
    if values != [] {
      assert forall i :: 0 <= i < |values| ==> values[i] in values;
      SumBounds(Numbers(values), 0, 10000);
      Decimal.MeanBetween(Sum(Numbers(values)), |values|, 0, 10000);
    }
  }

  /** The "dimensions" entry of an `analyzePersonality` result. */
  function ViewOf(d: Dimensions): AnalysisView {
    AnalysisView(Some([Number(d.openness), Number(d.conscientiousness), Number(d.extraversion),
                       Number(d.agreeableness), Number(d.neuroticism)]))
  }

  /** The average of five dimensions within range is their rounded mean, and within range too. */
  lemma DimensionsAverage(d: Dimensions)
    requires 0 <= d.openness <= 10000 && 0 <= d.conscientiousness <= 10000
    requires 0 <= d.extraversion <= 10000 && 0 <= d.agreeableness <= 10000
    requires 0 <= d.neuroticism <= 10000
    ensures var score := CalculateAverageScore(Some(ViewOf(d)));
      score == Decimal.Mean(d.openness + d.conscientiousness + d.extraversion + d.agreeableness + d.neuroticism, 5) &&
      0 <= score <= 10000
  {
    var values := ViewOf(d).dimensions.value;
    var ns := Numbers(values);
    assert ns == [d.openness, d.conscientiousness, d.extraversion, d.agreeableness, d.neuroticism];
    assert ns[..4][..3] == ns[..3] && ns[..3][..2] == ns[..2] && ns[..2][..1] == ns[..1] && ns[..1][..0] == [];
    assert Sum(ns[..1]) == d.openness;
    assert Sum(ns[..2]) == d.openness + d.conscientiousness;
    assert Sum(ns[..3]) == d.openness + d.conscientiousness + d.extraversion;
    assert Sum(ns[..4]) == d.openness + d.conscientiousness + d.extraversion + d.agreeableness;
    AverageScoreInRange(Some(ViewOf(d)));
  }

  // ------------------------------------------------- history and detail helpers

  /** The evaluations of one user, in table order. */
  function OwnedBy(evaluations: seq<CompletedEvaluation>, userId: int): (r: seq<CompletedEvaluation>)
    ensures forall e :: e in r <==> e in evaluations && e.userId == userId
    ensures r == [] <==> forall e :: e in evaluations ==> e.userId != userId
    ensures |r| <= |evaluations|
  {
    if evaluations == [] then []
    else
      var last := evaluations[|evaluations| - 1];
      var rest := OwnedBy(evaluations[..|evaluations| - 1], userId);
      assert evaluations == evaluations[..|evaluations| - 1] + [last];
      if last.userId == userId then rest + [last] else rest
  }

  function CompletionDateOf(e: CompletedEvaluation): int {
    e.completionDate
  }

  function ToHistoryEntry(e: CompletedEvaluation): HistoryEntry {
    HistoryEntry(e.id, e.test.name, e.test.testType.name, e.completionDate, e.totalScore)
  }

  function HistoryEntries(es: seq<CompletedEvaluation>): (r: seq<HistoryEntry>)
    ensures |r| == |es| && forall i :: 0 <= i < |es| ==> r[i] == ToHistoryEntry(es[i])
  {
    seq(|es|, i requires 0 <= i < |es| => ToHistoryEntry(es[i]))
  }

  /**
   * `getEvaluationHistory`: the user's evaluations, latest first; an error when
   * the user has none. Evaluations completed at the same time keep table order.
   */
  function History(evaluations: seq<CompletedEvaluation>, userId: int): Result<seq<HistoryEntry>> {
    var owned := OwnedBy(evaluations, userId);
    if owned == [] then Err(NoHistory)
    else Ok(HistoryEntries(Ranking.SortDesc(owned, CompletionDateOf)))
  }

  /**
   * The history fails exactly when the user has no evaluation; otherwise it
   * has one entry per evaluation of the user and no other, latest first.
   */
  lemma HistorySpec(evaluations: seq<CompletedEvaluation>, userId: int)
    ensures var r := History(evaluations, userId);
      r.Err? <==> forall e :: e in evaluations ==> e.userId != userId
    ensures var r := History(evaluations, userId);
      r.Ok? ==>
        |r.value| == |OwnedBy(evaluations, userId)| &&
        (forall h :: h in r.value <==>
           exists e :: e in evaluations && e.userId == userId && h == ToHistoryEntry(e)) &&
        (forall i, j :: 0 <= i < j < |r.value| ==> r.value[i].completionDate >= r.value[j].completionDate)
  {
    var owned := OwnedBy(evaluations, userId);
    if owned != [] {
      assert owned[0] in owned;
      var sorted := Ranking.SortDesc(owned, CompletionDateOf);
      var entries := HistoryEntries(sorted);
      forall h | h in entries
        ensures exists e :: e in evaluations && e.userId == userId && h == ToHistoryEntry(e)
      {
        var i :| 0 <= i < |entries| && entries[i] == h;
        Ranking.SortDescMembers(owned, CompletionDateOf, sorted[i]);
      }
      forall e | e in evaluations && e.userId == userId
        ensures ToHistoryEntry(e) in entries
      {
        Ranking.SortDescMembers(owned, CompletionDateOf, e);
        var i :| 0 <= i < |sorted| && sorted[i] == e;
        assert entries[i] == ToHistoryEntry(e);
      }
      forall i, j | 0 <= i < j < |entries|
        ensures entries[i].completionDate >= entries[j].completionDate
      {
        assert CompletionDateOf(sorted[i]) >= CompletionDateOf(sorted[j]);
      }
    }
  }

  /** The first evaluation with the given id, if any. */
  function FindById(evaluations: seq<CompletedEvaluation>, id: int): (r: Option<CompletedEvaluation>)
    ensures r.Some? ==> r.value in evaluations && r.value.id == id
    ensures r.None? ==> forall e :: e in evaluations ==> e.id != id
  {
    if evaluations == [] then None
    else if evaluations[0].id == id then Some(evaluations[0])
    else
      assert evaluations == [evaluations[0]] + evaluations[1..];
      FindById(evaluations[1..], id)
  }

  /** The answers saved for one evaluation, in table order. */
  function AnswersOf(rows: seq<UserAnswer>, evaluationId: int): (r: seq<UserAnswer>)
    ensures forall a :: a in r <==> a in rows && a.evaluationId == evaluationId
  {
    if rows == [] then []
    else
      var last := rows[|rows| - 1];
      var rest := AnswersOf(rows[..|rows| - 1], evaluationId);
      assert rows == rows[..|rows| - 1] + [last];
      if last.evaluationId == evaluationId then rest + [last] else rest
  }

  /** Sorting key for ascending question id, given to the descending sort. */
  function NegatedQuestionId(a: UserAnswer): int {
    -a.question.id
  }

  function ToAnswerDetail(a: UserAnswer): AnswerDetail {
    AnswerDetail(a.question.id, a.question.questionText, a.option.id, a.option.optionText,
                 a.option.category, a.option.weightValue)
  }

  /** The parsed result data: present only when a readable result was stored. */
  function AnalysisResult(e: CompletedEvaluation): Option<ResultArtifact> {
    if e.evaluationResult.Some? && e.evaluationResult.value.Stored? then
      Some(e.evaluationResult.value.artifact)
    else None
  }

  /** `EvaluationMapper.toResultResponse`. */
  function ToResultResponse(e: CompletedEvaluation): ResultResponse {
    ResultResponse(e.id, e.test.name, e.test.testType.name, e.completionDate, e.totalScore, e.evaluationResult)
  }

  function AnswerDetails(answers: seq<UserAnswer>): (r: seq<AnswerDetail>)
    ensures |r| == |answers| && forall i :: 0 <= i < |answers| ==> r[i] == ToAnswerDetail(answers[i])
  {
    seq(|answers|, i requires 0 <= i < |answers| => ToAnswerDetail(answers[i]))
  }

  /**
   * `getEvaluationDetail`: the evaluation with its answers ordered by question
   * id and its parsed result data, for its owner only.
   */
  function Detail(evaluations: seq<CompletedEvaluation>, userAnswers: seq<UserAnswer>, userId: int,
                  evaluationId: int): Result<EvaluationDetail>
  {
    var found := FindById(evaluations, evaluationId);
    if found.None? then Err(EvaluationNotFound)
    else if found.value.userId != userId then Err(NotOwner)
    else
      var e := found.value;
      var answers := Ranking.SortDesc(AnswersOf(userAnswers, evaluationId), NegatedQuestionId);
      Ok(EvaluationDetail(e.id, e.test.name, e.test.testType.name, e.completionDate, e.totalScore,
                          AnswerDetails(answers), AnalysisResult(e)))
  }

  /**
   * With unique evaluation ids, the detail is returned exactly to the owner of
   * an existing evaluation; an unknown id is "not found", another user's
   * evaluation is refused. The answers are those of this evaluation and no
   * other, in ascending question id, and the result data is present only when
   * it was stored readable.
   */
  lemma DetailSpec(evaluations: seq<CompletedEvaluation>, userAnswers: seq<UserAnswer>, userId: int,
                   evaluationId: int)
    requires forall i, j :: 0 <= i < j < |evaluations| ==> evaluations[i].id != evaluations[j].id
    ensures var r := Detail(evaluations, userAnswers, userId, evaluationId);
      (forall e :: e in evaluations ==> e.id != evaluationId) <==> r == Err(EvaluationNotFound)
    ensures var r := Detail(evaluations, userAnswers, userId, evaluationId);
      (exists e :: e in evaluations && e.id == evaluationId && e.userId != userId) <==>
        r == Err(NotOwner)
    ensures var r := Detail(evaluations, userAnswers, userId, evaluationId);
      r.Ok? ==>
        (exists e :: e in evaluations && e.id == evaluationId && e.userId == userId &&
           r.value.evaluationId == evaluationId && r.value.totalScore == e.totalScore &&
           r.value.analysisResult == AnalysisResult(e)) &&
        (forall x :: x in r.value.answers <==>
           exists a :: a in userAnswers && a.evaluationId == evaluationId && x == ToAnswerDetail(a)) &&
        (forall i, j :: 0 <= i < j < |r.value.answers| ==> r.value.answers[i].questionId <= r.value.answers[j].questionId)
  {
    var found := FindById(evaluations, evaluationId);
    if found.Some? {
      forall e | e in evaluations && e.id == evaluationId
        ensures e == found.value
      {
        var i :| 0 <= i < |evaluations| && evaluations[i] == e;
        var j :| 0 <= j < |evaluations| && evaluations[j] == found.value;
      }
      var rows := AnswersOf(userAnswers, evaluationId);
      var sorted := Ranking.SortDesc(rows, NegatedQuestionId);
      var details := AnswerDetails(sorted);
      forall x | x in details
        ensures exists a :: a in userAnswers && a.evaluationId == evaluationId && x == ToAnswerDetail(a)
      {
        var i :| 0 <= i < |details| && details[i] == x;
        Ranking.SortDescMembers(rows, NegatedQuestionId, sorted[i]);
      }
      forall a | a in userAnswers && a.evaluationId == evaluationId
        ensures ToAnswerDetail(a) in details
      {
        Ranking.SortDescMembers(rows, NegatedQuestionId, a);
        var i :| 0 <= i < |sorted| && sorted[i] == a;
        assert details[i] == ToAnswerDetail(a);
      }
      forall i, j | 0 <= i < j < |details|
        ensures details[i].questionId <= details[j].questionId
      {
        assert NegatedQuestionId(sorted[i]) >= NegatedQuestionId(sorted[j]);
      }
    }
  }

  // ------------------------------------------------- results of a submit

  /** The kept areas of a vocational evaluation with the given answers. */
  function VocationalTop(answers: seq<Answered>, keyOrder: set<string> -> seq<string>): seq<AreaPercentage>
    requires forall ks :: EnumeratesSet(keyOrder(ks), ks)
  {
    var scores := Vocational.Tally(Chosen(answers));
    assert EnumeratesSet(keyOrder(scores.Keys), scores.Keys);
    Vocational.TopAreas(keyOrder(scores.Keys), scores)
  }

  /** The stored result of a cognitive evaluation with the given answers. */
  function CognitiveOutcomeOf(answers: seq<Answered>, keyOrder: set<string> -> seq<string>): ResultArtifact
    requires forall ks :: EnumeratesSet(keyOrder(ks), ks)
  {
    var scores := Cognitive.ScoreTally(answers);
    assert EnumeratesSet(keyOrder(scores.Keys), scores.Keys);
    Cognitive.CognitiveOutcome(keyOrder(scores.Keys), answers)
  }

  /** The total score of a personality evaluation lies between 0.00 and 100.00. */
  lemma PersonalityScoreInRange(sentimentCall: CallOutcome<SentimentResponse>,
                                keyPhraseCall: CallOutcome<KeyPhraseResponse>, traitOrder: seq<string>)
    ensures var a := Personality.Analysis(sentimentCall, keyPhraseCall, traitOrder);
      0 <= CalculateAverageScore(Some(ViewOf(a.dimensions))) <= 10000
  {
    DimensionsAverage(Personality.Analysis(sentimentCall, keyPhraseCall, traitOrder).dimensions);
  }

  // ------------------------------------------------- the answer loops

  /**
   * The answer loop of the vocational submit: each answer is resolved and its
   * option folded into the category sums; the first answer that does not
   * resolve ends the loop with its error.
   */
  method ResolveVocational(reqs: seq<UserAnswerRequest>, questions: map<int, Question>,
                           options: map<int, AnswerOption>)
    returns (r: Result<seq<Answered>>, scores: map<string, int>)
    ensures r == ResolveAll(reqs, questions, options, false)
    ensures r.Ok? ==> scores == Vocational.Tally(Chosen(r.value))
  {
    var answers: seq<Answered> := [];
    scores := map[];
    for i := 0 to |reqs|
      invariant |answers| == i
      invariant forall j :: 0 <= j < i ==> Step(reqs[j], questions, options, false) == Ok(answers[j])
      invariant scores == Vocational.Tally(Chosen(answers))
    {
      var step := Step(reqs[i], questions, options, false);
      if step.Err? {
        ResolveAllStops(reqs, i, questions, options, false);
        return Err(step.error), scores;
      }
      assert Chosen(answers + [step.value])[..i] == Chosen(answers);
      answers := answers + [step.value];
      scores := Vocational.AddAnswer(scores, step.value.option);
    }
    ResolveAllSucceeds(reqs, answers, questions, options, false);
    r := Ok(answers);
  }

  /**
   * The answer loop of the cognitive submit: each answer is resolved and, when
   * its option has a category and a weight, the weight is added to the
   * category's score and the question's best weight in that category to its
   * maximum.
   */
  method ResolveCognitive(reqs: seq<UserAnswerRequest>, questions: map<int, Question>,
                          options: map<int, AnswerOption>)
    returns (r: Result<seq<Answered>>, scores: map<string, int>, maxes: map<string, int>)
    ensures r == ResolveAll(reqs, questions, options, true)
    ensures r.Ok? ==> scores == Cognitive.ScoreTally(r.value) && maxes == Cognitive.MaxTally(r.value)
  {
    var answers: seq<Answered> := [];
    scores, maxes := map[], map[];
    for i := 0 to |reqs|
      invariant |answers| == i
      invariant forall j :: 0 <= j < i ==> Step(reqs[j], questions, options, true) == Ok(answers[j])
      invariant scores == Cognitive.ScoreTally(answers) && maxes == Cognitive.MaxTally(answers)
    {
      var step := Step(reqs[i], questions, options, true);
      if step.Err? {
        ResolveAllStops(reqs, i, questions, options, true);
        return Err(step.error), scores, maxes;
      }
      var a := step.value;
      assert (answers + [a])[..i] == answers;
      answers := answers + [a];
      if a.option.category.Some? && a.option.weightValue.Some? {
        var c := a.option.category.value;
        scores := scores[c := (if c in scores then scores[c] else 0) + a.option.weightValue.value];
        maxes := maxes[c := (if c in maxes then maxes[c] else 0) + Cognitive.MaxWeight(a.question, c)];
      }
    }
    ResolveAllSucceeds(reqs, answers, questions, options, true);
    r := Ok(answers);
  }

  /** Records one more answer's option text under its question's key. */
  method RecordResponse(responses: map<string, string>, answers: seq<Answered>, a: Answered)
    returns (next: map<string, string>)
    requires responses == Responses(answers)
    ensures next == Responses(answers + [a])
  {
    ResponsesStep(answers, a, ResponseKey, responses);
    next := responses[ResponseKey(a.question) := a.option.optionText];
  }

  /**
   * The answer loop of the personality submit: each answer is resolved and its
   * option text recorded under its question's key.
   */
  method ResolvePersonality(reqs: seq<UserAnswerRequest>, questions: map<int, Question>,
                            options: map<int, AnswerOption>)
    returns (r: Result<seq<Answered>>, responses: map<string, string>)
    ensures r == ResolveAll(reqs, questions, options, false)
    ensures r.Ok? ==> responses == Responses(r.value)
  {
    var answers: seq<Answered> := [];
    responses := map[];
    for i := 0 to |reqs|
      invariant |answers| == i
      invariant forall j :: 0 <= j < i ==> Step(reqs[j], questions, options, false) == Ok(answers[j])
      invariant responses == Responses(answers)
    {
      var step := Step(reqs[i], questions, options, false);
      if step.Err? {
        ResolveAllStops(reqs, i, questions, options, false);
        return Err(step.error), responses;
      }
      var a := step.value;
      responses := RecordResponse(responses, answers, a);
      answers := answers + [a];
    }
    ResolveAllSucceeds(reqs, answers, questions, options, false);
    r := Ok(answers);
  }

  // ------------------------------------------------- ranking rows

  /**
   * `after` extends `before` with one area result for each of the first
   * `count` kept areas of evaluation `evaluationId`, in ranking order: the area
   * named after it, its percentage and its rank, counted from 1.
   */
  ghost predicate RankingRecorded(before: seq<AreaResult>, after: seq<AreaResult>, evaluationId: int,
                                  top: seq<AreaPercentage>, count: nat)
    requires count <= |top|
  {
    |after| == |before| + count && after[..|before|] == before &&
    forall k :: 0 <= k < count ==>
      after[|before| + k].id == |before| + k + 1 &&
      after[|before| + k].evaluationId == evaluationId &&
      after[|before| + k].vocationalArea.name == top[k].area &&
      after[|before| + k].percentage == top[k].percentage &&
      after[|before| + k].ranking == k + 1
  }

  /**
   * `after` extends `before` with new areas only for kept areas (among the
   * first `count`) that no existing area is named after, and the ranking row
   * of a kept area that already had an area uses that area.
   */
  ghost predicate AreasRegistered(before: seq<VocationalArea>, after: seq<VocationalArea>,
                                  results: seq<AreaResult>, from: nat, top: seq<AreaPercentage>, count: nat)
    requires count <= |top| && from + count <= |results|
  {
    |before| <= |after| && after[..|before|] == before &&
    (forall i :: |before| <= i < |after| ==>
       (exists k :: 0 <= k < count && top[k].area == after[i].name) &&
       forall a :: a in before ==> a.name != after[i].name) &&
    (forall k, a :: 0 <= k < count && a in before && a.name == top[k].area ==>
       results[from + k].vocationalArea == a)
  }

  /** Saving the row of the next kept area extends the recorded ranking by one. */
  lemma RankingStep(before: seq<AreaResult>, results: seq<AreaResult>, evaluationId: int,
                    top: seq<AreaPercentage>, i: nat, area: VocationalArea)
    requires i < |top| && RankingRecorded(before, results, evaluationId, top, i)
    requires area.name == top[i].area
    ensures RankingRecorded(before, results + [AreaResult(|results| + 1, evaluationId, area, top[i].percentage, i + 1)],
                            evaluationId, top, i + 1)
  {
    var after := results + [AreaResult(|results| + 1, evaluationId, area, top[i].percentage, i + 1)];
    assert after[..|before|] == results[..|before|];
  }

  /**
   * Finding the next kept area among areas with unique names, or creating it
   * when none has its name, keeps the registered areas as described.
   */
  lemma AreasStep(areasBefore: seq<VocationalArea>, areas: seq<VocationalArea>, areasAfter: seq<VocationalArea>,
                  results: seq<AreaResult>, from: nat, top: seq<AreaPercentage>, i: nat, area: VocationalArea,
                  row: AreaResult)
    requires i < |top| && from + i == |results|
    requires AreasRegistered(areasBefore, areas, results, from, top, i)
    requires forall x, y :: 0 <= x < y < |areas| ==> areas[x].name != areas[y].name
    requires area.name == top[i].area && row.vocationalArea == area
    requires (areasAfter == areas && area in areas) ||
             (areasAfter == areas + [area] && forall a :: a in areas ==> a.name != area.name)
    ensures AreasRegistered(areasBefore, areasAfter, results + [row], from, top, i + 1)
  {
    var after := results + [row];
    assert areasAfter[..|areasBefore|] == areasBefore;
    forall k, a | 0 <= k < i + 1 && a in areasBefore && a.name == top[k].area
      ensures after[from + k].vocationalArea == a
    {
      if k == i {
        var x :| 0 <= x < |areasBefore| && areasBefore[x] == a;
        assert areas[x] == a;
        if areasAfter == areas {
          var y :| 0 <= y < |areas| && areas[y] == area;
          assert x == y;
        }
      }
    }
  }

  /** Finds the position of the area named `name`. */
  function AreaNamed(areas: seq<VocationalArea>, name: string): (r: Option<nat>)
    ensures r.Some? ==> r.value < |areas| && areas[r.value].name == name
    ensures r.None? ==> forall a :: a in areas ==> a.name != name
  {
    if areas == [] then None
    else if areas[|areas| - 1].name == name then Some(|areas| - 1)
    else
      assert areas == areas[..|areas| - 1] + [areas[|areas| - 1]];
      AreaNamed(areas[..|areas| - 1], name)
  }

  class EvaluationService {
    var tests: map<int, Test>
    var questions: map<int, Question>
    var options: map<int, AnswerOption>
    var evaluations: seq<CompletedEvaluation>
    var userAnswers: seq<UserAnswer>
    var vocationalAreas: seq<VocationalArea>
    var areaResults: seq<AreaResult>

    /**
     * Generated ids are positions plus one, area names are unique
     * (`findByName` finds at most one), every area result belongs to a saved
     * evaluation and a saved area, and no evaluation has two results for the
     * same area (the unique constraint of `area_results`).
     */
    ghost predicate Valid()
      reads this
    {
      (forall i :: 0 <= i < |evaluations| ==> evaluations[i].id == i + 1) &&
      (forall i :: 0 <= i < |vocationalAreas| ==> vocationalAreas[i].id == i + 1) &&
      (forall i, j :: 0 <= i < j < |vocationalAreas| ==> vocationalAreas[i].name != vocationalAreas[j].name) &&
      (forall i :: 0 <= i < |areaResults| ==>
         areaResults[i].id == i + 1 &&
         1 <= areaResults[i].evaluationId <= |evaluations| &&
         areaResults[i].vocationalArea in vocationalAreas) &&
      (forall i, j :: 0 <= i < j < |areaResults| ==>
         areaResults[i].evaluationId != areaResults[j].evaluationId ||
         areaResults[i].vocationalArea.id != areaResults[j].vocationalArea.id)
    }

    constructor(tests: map<int, Test>, questions: map<int, Question>, options: map<int, AnswerOption>)
      ensures Valid()
      ensures this.tests == tests && this.questions == questions && this.options == options
      ensures evaluations == [] && userAnswers == [] && vocationalAreas == [] && areaResults == []
    {
      this.tests := tests;
      this.questions := questions;
      this.options := options;
      evaluations := [];
      userAnswers := [];
      vocationalAreas := [];
      areaResults := [];
    }

    /** Areas of the table with different names have different ids. */
    lemma DistinctNamesDistinctIds(a: VocationalArea, b: VocationalArea)
      requires Valid() && a in vocationalAreas && b in vocationalAreas && a.name != b.name
      ensures a.id != b.id
    {
      var i :| 0 <= i < |vocationalAreas| && vocationalAreas[i] == a;
      var j :| 0 <= j < |vocationalAreas| && vocationalAreas[j] == b;
    }

    /**
     * `findByName(…).orElseGet(…)`: the area named `name`, saved first when
     * there is none.
     */
    method FindOrCreateArea(name: string) returns (area: VocationalArea)
      requires Valid()
      modifies this
      ensures Valid()
      ensures tests == old(tests) && questions == old(questions) && options == old(options)
      ensures evaluations == old(evaluations) && userAnswers == old(userAnswers) && areaResults == old(areaResults)
      ensures area in vocationalAreas && area.name == name
      ensures (vocationalAreas == old(vocationalAreas) && area in old(vocationalAreas)) ||
              (vocationalAreas == old(vocationalAreas) + [area] && forall a :: a in old(vocationalAreas) ==> a.name != name)
    {
      var idx := AreaNamed(vocationalAreas, name);
      if idx.Some? {
        area := vocationalAreas[idx.value];
      } else {
        area := VocationalArea(|vocationalAreas| + 1, name);
        vocationalAreas := vocationalAreas + [area];
      }
    }

    /** Saves one area result; the unique constraint holds because no row pairs the two already. */
    method AppendAreaResult(evaluationId: int, area: VocationalArea, percentage: int, ranking: int)
      requires Valid()
      requires 1 <= evaluationId <= |evaluations| && area in vocationalAreas
      requires forall j :: 0 <= j < |areaResults| && areaResults[j].evaluationId == evaluationId ==>
        areaResults[j].vocationalArea.id != area.id
      modifies this
      ensures Valid()
      ensures tests == old(tests) && questions == old(questions) && options == old(options)
      ensures evaluations == old(evaluations) && userAnswers == old(userAnswers)
      ensures vocationalAreas == old(vocationalAreas)
      ensures areaResults == old(areaResults) + [AreaResult(|old(areaResults)| + 1, evaluationId, area, percentage, ranking)]
    {
      areaResults := areaResults + [AreaResult(|areaResults| + 1, evaluationId, area, percentage, ranking)];
    }

    /**
     * While the kept areas are recorded in order, the evaluation has no result
     * yet for the area of the next one.
     */
    lemma NoResultYet(before: seq<AreaResult>, evaluationId: int, top: seq<AreaPercentage>, i: nat,
                      area: VocationalArea)
      requires Valid() && i < |top| && RankingRecorded(before, areaResults, evaluationId, top, i)
      requires forall j :: 0 <= j < |before| ==> before[j].evaluationId < evaluationId
      requires forall x, y :: 0 <= x < y < |top| ==> top[x].area != top[y].area
      requires area in vocationalAreas && area.name == top[i].area
      ensures forall j :: 0 <= j < |areaResults| && areaResults[j].evaluationId == evaluationId ==>
        areaResults[j].vocationalArea.id != area.id
    {
      forall j | 0 <= j < |areaResults| && areaResults[j].evaluationId == evaluationId
        ensures areaResults[j].vocationalArea.id != area.id
      {
        assert areaResults[..|before|] == before;
        assert j >= |before|;
        var k := j - |before|;
        assert areaResults[j].vocationalArea.name == top[k].area != top[i].area;
        DistinctNamesDistinctIds(areaResults[j].vocationalArea, area);
      }
    }

    /**
     * The first half of a turn of the ranking loop: the area of kept area `i`
     * is found or created, registered as the row about to be saved needs.
     */
    method RegisterArea(before: seq<AreaResult>, areasBefore: seq<VocationalArea>, evaluationId: int,
                        top: seq<AreaPercentage>, i: nat)
      returns (area: VocationalArea)
      requires Valid() && i < |top| && |before| + i == |areaResults|
      requires AreasRegistered(areasBefore, vocationalAreas, areaResults, |before|, top, i)
      modifies this
      ensures Valid()
      ensures tests == old(tests) && questions == old(questions) && options == old(options)
      ensures evaluations == old(evaluations) && userAnswers == old(userAnswers) && areaResults == old(areaResults)
      ensures area in vocationalAreas && area.name == top[i].area
      ensures AreasRegistered(areasBefore, vocationalAreas,
                              areaResults + [AreaResult(|areaResults| + 1, evaluationId, area, top[i].percentage, i + 1)],
                              |before|, top, i + 1)
    {
      ghost var areas := vocationalAreas;
      area := FindOrCreateArea(top[i].area);
      AreasStep(areasBefore, areas, vocationalAreas, areaResults, |before|, top, i, area,
                AreaResult(|areaResults| + 1, evaluationId, area, top[i].percentage, i + 1));
    }

    /** One turn of the ranking loop: the area of kept area `i` is found or created and its row saved. */
    method RecordArea(before: seq<AreaResult>, areasBefore: seq<VocationalArea>, evaluationId: int,
                      top: seq<AreaPercentage>, i: nat, ranking: int)
      requires Valid() && i < |top| && ranking == i + 1
      requires 1 <= evaluationId <= |evaluations|
      requires forall j :: 0 <= j < |before| ==> before[j].evaluationId < evaluationId
      requires forall x, y :: 0 <= x < y < |top| ==> top[x].area != top[y].area
      requires RankingRecorded(before, areaResults, evaluationId, top, i)
      requires AreasRegistered(areasBefore, vocationalAreas, areaResults, |before|, top, i)
      modifies this
      ensures Valid()
      ensures tests == old(tests) && questions == old(questions) && options == old(options)
      ensures evaluations == old(evaluations) && userAnswers == old(userAnswers)
      ensures RankingRecorded(before, areaResults, evaluationId, top, i + 1)
      ensures AreasRegistered(areasBefore, vocationalAreas, areaResults, |before|, top, i + 1)
    {
      ghost var results := areaResults;
      var area := RegisterArea(before, areasBefore, evaluationId, top, i);
      NoResultYet(before, evaluationId, top, i, area);
      AppendAreaResult(evaluationId, area, top[i].percentage, ranking);
      assert areaResults == results + [AreaResult(|results| + 1, evaluationId, area, top[i].percentage, i + 1)];
      RankingStep(before, results, evaluationId, top, i, area);
    }

    /**
     * The ranking loop of the vocational submit: for each kept area, in order,
     * the area of that name is found or created, and a result row with the
     * area's percentage and its rank is saved.
     */
    method RecordRanking(evaluationId: int, top: seq<AreaPercentage>)
      requires Valid()
      requires evaluations != [] && evaluationId == |evaluations|
      requires forall i :: 0 <= i < |areaResults| ==> areaResults[i].evaluationId < evaluationId
      requires forall i, j :: 0 <= i < j < |top| ==> top[i].area != top[j].area
      modifies this
      ensures Valid()
      ensures tests == old(tests) && questions == old(questions) && options == old(options)
      ensures evaluations == old(evaluations) && userAnswers == old(userAnswers)
      ensures RankingRecorded(old(areaResults), areaResults, evaluationId, top, |top|)
      ensures AreasRegistered(old(vocationalAreas), vocationalAreas, areaResults, |old(areaResults)|, top, |top|)
    {
      var before := areaResults;
      var areasBefore := vocationalAreas;
      var ranking := 1;
      for i := 0 to |top|
        invariant Valid()
        invariant tests == old(tests) && questions == old(questions) && options == old(options)
        invariant evaluations == old(evaluations) && userAnswers == old(userAnswers)
        invariant ranking == i + 1
        invariant RankingRecorded(before, areaResults, evaluationId, top, i)
        invariant AreasRegistered(areasBefore, vocationalAreas, areaResults, |before|, top, i)
      {
        RecordArea(before, areasBefore, evaluationId, top, i, ranking);
        ranking := ranking + 1;
      }
    }

    /** Nothing but the new evaluation's rows is written by a failed submit. */
    twostate predicate TablesUnchanged()
      reads this
    {
      evaluations == old(evaluations) && userAnswers == old(userAnswers) &&
      vocationalAreas == old(vocationalAreas) && areaResults == old(areaResults)
    }

    /** Saves a new evaluation and its answers. */
    method SaveEvaluation(evaluation: CompletedEvaluation, answers: seq<Answered>)
      requires Valid() && evaluation.id == |evaluations| + 1
      modifies this
      ensures Valid()
      ensures tests == old(tests) && questions == old(questions) && options == old(options)
      ensures vocationalAreas == old(vocationalAreas) && areaResults == old(areaResults)
      ensures evaluations == old(evaluations) + [evaluation]
      ensures userAnswers == old(userAnswers) + AnswerRows(evaluation.id, answers)
      ensures forall i :: 0 <= i < |areaResults| ==> areaResults[i].evaluationId < evaluation.id
    {
      evaluations := evaluations + [evaluation];
      userAnswers := userAnswers + AnswerRows(evaluation.id, answers);
    }

    /**
     * `submitVocationalInterestsTest`. After the request checks, each answer is
     * resolved and its option added to its category's sum; the first answer
     * that does not resolve aborts the submit with nothing saved. Otherwise the
     * evaluation is saved with its answers, the five best areas are ranked with
     * one area result each, and the evaluation's score is their mean.
     */
    method SubmitVocationalInterestsTest(userId: int, userExists: bool, request: SubmitTestRequest, now: int,
                                         keyOrder: set<string> -> seq<string>)
      returns (r: Result<ResultResponse>)
      requires Valid()
      requires forall ks :: EnumeratesSet(keyOrder(ks), ks)
      modifies this
      ensures Valid()
      ensures tests == old(tests) && questions == old(questions) && options == old(options)
      ensures var check := CheckRequest(tests, userExists, request, VocationalKind);
        check.Err? ==> r == Err(check.error) && TablesUnchanged()
      ensures var resolved := ResolveAll(request.answers, questions, options, false);
        CheckRequest(tests, userExists, request, VocationalKind).Ok? && resolved.Err? ==>
          r == Err(resolved.error) && TablesUnchanged()
      ensures var check := CheckRequest(tests, userExists, request, VocationalKind);
        var resolved := ResolveAll(request.answers, questions, options, false);
        check.Ok? && resolved.Ok? ==>
          var id := |old(evaluations)| + 1;
          var top := VocationalTop(resolved.value, keyOrder);
          var evaluation := CompletedEvaluation(id, userId, check.value, now, Some(Vocational.AverageScore(top)),
                                                Some(Stored(VocationalResult(top, Vocational.Recommendations(top)))));
          evaluations == old(evaluations) + [evaluation] &&
          userAnswers == old(userAnswers) + AnswerRows(id, resolved.value) &&
          RankingRecorded(old(areaResults), areaResults, id, top, |top|) &&
          AreasRegistered(old(vocationalAreas), vocationalAreas, areaResults, |old(areaResults)|, top, |top|) &&
          r == Ok(ToResultResponse(evaluation))
    {
      var check := CheckRequest(tests, userExists, request, VocationalKind);
      if check.Err? {
        return Err(check.error);
      }
      var resolved, scores := ResolveVocational(request.answers, questions, options);
      if resolved.Err? {
        return Err(resolved.error);
      }
      var order := keyOrder(scores.Keys);
      var top := Vocational.TopAreas(order, scores);
      Vocational.TopAreasSpec(order, scores);
      var recommendations := Vocational.GenerateRecommendations(top);
      var id := |evaluations| + 1;
      var evaluation := CompletedEvaluation(id, userId, check.value, now, Some(Vocational.AverageScore(top)),
                                            Some(Stored(VocationalResult(top, recommendations))));
      SaveEvaluation(evaluation, resolved.value);
      RecordRanking(id, top);
      r := Ok(ToResultResponse(evaluation));
    }

    /**
     * `submitCognitiveSkillsTest`. After the request checks, each answer is
     * resolved and counted; the first failure aborts the submit with nothing
     * saved. Otherwise the evaluation is saved with its answers, the category
     * percentages and bands as its result and their mean as its score.
     */
    method SubmitCognitiveSkillsTest(userId: int, userExists: bool, request: SubmitTestRequest, now: int,
                                     keyOrder: set<string> -> seq<string>)
      returns (r: Result<ResultResponse>)
      requires Valid()
      requires forall ks :: EnumeratesSet(keyOrder(ks), ks)
      modifies this
      ensures Valid()
      ensures tests == old(tests) && questions == old(questions) && options == old(options)
      ensures var check := CheckRequest(tests, userExists, request, CognitiveKind);
        check.Err? ==> r == Err(check.error) && TablesUnchanged()
      ensures var resolved := ResolveAll(request.answers, questions, options, true);
        CheckRequest(tests, userExists, request, CognitiveKind).Ok? && resolved.Err? ==>
          r == Err(resolved.error) && TablesUnchanged()
      ensures var check := CheckRequest(tests, userExists, request, CognitiveKind);
        var resolved := ResolveAll(request.answers, questions, options, true);
        check.Ok? && resolved.Ok? ==>
          var id := |old(evaluations)| + 1;
          var outcome := CognitiveOutcomeOf(resolved.value, keyOrder);
          var evaluation := CompletedEvaluation(id, userId, check.value, now,
                                                Some(Cognitive.OverallScore(outcome.cognitiveAreas)),
                                                Some(Stored(outcome)));
          evaluations == old(evaluations) + [evaluation] &&
          userAnswers == old(userAnswers) + AnswerRows(id, resolved.value) &&
          vocationalAreas == old(vocationalAreas) && areaResults == old(areaResults) &&
          r == Ok(ToResultResponse(evaluation))
    {
      var check := CheckRequest(tests, userExists, request, CognitiveKind);
      if check.Err? {
        return Err(check.error);
      }
      var resolved, scores, maxes := ResolveCognitive(request.answers, questions, options);
      if resolved.Err? {
        return Err(resolved.error);
      }
      var order := keyOrder(scores.Keys);
      var outcome := Cognitive.CognitiveOutcome(order, resolved.value);
      var id := |evaluations| + 1;
      var evaluation := CompletedEvaluation(id, userId, check.value, now,
                                            Some(Cognitive.OverallScore(outcome.cognitiveAreas)),
                                            Some(Stored(outcome)));
      SaveEvaluation(evaluation, resolved.value);
      r := Ok(ToResultResponse(evaluation));
    }

    /**
     * `submitPersonalityTest`. After the request checks, each answer is resolved
     * and its option text recorded under its question; the first failure aborts
     * the submit with nothing saved. Otherwise the responses are analysed, and
     * the evaluation is saved with its answers, the analysis as its result and
     * the mean of the five dimensions as its score.
     */
    method SubmitPersonalityTest(userId: int, userExists: bool, request: SubmitTestRequest, now: int,
                                 analyzePersonality: map<string, string> -> PersonalityAnalysis)
      returns (r: Result<ResultResponse>)
      requires Valid()
      modifies this
      ensures Valid()
      ensures tests == old(tests) && questions == old(questions) && options == old(options)
      ensures var check := CheckRequest(tests, userExists, request, PersonalityKind);
        check.Err? ==> r == Err(check.error) && TablesUnchanged()
      ensures var resolved := ResolveAll(request.answers, questions, options, false);
        CheckRequest(tests, userExists, request, PersonalityKind).Ok? && resolved.Err? ==>
          r == Err(resolved.error) && TablesUnchanged()
      ensures var check := CheckRequest(tests, userExists, request, PersonalityKind);
        var resolved := ResolveAll(request.answers, questions, options, false);
        check.Ok? && resolved.Ok? ==>
          var id := |old(evaluations)| + 1;
          var analysis := analyzePersonality(Responses(resolved.value));
          var evaluation := CompletedEvaluation(id, userId, check.value, now,
                                                Some(CalculateAverageScore(Some(ViewOf(analysis.dimensions)))),
                                                Some(Stored(PersonalityResult(analysis))));
          evaluations == old(evaluations) + [evaluation] &&
          userAnswers == old(userAnswers) + AnswerRows(id, resolved.value) &&
          vocationalAreas == old(vocationalAreas) && areaResults == old(areaResults) &&
          r == Ok(ToResultResponse(evaluation))
    {
      var check := CheckRequest(tests, userExists, request, PersonalityKind);
      if check.Err? {
        return Err(check.error);
      }
      var resolved, responses := ResolvePersonality(request.answers, questions, options);
      if resolved.Err? {
        return Err(resolved.error);
      }
      var analysis := analyzePersonality(responses);
      var id := |evaluations| + 1;
      var evaluation := CompletedEvaluation(id, userId, check.value, now,
                                            Some(CalculateAverageScore(Some(ViewOf(analysis.dimensions)))),
                                            Some(Stored(PersonalityResult(analysis))));
      SaveEvaluation(evaluation, resolved.value);
      r := Ok(ToResultResponse(evaluation));
    }
  }
}
