/**
 * `TestServiceImpl`: the administrator's catalogue of tests. A test needs at
 * least 100 questions, there is at most one active test of each type, and an
 * update keeps the old questions (deactivated) and appends the new ones.
 *
 * The `tests` table is a field of `TestCatalog` (ids are positions + 1); the
 * test types are a fixed map from id to type. A failing call changes nothing
 * (the service is transactional).
 */
module TestAdmin {
  import opened Common
  import opened Entities
  import AdminMapper
  import TestMapper

  const MinQuestions := 100

  // ---------------------------------------------------------------- display names

  /** `getTestTypeDisplayName`: the readable name of the three known types, ignoring case. */
  function GetTestTypeDisplayName(technicalName: string): (r: string)
    ensures ToLower(technicalName) == "personality" ==> r == "Personality Test"
    ensures ToLower(technicalName) == "vocational_interests" ==> r == "Vocational Interests Test"
    ensures ToLower(technicalName) == "cognitive_skills" ==> r == "Cognitive Skills Test"
    ensures ToLower(technicalName) !in {"personality", "vocational_interests", "cognitive_skills"} ==>
      r == technicalName
  {
    var lower := ToLower(technicalName);
    if lower == "personality" then "Personality Test"
    else if lower == "vocational_interests" then "Vocational Interests Test"
    else if lower == "cognitive_skills" then "Cognitive Skills Test"
    else technicalName
  }

  /** Names that differ only in the case of ASCII letters get the same display name. */
  lemma DisplayNameIgnoresCase(a: string, b: string)
    requires ToLower(a) == ToLower(b)
    requires ToLower(a) in {"personality", "vocational_interests", "cognitive_skills"}
    ensures GetTestTypeDisplayName(a) == GetTestTypeDisplayName(b)
  {
  }

  // ---------------------------------------------------------------- queries on the table

  /** At most one test of each type is active. */
  ghost predicate OneActivePerType(tests: seq<Test>) {
    forall i, j :: 0 <= i < j < |tests| && tests[i].active && tests[j].active ==>
      tests[i].testType.id != tests[j].testType.id
  }

  /** `findByTestTypeIdAndActiveTrue`: the active test of a type, if any. */
  function ActiveOfType(tests: seq<Test>, typeId: int): (r: Option<nat>)
    ensures r.None? <==> forall i :: 0 <= i < |tests| ==> !(tests[i].active && tests[i].testType.id == typeId)
    ensures r.Some? ==> r.value < |tests| && tests[r.value].active && tests[r.value].testType.id == typeId
  {
    if tests == [] then None
    else
      var last := |tests| - 1;
      if tests[last].active && tests[last].testType.id == typeId then Some(last)
      else
        var r := ActiveOfType(tests[..last], typeId);
        assert forall i :: 0 <= i < last ==> tests[..last][i] == tests[i];
        r
  }

  /** `findById`: the position of the test with the given id. */
  function IndexOfTest(tests: seq<Test>, id: int): (r: Option<nat>)
    ensures r.None? <==> forall i :: 0 <= i < |tests| ==> tests[i].id != id
    ensures r.Some? ==> r.value < |tests| && tests[r.value].id == id
  {
    if tests == [] then None
    else if tests[|tests| - 1].id == id then Some(|tests| - 1)
    else
      var r := IndexOfTest(tests[..|tests| - 1], id);
      assert forall i :: 0 <= i < |tests| - 1 ==> tests[..|tests| - 1][i] == tests[i];
      r
  }

  /** `getAllTests`: one list entry per test, in table order; an empty table is an error. */
  function GetAllTests(tests: seq<Test>): (r: Result<seq<AdminMapper.TestListResponse>>)
    ensures r.Err? <==> tests == []
    ensures r.Err? ==> r.error == IllegalArgument("No hay tests disponibles en el sistema")
    ensures r.Ok? ==> |r.value| == |tests|
    ensures r.Ok? ==> forall i :: 0 <= i < |tests| ==> Some(r.value[i]) == AdminMapper.ToTestListResponse(Some(tests[i]))
  {
    if tests == [] then Err(IllegalArgument("No hay tests disponibles en el sistema"))
    else Ok(seq(|tests|, i requires 0 <= i < |tests| => AdminMapper.ToTestListResponse(Some(tests[i])).value))
  }

  /** `getTestDetails`: the test with only its active questions (loaded afresh), as a response. */
  function GetTestDetails(tests: seq<Test>, testId: int): (r: Result<TestMapper.TestResponse>)
    ensures r.Err? <==> IndexOfTest(tests, testId).None?
    ensures r.Err? ==> r.error == EntityNotFound("The requested test has not been found")
    ensures r.Ok? ==> r.value.id == testId && r.value.questions.Some?
    ensures r.Ok? ==>
      var t := tests[IndexOfTest(tests, testId).value];
      r.value.questions.value == TestMapper.QuestionResponses(TestMapper.ActiveQuestions(t.questions.GetOrElse([])))
  {
    match IndexOfTest(tests, testId)
    case None => Err(EntityNotFound("The requested test has not been found"))
    case Some(k) =>
      var t := tests[k];
      var active := TestMapper.ActiveQuestions(t.questions.GetOrElse([]));
      ActiveTwice(t.questions.GetOrElse([]));
      Ok(TestMapper.ToResponse(Some(t.(questions := Some(active)))).value)
  }

  /** Filtering twice is filtering once. */
  lemma {:induction false} ActiveTwice(qs: seq<Question>)
    ensures TestMapper.ActiveQuestions(TestMapper.ActiveQuestions(qs)) == TestMapper.ActiveQuestions(qs)
  {
    if qs != [] {
      var init := qs[..|qs| - 1];
      var q := qs[|qs| - 1];
      ActiveTwice(init);
      if q.active {
        var a := TestMapper.ActiveQuestions(init);
        TestMapper.ActiveQuestionsAppend(a, [q]);
        assert TestMapper.ActiveQuestions([q]) == [q] by {
          assert [q][..0] == [];
        }
      }
    }
  }

  // ---------------------------------------------------------------- conflict messages

  const CreateConflictTail :=
    "'). Only one active test per type is allowed. Please deactivate or update the existing test instead of creating a new one."
  const UpdateConflictMiddle := "' because another active test already exists for this type (ID: "
  const UpdateConflictTail := "'). Only one active test per type is allowed."

  function CreateConflictMessage(displayName: string, existing: Test): string {
    "A test of type '" + displayName + "' already exists (ID: " + IntToString(existing.id) +
    ", Name: '" + existing.name + CreateConflictTail
  }

  function UpdateConflictMessage(displayName: string, existing: Test): string {
    "Cannot change test type to '" + displayName + UpdateConflictMiddle + IntToString(existing.id) +
    ", Name: '" + existing.name + UpdateConflictTail
  }

  // ---------------------------------------------------------------- request checks

  /** The size rule both `createTest` and `updateTest` apply first. */
  predicate HasEnoughQuestions(request: CreateTestRequest) {
    request.questions.Some? && |request.questions.value| >= MinQuestions
  }

  /**
   * The checks of `createTest`, in order; on success, the requested type.
   */
  function CreateCheck(tests: seq<Test>, testTypes: map<int, TestType>, request: CreateTestRequest)
    : (r: Result<TestType>)
    ensures r.Ok? <==>
      HasEnoughQuestions(request) && request.testTypeId in testTypes &&
      ActiveOfType(tests, testTypes[request.testTypeId].id).None?
    ensures r.Ok? ==> r.value == testTypes[request.testTypeId]
    ensures !HasEnoughQuestions(request) ==> r == Err(IllegalArgument("Test must have at least 100 questions"))
    ensures HasEnoughQuestions(request) && request.testTypeId !in testTypes ==>
      r == Err(EntityNotFound("The test type has not been found"))
  {
    if !HasEnoughQuestions(request) then Err(IllegalArgument("Test must have at least 100 questions"))
    else if request.testTypeId !in testTypes then Err(EntityNotFound("The test type has not been found"))
    else
      var testType := testTypes[request.testTypeId];
      match ActiveOfType(tests, testType.id)
      case Some(k) => Err(IllegalState(CreateConflictMessage(GetTestTypeDisplayName(testType.name), tests[k])))
      case None => Ok(testType)
  }

  /** The outcome of the checks of `updateTest`: the test's position and the requested type. */
  datatype UpdateTarget = UpdateTarget(index: nat, testType: TestType)

  /** The type of the test at `k` may become `testType` without a second active test of that type. */
  predicate TypeChangeAllowed(tests: seq<Test>, k: nat, testType: TestType)
    requires k < |tests|
  {
    tests[k].testType.id == testType.id ||
    match ActiveOfType(tests, testType.id)
    case None => true
    case Some(j) => tests[j].id == tests[k].id
  }

  /**
   * The checks of `updateTest`, in order. A test whose question list is `null`
   * makes the final `addAll` throw.
   */
  function UpdateCheck(tests: seq<Test>, testTypes: map<int, TestType>, testId: int, request: CreateTestRequest)
    : (r: Result<UpdateTarget>)
    ensures r.Ok? <==>
      HasEnoughQuestions(request) && IndexOfTest(tests, testId).Some? && request.testTypeId in testTypes &&
      TypeChangeAllowed(tests, IndexOfTest(tests, testId).value, testTypes[request.testTypeId]) &&
      tests[IndexOfTest(tests, testId).value].questions.Some?
    ensures r.Ok? ==> r.value == UpdateTarget(IndexOfTest(tests, testId).value, testTypes[request.testTypeId])
    ensures !HasEnoughQuestions(request) ==> r == Err(IllegalArgument("Test must have at least 100 questions"))
    ensures HasEnoughQuestions(request) && IndexOfTest(tests, testId).None? ==>
      r == Err(EntityNotFound("The test to update has not been found"))
  {
    if !HasEnoughQuestions(request) then Err(IllegalArgument("Test must have at least 100 questions"))
    else match IndexOfTest(tests, testId)
      case None => Err(EntityNotFound("The test to update has not been found"))
      case Some(k) =>
        if request.testTypeId !in testTypes then Err(EntityNotFound("The test type has not been found"))
        else
          var testType := testTypes[request.testTypeId];
          if !TypeChangeAllowed(tests, k, testType) then
            var j := ActiveOfType(tests, testType.id).value;
            Err(IllegalState(UpdateConflictMessage(GetTestTypeDisplayName(testType.name), tests[j])))
          else if tests[k].questions.None? then Err(Runtime("NullPointerException"))
          else Ok(UpdateTarget(k, testType))
  }

  // ---------------------------------------------------------------- deactivation

  /** Every question kept, each one inactive. */
  function Deactivated(qs: seq<Question>): (r: seq<Question>)
    ensures |r| == |qs| && forall i :: 0 <= i < |qs| ==> r[i] == qs[i].(active := false)
  {
    seq(|qs|, i requires 0 <= i < |qs| => qs[i].(active := false))
  }

  /** The loop of `updateTest` that sets each old question inactive. */
  method DeactivateAll(qs: seq<Question>) returns (r: seq<Question>)
    ensures r == Deactivated(qs)
  {
    r := qs;
    for i := 0 to |qs|
      invariant |r| == |qs|
      invariant forall m :: 0 <= m < i ==> r[m] == qs[m].(active := false)
      invariant forall m :: i <= m < |qs| ==> r[m] == qs[m]
    {
      r := r[i := qs[i].(active := false)];
    }
  }

  /**
   * After an update the response shows exactly the new questions: the old ones
   * are all inactive and the new ones all active.
   */
  lemma {:induction false} OnlyNewQuestionsShown(old_: seq<Question>, new_: seq<Question>)
    requires forall i :: 0 <= i < |new_| ==> new_[i].active
    ensures TestMapper.ActiveQuestions(Deactivated(old_) + new_) == new_
  {
    TestMapper.ActiveQuestionsAppend(Deactivated(old_), new_);
    NoneActive(Deactivated(old_));
    AllActive(new_);
  }

  lemma {:induction false} NoneActive(qs: seq<Question>)
    requires forall i :: 0 <= i < |qs| ==> !qs[i].active
    ensures TestMapper.ActiveQuestions(qs) == []
  {
    if qs != [] {
      NoneActive(qs[..|qs| - 1]);
    }
  }

  lemma {:induction false} AllActive(qs: seq<Question>)
    requires forall i :: 0 <= i < |qs| ==> qs[i].active
    ensures TestMapper.ActiveQuestions(qs) == qs
  {
    if qs != [] {
      AllActive(qs[..|qs| - 1]);
      assert qs == qs[..|qs| - 1] + [qs[|qs| - 1]];
    }
  }

  /** The questions, all active, are the requested ones up to the ids `save` gives them. */
  ghost predicate AsRequested(qs: seq<Question>, requested: seq<QuestionRequest>) {
    |qs| == |requested| &&
    forall m :: 0 <= m < |qs| ==> qs[m].active && AdminMapper.IsNewQuestion(Unsaved(qs[m]), requested[m])
  }

  /**
   * `updated` is `before` after `updateTest`: type, name, description and
   * number of questions to show overwritten; id and `active` kept; the old
   * questions all kept but inactive, followed by the requested questions, all
   * active, equal to their requests up to the ids `save` gives them; so that
   * its response shows exactly the new questions.
   */
  ghost predicate IsUpdate(updated: Test, before: Test, request: CreateTestRequest, testType: TestType) {
    var requested := AdminMapper.RequestedQuestions(request);
    before.questions.Some? && updated.questions.Some? &&
    var oldQuestions := before.questions.value;
    updated.id == before.id && updated.active == before.active &&
    updated.testType == testType && updated.name == request.name &&
    updated.description == request.description && updated.questionsToShow == request.questionsToShow &&
    |updated.questions.value| == |oldQuestions| + |requested| &&
    updated.questions.value[..|oldQuestions|] == Deactivated(oldQuestions) &&
    AsRequested(updated.questions.value[|oldQuestions|..], requested) &&
    TestMapper.ToResponse(Some(updated)).value.questions ==
      Some(TestMapper.QuestionResponses(updated.questions.value[|oldQuestions|..]))
  }

  /** The body of `updateTest` once its checks have passed. */
  method UpdatedTest(existing: Test, request: CreateTestRequest, testType: TestType) returns (updated: Test)
    requires existing.questions.Some?
    ensures IsUpdate(updated, existing, request, testType)
    ensures AllUnsaved(updated.questions.value[|existing.questions.value|..])
  {
    var kept := DeactivateAll(existing.questions.value);
    var newData := AdminMapper.ToTestEntity(Some(request), Some(testType));
    var added := newData.value.questions.value;
    var questions := kept + added;
    assert questions[..|kept|] == kept && questions[|kept|..] == added;
    forall i | 0 <= i < |added|
      ensures added[i].active && Unsaved(added[i]) == added[i]
      ensures added[i].id == 0 && forall k :: 0 <= k < |OptionsOf(added[i])| ==> OptionsOf(added[i])[k].id == 0
    {
      assert AdminMapper.IsNewQuestion(added[i], AdminMapper.RequestedQuestions(request)[i]);
      UnsavedNew(added[i], AdminMapper.RequestedQuestions(request)[i]);
    }
    OnlyNewQuestionsShown(existing.questions.value, added);
    updated := existing.(testType := testType, name := request.name, description := request.description,
      questionsToShow := request.questionsToShow, questions := Some(questions));
  }

  /** Replacing a test by a version of an allowed type, not more active than before, keeps one active test per type. */
  lemma UpdateKeepsOneActive(tests: seq<Test>, k: nat, updated: Test)
    requires k < |tests| && OneActivePerType(tests)
    requires updated.active == tests[k].active && updated.id == tests[k].id
    requires TypeChangeAllowed(tests, k, updated.testType)
    requires forall i :: 0 <= i < |tests| ==> tests[i].id == i + 1
    ensures OneActivePerType(tests[k := updated])
  {
    var after := tests[k := updated];
    forall i, j | 0 <= i < j < |after| && after[i].active && after[j].active
      ensures after[i].testType.id != after[j].testType.id
    {
      if i != k && j != k {
        assert tests[i] == after[i] && tests[j] == after[j];
      } else {
        var other := if i == k then j else i;
        assert tests[other] == after[other] && tests[other].active;
        if tests[k].testType.id != updated.testType.id {
          var a := ActiveOfType(tests, updated.testType.id);
          if a.Some? {
            assert tests[a.value].id == tests[k].id;
          }
        }
      }
    }
  }

  // ---------------------------------------------------------------- saving
  //
  // `testRepository.save` cascades to the questions and their options. A row
  // still without an id (0) takes the next id of its table, in list order;
  // a row already saved keeps its id. The tables' next ids are counters.

  /** The options of a question, none for a `null` list. */
  function OptionsOf(q: Question): seq<AnswerOption> {
    q.answerOptions.GetOrElse([])
  }

  /** The questions of a test, none for a `null` list. */
  function QuestionsOf(t: Test): seq<Question> {
    t.questions.GetOrElse([])
  }

  /** A question as it was before `save`: its id and its options' ids cleared. */
  function Unsaved(q: Question): (r: Question)
    ensures r.id == 0 && r.questionText == q.questionText && r.orderNumber == q.orderNumber
    ensures r.active == q.active && r.answerOptions.Some? == q.answerOptions.Some?
    ensures |OptionsOf(r)| == |OptionsOf(q)|
    ensures forall k :: 0 <= k < |OptionsOf(q)| ==> OptionsOf(r)[k] == OptionsOf(q)[k].(id := 0)
  {
    q.(id := 0, answerOptions :=
      if q.answerOptions.None? then None
      else Some(seq(|q.answerOptions.value|, k requires 0 <= k < |q.answerOptions.value| =>
        q.answerOptions.value[k].(id := 0))))
  }

  /** A question just built from a request is its own unsaved form. */
  lemma UnsavedNew(q: Question, dto: QuestionRequest)
    requires AdminMapper.IsNewQuestion(q, dto)
    ensures Unsaved(q) == q
  {
    assert OptionsOf(Unsaved(q)) == OptionsOf(q);
  }

  /** The result of saving questions: the saved questions and the next free question and option ids. */
  datatype SavedQuestions = SavedQuestions(questions: seq<Question>, nextQuestionId: int, nextOptionId: int)

  /**
   * The ids `save` gives options: a new option (id 0) takes the next id of
   * the table, in list order; a saved option keeps its own.
   */
  function SaveOptions(os: seq<AnswerOption>, next: int): (r: (seq<AnswerOption>, int))
    ensures next <= r.1 && |r.0| == |os|
    ensures forall k :: 0 <= k < |os| ==> r.0[k].(id := 0) == os[k].(id := 0)
    ensures forall k :: 0 <= k < |os| && os[k].id != 0 ==> r.0[k].id == os[k].id
    ensures forall k :: 0 <= k < |os| && os[k].id == 0 ==> next <= r.0[k].id < r.1
    ensures forall k, l :: 0 <= k < l < |os| && os[k].id == 0 && os[l].id == 0 ==> r.0[k].id < r.0[l].id
  {
    if os == [] then ([], next)
    else
      var o := if os[0].id == 0 then os[0].(id := next) else os[0];
      var rest := SaveOptions(os[1..], if os[0].id == 0 then next + 1 else next);
      assert forall k :: 1 <= k < |os| ==> ([o] + rest.0)[k] == rest.0[k - 1] && os[k] == os[1..][k - 1];
      ([o] + rest.0, rest.1)
  }

  /**
   * The options of `saved` are those of `q` after `save`: the same number,
   * saved ones keep their ids, new ones (id 0) get ids in [lo, hi) that
   * increase along the list.
   */
  ghost predicate OptionIdsSaved(saved: Question, q: Question, lo: int, hi: int) {
    var os, ss := OptionsOf(q), OptionsOf(saved);
    |ss| == |os| &&
    (forall k :: 0 <= k < |os| && os[k].id != 0 ==> ss[k].id == os[k].id) &&
    (forall k :: 0 <= k < |os| && os[k].id == 0 ==> lo <= ss[k].id < hi) &&
    (forall k, l :: 0 <= k < l < |os| && os[k].id == 0 && os[l].id == 0 ==> ss[k].id < ss[l].id)
  }

  /** Every new option of the first question got a smaller id than every new option of the second. */
  ghost predicate NewOptionsBefore(savedA: Question, a: Question, savedB: Question, b: Question) {
    forall k, l :: 0 <= k < |OptionsOf(a)| && k < |OptionsOf(savedA)| &&
                   0 <= l < |OptionsOf(b)| && l < |OptionsOf(savedB)| &&
                   OptionsOf(a)[k].id == 0 && OptionsOf(b)[l].id == 0 ==>
      OptionsOf(savedA)[k].id < OptionsOf(savedB)[l].id
  }

  /** `save` of one question: the question and its options as `SaveOptions` and the question counter give. */
  function SaveQuestion(q: Question, nextQuestionId: int, nextOptionId: int): (r: SavedQuestions)
    ensures |r.questions| == 1 && Unsaved(r.questions[0]) == Unsaved(q)
    ensures q.id != 0 ==> r.questions[0].id == q.id && r.nextQuestionId == nextQuestionId
    ensures q.id == 0 ==> r.questions[0].id == nextQuestionId && r.nextQuestionId == nextQuestionId + 1
    ensures nextOptionId <= r.nextOptionId
    ensures OptionIdsSaved(r.questions[0], q, nextOptionId, r.nextOptionId)
  {
    var id := if q.id == 0 then nextQuestionId else q.id;
    var next := if q.id == 0 then nextQuestionId + 1 else nextQuestionId;
    if q.answerOptions.None? then
      SavedQuestions([q.(id := id)], next, nextOptionId)
    else
      var os := SaveOptions(q.answerOptions.value, nextOptionId);
      var saved := q.(id := id, answerOptions := Some(os.0));
      assert OptionsOf(Unsaved(saved)) == OptionsOf(Unsaved(q));
      SavedQuestions([saved], next, os.1)
  }

  /**
   * `saved` is `q` after `save` with the question ids in [loQ, hiQ) and the
   * option ids in [loO, hiO) still free: only ids change, a saved row keeps
   * its id and a new one (id 0) takes a free one.
   */
  ghost predicate QuestionSaved(saved: Question, q: Question, loQ: int, hiQ: int, loO: int, hiO: int) {
    Unsaved(saved) == Unsaved(q) &&
    (q.id != 0 ==> saved.id == q.id) &&
    (q.id == 0 ==> loQ <= saved.id < hiQ) &&
    OptionIdsSaved(saved, q, loO, hiO)
  }

  /** A question saved with some free ids was saved with any wider range of free ids. */
  lemma QuestionSavedWiden(saved: Question, q: Question, loQ: int, hiQ: int, loO: int, hiO: int,
                           loQ': int, hiQ': int, loO': int, hiO': int)
    requires QuestionSaved(saved, q, loQ, hiQ, loO, hiO)
    requires loQ' <= loQ && hiQ <= hiQ' && loO' <= loO && hiO <= hiO'
    ensures QuestionSaved(saved, q, loQ', hiQ', loO', hiO')
  {
  }

  /**
   * `save` of a list of questions, in order: every new question (id 0) and
   * every new option takes the next id of its table. `SavedQuestionsSpec`
   * states what each saved question is, and `SavedIdsIncrease` that the ids
   * given increase along the list.
   */
  function SaveQuestions(qs: seq<Question>, nextQuestionId: int, nextOptionId: int): (r: SavedQuestions)
    ensures nextQuestionId <= r.nextQuestionId && nextOptionId <= r.nextOptionId
    ensures |r.questions| == |qs|
  {
    if qs == [] then SavedQuestions([], nextQuestionId, nextOptionId)
    else
      var first := SaveQuestion(qs[0], nextQuestionId, nextOptionId);
      var rest := SaveQuestions(qs[1..], first.nextQuestionId, first.nextOptionId);
      SavedQuestions(first.questions + rest.questions, rest.nextQuestionId, rest.nextOptionId)
  }

  /** Each saved question is its original with only ids changed, new ids taken from the free range. */
  lemma {:induction false} SavedQuestionsSpec(qs: seq<Question>, nextQuestionId: int, nextOptionId: int)
    ensures var r := SaveQuestions(qs, nextQuestionId, nextOptionId);
      forall i :: 0 <= i < |qs| ==>
        QuestionSaved(r.questions[i], qs[i], nextQuestionId, r.nextQuestionId, nextOptionId, r.nextOptionId)
  {
    if qs != [] {
      var r := SaveQuestions(qs, nextQuestionId, nextOptionId);
      var first := SaveQuestion(qs[0], nextQuestionId, nextOptionId);
      var rest := SaveQuestions(qs[1..], first.nextQuestionId, first.nextOptionId);
      SavedQuestionsSpec(qs[1..], first.nextQuestionId, first.nextOptionId);
      assert r.questions == first.questions + rest.questions;
      forall i | 0 <= i < |qs|
        ensures QuestionSaved(r.questions[i], qs[i], nextQuestionId, r.nextQuestionId, nextOptionId, r.nextOptionId)
      {
        if i == 0 {
          QuestionSavedWiden(first.questions[0], qs[0], nextQuestionId, first.nextQuestionId, nextOptionId,
            first.nextOptionId, nextQuestionId, r.nextQuestionId, nextOptionId, r.nextOptionId);
        } else {
          assert r.questions[i] == rest.questions[i - 1] && qs[i] == qs[1..][i - 1];
          QuestionSavedWiden(rest.questions[i - 1], qs[1..][i - 1], first.nextQuestionId, rest.nextQuestionId,
            first.nextOptionId, rest.nextOptionId, nextQuestionId, r.nextQuestionId, nextOptionId, r.nextOptionId);
        }
      }
    }
  }

  /** Every new question takes a question id from the range the counter moved over. */
  lemma SavedQuestionIdsInRange(qs: seq<Question>, nextQuestionId: int, nextOptionId: int)
    ensures var r := SaveQuestions(qs, nextQuestionId, nextOptionId);
      forall i :: 0 <= i < |qs| && qs[i].id == 0 ==> nextQuestionId <= r.questions[i].id < r.nextQuestionId
  {
    var r := SaveQuestions(qs, nextQuestionId, nextOptionId);
    SavedQuestionsSpec(qs, nextQuestionId, nextOptionId);
    forall i | 0 <= i < |qs| && qs[i].id == 0
      ensures nextQuestionId <= r.questions[i].id < r.nextQuestionId
    {
      assert QuestionSaved(r.questions[i], qs[i], nextQuestionId, r.nextQuestionId, nextOptionId, r.nextOptionId);
    }
  }

  /** The question ids `save` gives increase along the list. */
  lemma {:induction false} SavedIdsIncrease(qs: seq<Question>, nextQuestionId: int, nextOptionId: int)
    ensures var r := SaveQuestions(qs, nextQuestionId, nextOptionId).questions;
      forall i, j :: 0 <= i < j < |qs| && qs[i].id == 0 && qs[j].id == 0 ==> r[i].id < r[j].id
  {
    if qs != [] {
      var first := SaveQuestion(qs[0], nextQuestionId, nextOptionId);
      var rest := SaveQuestions(qs[1..], first.nextQuestionId, first.nextOptionId);
      SavedIdsIncrease(qs[1..], first.nextQuestionId, first.nextOptionId);
      SavedQuestionIdsInRange(qs[1..], first.nextQuestionId, first.nextOptionId);
      var all := first.questions + rest.questions;
      assert all == SaveQuestions(qs, nextQuestionId, nextOptionId).questions;
      assert forall i :: 1 <= i < |qs| ==> all[i] == rest.questions[i - 1] && qs[i] == qs[1..][i - 1];
    }
  }

  /** Every new option takes an option id from the range the counter moved over. */
  lemma SavedOptionIdsInRange(qs: seq<Question>, nextQuestionId: int, nextOptionId: int)
    ensures var r := SaveQuestions(qs, nextQuestionId, nextOptionId);
      forall i :: 0 <= i < |qs| ==> |OptionsOf(r.questions[i])| == |OptionsOf(qs[i])|
    ensures var r := SaveQuestions(qs, nextQuestionId, nextOptionId);
      forall i, k :: 0 <= i < |qs| && 0 <= k < |OptionsOf(qs[i])| && OptionsOf(qs[i])[k].id == 0 ==>
        nextOptionId <= OptionsOf(r.questions[i])[k].id < r.nextOptionId
  {
    var r := SaveQuestions(qs, nextQuestionId, nextOptionId);
    SavedQuestionsSpec(qs, nextQuestionId, nextOptionId);
    forall i | 0 <= i < |qs|
      ensures |OptionsOf(r.questions[i])| == |OptionsOf(qs[i])|
      ensures forall k :: 0 <= k < |OptionsOf(qs[i])| && OptionsOf(qs[i])[k].id == 0 ==>
        nextOptionId <= OptionsOf(r.questions[i])[k].id < r.nextOptionId
    {
      assert QuestionSaved(r.questions[i], qs[i], nextQuestionId, r.nextQuestionId, nextOptionId, r.nextOptionId);
    }
  }

  /** The option ids `save` gives increase across questions: an earlier question's new options come first. */
  lemma {:induction false} SavedOptionIdsIncrease(qs: seq<Question>, nextQuestionId: int, nextOptionId: int)
    ensures var r := SaveQuestions(qs, nextQuestionId, nextOptionId).questions;
      forall i, j :: 0 <= i < j < |qs| ==> NewOptionsBefore(r[i], qs[i], r[j], qs[j])
  {
    if qs != [] {
      var first := SaveQuestion(qs[0], nextQuestionId, nextOptionId);
      var rest := SaveQuestions(qs[1..], first.nextQuestionId, first.nextOptionId);
      SavedOptionIdsIncrease(qs[1..], first.nextQuestionId, first.nextOptionId);
      SavedOptionIdsInRange(qs[1..], first.nextQuestionId, first.nextOptionId);
      var all := first.questions + rest.questions;
      assert all == SaveQuestions(qs, nextQuestionId, nextOptionId).questions;
      assert forall i :: 1 <= i < |qs| ==> all[i] == rest.questions[i - 1] && qs[i] == qs[1..][i - 1];
      forall j | 1 <= j < |qs|
        ensures NewOptionsBefore(all[0], qs[0], all[j], qs[j])
      {
        assert OptionIdsSaved(first.questions[0], qs[0], nextOptionId, first.nextOptionId);
      }
    }
  }

  /** Every question and option id in the list is a saved id, below the next free one. */
  ghost predicate IdsBelow(qs: seq<Question>, nextQuestionId: int, nextOptionId: int) {
    forall j :: 0 <= j < |qs| ==>
      1 <= qs[j].id < nextQuestionId &&
      forall k :: 0 <= k < |OptionsOf(qs[j])| ==> 1 <= OptionsOf(qs[j])[k].id < nextOptionId
  }

  /**
   * The questions got fresh ids from `save`: question ids in [loQ, hiQ) and
   * option ids in [loO, hiO), increasing along the list, so no two are equal.
   */
  ghost predicate FreshIds(qs: seq<Question>, loQ: int, hiQ: int, loO: int, hiO: int) {
    (forall i :: 0 <= i < |qs| ==> loQ <= qs[i].id < hiQ) &&
    (forall i, j :: 0 <= i < j < |qs| ==> qs[i].id < qs[j].id) &&
    (forall i, k :: 0 <= i < |qs| && 0 <= k < |OptionsOf(qs[i])| ==> loO <= OptionsOf(qs[i])[k].id < hiO) &&
    (forall i, k, l :: 0 <= i < |qs| && 0 <= k < l < |OptionsOf(qs[i])| ==>
      OptionsOf(qs[i])[k].id < OptionsOf(qs[i])[l].id) &&
    (forall i, j :: 0 <= i < j < |qs| ==> OptionIdsBefore(qs[i], qs[j]))
  }

  /** Every option id of the first question is smaller than every option id of the second. */
  ghost predicate OptionIdsBefore(a: Question, b: Question) {
    forall k, l :: 0 <= k < |OptionsOf(a)| && 0 <= l < |OptionsOf(b)| ==> OptionsOf(a)[k].id < OptionsOf(b)[l].id
  }

  /** No id in the list has been given yet: every question and option id is 0. */
  ghost predicate AllUnsaved(qs: seq<Question>) {
    forall i :: 0 <= i < |qs| ==>
      qs[i].id == 0 && forall k :: 0 <= k < |OptionsOf(qs[i])| ==> OptionsOf(qs[i])[k].id == 0
  }

  /** `save` changes nothing but ids. */
  lemma SavedOnlyIds(qs: seq<Question>, nextQuestionId: int, nextOptionId: int)
    ensures var r := SaveQuestions(qs, nextQuestionId, nextOptionId).questions;
      forall i :: 0 <= i < |qs| ==> Unsaved(r[i]) == Unsaved(qs[i])
  {
    var r := SaveQuestions(qs, nextQuestionId, nextOptionId);
    SavedQuestionsSpec(qs, nextQuestionId, nextOptionId);
    forall i | 0 <= i < |qs|
      ensures Unsaved(r.questions[i]) == Unsaved(qs[i])
    {
      assert QuestionSaved(r.questions[i], qs[i], nextQuestionId, r.nextQuestionId, nextOptionId, r.nextOptionId);
    }
  }

  /** A question without ids, once saved, has its ids in the free ranges, its option ids increasing. */
  lemma SavedNewQuestion(saved: Question, q: Question, loQ: int, hiQ: int, loO: int, hiO: int)
    requires QuestionSaved(saved, q, loQ, hiQ, loO, hiO)
    requires q.id == 0 && forall k :: 0 <= k < |OptionsOf(q)| ==> OptionsOf(q)[k].id == 0
    ensures loQ <= saved.id < hiQ && |OptionsOf(saved)| == |OptionsOf(q)|
    ensures forall k :: 0 <= k < |OptionsOf(saved)| ==> loO <= OptionsOf(saved)[k].id < hiO
    ensures forall k, l :: 0 <= k < l < |OptionsOf(saved)| ==> OptionsOf(saved)[k].id < OptionsOf(saved)[l].id
  {
    assert OptionIdsSaved(saved, q, loO, hiO);
  }

  /** Saving questions none of which has an id gives each of them fresh ids. */
  lemma SavedNewFresh(qs: seq<Question>, nextQuestionId: int, nextOptionId: int)
    requires AllUnsaved(qs)
    ensures var r := SaveQuestions(qs, nextQuestionId, nextOptionId);
      FreshIds(r.questions, nextQuestionId, r.nextQuestionId, nextOptionId, r.nextOptionId)
  {
    var r := SaveQuestions(qs, nextQuestionId, nextOptionId);
    var rs := r.questions;
    SavedQuestionsSpec(qs, nextQuestionId, nextOptionId);
    SavedIdsIncrease(qs, nextQuestionId, nextOptionId);
    SavedOptionIdsIncrease(qs, nextQuestionId, nextOptionId);
    forall i | 0 <= i < |qs|
      ensures nextQuestionId <= rs[i].id < r.nextQuestionId
      ensures |OptionsOf(rs[i])| == |OptionsOf(qs[i])|
      ensures forall k :: 0 <= k < |OptionsOf(rs[i])| ==> nextOptionId <= OptionsOf(rs[i])[k].id < r.nextOptionId
      ensures forall k, l :: 0 <= k < l < |OptionsOf(rs[i])| ==> OptionsOf(rs[i])[k].id < OptionsOf(rs[i])[l].id
    {
      assert QuestionSaved(rs[i], qs[i], nextQuestionId, r.nextQuestionId, nextOptionId, r.nextOptionId);
      SavedNewQuestion(rs[i], qs[i], nextQuestionId, r.nextQuestionId, nextOptionId, r.nextOptionId);
    }
    forall i, j | 0 <= i < j < |qs|
      ensures OptionIdsBefore(rs[i], rs[j])
    {
      assert NewOptionsBefore(rs[i], qs[i], rs[j], qs[j]);
    }
  }

  /** Inactive questions followed by active ones: only the active ones are shown. */
  lemma ActiveSuffix(qs: seq<Question>, n: nat)
    requires n <= |qs|
    requires forall i :: 0 <= i < n ==> !qs[i].active
    requires forall i :: n <= i < |qs| ==> qs[i].active
    ensures TestMapper.ActiveQuestions(qs) == qs[n..]
  {
    assert qs == qs[..n] + qs[n..];
    TestMapper.ActiveQuestionsAppend(qs[..n], qs[n..]);
    NoneActive(qs[..n]);
    AllActive(qs[n..]);
  }

  /** Questions with fresh ids from positive counters carry saved ids below the new counters. */
  lemma FreshIdsBelow(qs: seq<Question>, loQ: int, hiQ: int, loO: int, hiO: int)
    requires FreshIds(qs, loQ, hiQ, loO, hiO) && 1 <= loQ && 1 <= loO
    ensures IdsBelow(qs, hiQ, hiO)
  {
  }

  /** Ids below some counters are below any larger ones, and deactivating questions keeps their ids. */
  lemma IdsBelowDeactivated(qs: seq<Question>, hiQ: int, hiO: int, hiQ': int, hiO': int)
    requires IdsBelow(qs, hiQ, hiO) && hiQ <= hiQ' && hiO <= hiO'
    ensures IdsBelow(qs, hiQ', hiO') && IdsBelow(Deactivated(qs), hiQ', hiO')
  {
    forall j | 0 <= j < |qs|
      ensures Deactivated(qs)[j].id == qs[j].id && OptionsOf(Deactivated(qs)[j]) == OptionsOf(qs[j])
    {
    }
  }

  /** Every test of the table keeps its ids below counters that only grew. */
  lemma TableIdsBelow(tests: seq<Test>, hiQ: int, hiO: int, hiQ': int, hiO': int)
    requires forall i :: 0 <= i < |tests| ==> IdsBelow(QuestionsOf(tests[i]), hiQ, hiO)
    requires hiQ <= hiQ' && hiO <= hiO'
    ensures forall i :: 0 <= i < |tests| ==> IdsBelow(QuestionsOf(tests[i]), hiQ', hiO')
  {
    forall i | 0 <= i < |tests|
      ensures IdsBelow(QuestionsOf(tests[i]), hiQ', hiO')
    {
      IdsBelowDeactivated(QuestionsOf(tests[i]), hiQ, hiO, hiQ', hiO');
    }
  }

  lemma IdsBelowAppend(a: seq<Question>, b: seq<Question>, hiQ: int, hiO: int)
    requires IdsBelow(a, hiQ, hiO) && IdsBelow(b, hiQ, hiO)
    ensures IdsBelow(a + b, hiQ, hiO)
  {
    forall j | 0 <= j < |a + b|
      ensures (a + b)[j] == if j < |a| then a[j] else b[j - |a|]
    {
    }
  }

  /** The questions of a test with their ids cleared. */
  function UnsavedQuestions(qs: seq<Question>): (r: seq<Question>)
    ensures |r| == |qs| && forall i :: 0 <= i < |qs| ==> r[i] == Unsaved(qs[i])
  {
    seq(|qs|, i requires 0 <= i < |qs| => Unsaved(qs[i]))
  }

  /** A table made of old tests and a new one, all with ids below the counters, has all its ids below them. */
  lemma TableIdsChanged(tests: seq<Test>, t: Test, after: seq<Test>, hiQ: int, hiO: int)
    requires forall i :: 0 <= i < |tests| ==> IdsBelow(QuestionsOf(tests[i]), hiQ, hiO)
    requires IdsBelow(QuestionsOf(t), hiQ, hiO)
    requires forall i :: 0 <= i < |after| ==> after[i] == t || (i < |tests| && after[i] == tests[i])
    ensures forall i :: 0 <= i < |after| ==> IdsBelow(QuestionsOf(after[i]), hiQ, hiO)
  {
  }

  /** A test as `save` stores it: its id given, its questions saved with the next free ids. */
  function SavedTest(t: Test, id: int, nextQuestionId: int, nextOptionId: int): Test {
    t.(id := id, questions := Some(SaveQuestions(QuestionsOf(t), nextQuestionId, nextOptionId).questions))
  }

  /** A test built from a request, once saved, is that request's test up to its ids, which are fresh. */
  lemma SavedNewTest(built: Test, request: CreateTestRequest, testType: TestType, id: int,
                     nextQuestionId: int, nextOptionId: int)
    requires AdminMapper.IsNewTest(built, request, testType)
    requires 1 <= nextQuestionId && 1 <= nextOptionId
    ensures var sq := SaveQuestions(QuestionsOf(built), nextQuestionId, nextOptionId);
      var saved := SavedTest(built, id, nextQuestionId, nextOptionId);
      AdminMapper.IsNewTest(saved.(id := 0, questions := Some(UnsavedQuestions(saved.questions.value))), request, testType) &&
      FreshIds(sq.questions, nextQuestionId, sq.nextQuestionId, nextOptionId, sq.nextOptionId) &&
      IdsBelow(sq.questions, sq.nextQuestionId, sq.nextOptionId)
  {
    var questions := QuestionsOf(built);
    var requested := AdminMapper.RequestedQuestions(request);
    forall i | 0 <= i < |questions|
      ensures Unsaved(questions[i]) == questions[i]
      ensures questions[i].id == 0 && forall k :: 0 <= k < |OptionsOf(questions[i])| ==> OptionsOf(questions[i])[k].id == 0
    {
      assert AdminMapper.IsNewQuestion(questions[i], requested[i]);
      UnsavedNew(questions[i], requested[i]);
    }
    var sq := SaveQuestions(questions, nextQuestionId, nextOptionId);
    SavedNewFresh(questions, nextQuestionId, nextOptionId);
    SavedOnlyIds(questions, nextQuestionId, nextOptionId);
    assert UnsavedQuestions(sq.questions) == questions;
    var saved := SavedTest(built, id, nextQuestionId, nextOptionId);
    assert saved.(id := 0, questions := Some(UnsavedQuestions(saved.questions.value))) == built;
    FreshIdsBelow(sq.questions, nextQuestionId, sq.nextQuestionId, nextOptionId, sq.nextOptionId);
  }

  /** Questions that are the requested ones up to their ids stay so when `save` gives them ids. */
  lemma SavedAsRequested(qs: seq<Question>, requested: seq<QuestionRequest>, nextQuestionId: int, nextOptionId: int)
    requires AsRequested(qs, requested)
    ensures AsRequested(SaveQuestions(qs, nextQuestionId, nextOptionId).questions, requested)
  {
    SavedOnlyIds(qs, nextQuestionId, nextOptionId);
  }

  /** An update, once saved with the new questions getting the next free ids, is still an update of the old test. */
  lemma SavedUpdate(before: Test, updated: Test, request: CreateTestRequest, testType: TestType,
                    nextQuestionId: int, nextOptionId: int)
    requires IsUpdate(updated, before, request, testType)
    ensures var n := |before.questions.value|;
      var sq := SaveQuestions(updated.questions.value[n..], nextQuestionId, nextOptionId);
      IsUpdate(updated.(questions := Some(updated.questions.value[..n] + sq.questions)), before, request, testType)
  {
    var n := |before.questions.value|;
    var kept, added := updated.questions.value[..n], updated.questions.value[n..];
    var sq := SaveQuestions(added, nextQuestionId, nextOptionId).questions;
    SavedAsRequested(added, AdminMapper.RequestedQuestions(request), nextQuestionId, nextOptionId);
    var all := kept + sq;
    assert all[..n] == kept && all[n..] == sq;
    forall i | 0 <= i < n
      ensures !all[i].active
    {
      assert all[i] == Deactivated(before.questions.value)[i];
    }
    forall i | n <= i < |all|
      ensures all[i].active
    {
      assert all[i] == sq[i - n];
    }
    ActiveSuffix(all, n);
  }

  /** The new questions of a saved update have fresh ids. */
  lemma SavedUpdateFresh(before: Test, updated: Test, nextQuestionId: int, nextOptionId: int)
    requires before.questions.Some? && updated.questions.Some?
    requires |before.questions.value| <= |updated.questions.value|
    requires AllUnsaved(updated.questions.value[|before.questions.value|..])
    ensures var n := |before.questions.value|;
      var sq := SaveQuestions(updated.questions.value[n..], nextQuestionId, nextOptionId);
      FreshIds((updated.questions.value[..n] + sq.questions)[n..], nextQuestionId, sq.nextQuestionId,
        nextOptionId, sq.nextOptionId)
  {
    var n := |before.questions.value|;
    var sq := SaveQuestions(updated.questions.value[n..], nextQuestionId, nextOptionId);
    SavedNewFresh(updated.questions.value[n..], nextQuestionId, nextOptionId);
    assert (updated.questions.value[..n] + sq.questions)[n..] == sq.questions;
  }

  /** The saved update keeps every id below the new counters: the old ones were, the new ones are fresh. */
  lemma SavedUpdateIdsBelow(before: Test, updated: Test, request: CreateTestRequest, testType: TestType,
                            nextQuestionId: int, nextOptionId: int)
    requires IsUpdate(updated, before, request, testType)
    requires AllUnsaved(updated.questions.value[|before.questions.value|..])
    requires IdsBelow(QuestionsOf(before), nextQuestionId, nextOptionId)
    requires 1 <= nextQuestionId && 1 <= nextOptionId
    ensures var n := |before.questions.value|;
      var sq := SaveQuestions(updated.questions.value[n..], nextQuestionId, nextOptionId);
      IdsBelow(updated.questions.value[..n] + sq.questions, sq.nextQuestionId, sq.nextOptionId)
  {
    var n := |before.questions.value|;
    var kept, added := updated.questions.value[..n], updated.questions.value[n..];
    var sq := SaveQuestions(added, nextQuestionId, nextOptionId);
    SavedNewFresh(added, nextQuestionId, nextOptionId);
    FreshIdsBelow(sq.questions, nextQuestionId, sq.nextQuestionId, nextOptionId, sq.nextOptionId);
    IdsBelowDeactivated(QuestionsOf(before), nextQuestionId, nextOptionId, sq.nextQuestionId, sq.nextOptionId);
    IdsBelowAppend(kept, sq.questions, sq.nextQuestionId, sq.nextOptionId);
  }

  /**
   * The tests table with the id counters: ids are positions + 1, at most one
   * test per type is active, and every saved question and option has an id
   * below the next one its table will give.
   */
  ghost predicate TableValid(tests: seq<Test>, nextQuestionId: int, nextOptionId: int) {
    (forall i :: 0 <= i < |tests| ==> tests[i].id == i + 1) &&
    OneActivePerType(tests) &&
    1 <= nextQuestionId && 1 <= nextOptionId &&
    forall i :: 0 <= i < |tests| ==> IdsBelow(QuestionsOf(tests[i]), nextQuestionId, nextOptionId)
  }

  /**
   * `updateTest`'s update of `existing` followed by `save`: the new questions
   * take the next ids from the counters, which move past them.
   */
  method SavedUpdatedTest(existing: Test, request: CreateTestRequest, testType: TestType,
                          nextQuestionId: int, nextOptionId: int)
    returns (saved: Test, nextQuestionId': int, nextOptionId': int)
    requires existing.questions.Some?
    ensures IsUpdate(saved, existing, request, testType)
    ensures nextQuestionId <= nextQuestionId' && nextOptionId <= nextOptionId'
    ensures FreshIds(saved.questions.value[|existing.questions.value|..], nextQuestionId, nextQuestionId',
      nextOptionId, nextOptionId')
    ensures IdsBelow(QuestionsOf(existing), nextQuestionId, nextOptionId) && 1 <= nextQuestionId && 1 <= nextOptionId ==>
      IdsBelow(QuestionsOf(saved), nextQuestionId', nextOptionId')
  {
    var updated := UpdatedTest(existing, request, testType);
    var n := |existing.questions.value|;
    var savedQuestions := SaveQuestions(updated.questions.value[n..], nextQuestionId, nextOptionId);
    saved := updated.(questions := Some(updated.questions.value[..n] + savedQuestions.questions));
    nextQuestionId', nextOptionId' := savedQuestions.nextQuestionId, savedQuestions.nextOptionId;
    SavedUpdate(existing, updated, request, testType, nextQuestionId, nextOptionId);
    SavedUpdateFresh(existing, updated, nextQuestionId, nextOptionId);
    if IdsBelow(QuestionsOf(existing), nextQuestionId, nextOptionId) && 1 <= nextQuestionId && 1 <= nextOptionId {
      SavedUpdateIdsBelow(existing, updated, request, testType, nextQuestionId, nextOptionId);
    }
  }

  /**
   * `createTest`'s `toTestEntity` followed by `save`: the request's test with
   * the given id, its questions and options given fresh ids from the counters.
   */
  method SavedNewTestFrom(request: CreateTestRequest, testType: TestType, id: int,
                          nextQuestionId: int, nextOptionId: int)
    returns (saved: Test, nextQuestionId': int, nextOptionId': int)
    requires 1 <= nextQuestionId && 1 <= nextOptionId
    ensures saved.id == id && saved.testType == testType && saved.questions.Some?
    ensures AdminMapper.IsNewTest(saved.(id := 0, questions := Some(UnsavedQuestions(saved.questions.value))),
      request, testType)
    ensures nextQuestionId <= nextQuestionId' && nextOptionId <= nextOptionId'
    ensures FreshIds(saved.questions.value, nextQuestionId, nextQuestionId', nextOptionId, nextOptionId')
    ensures IdsBelow(QuestionsOf(saved), nextQuestionId', nextOptionId')
  {
    var built := AdminMapper.ToTestEntity(Some(request), Some(testType));
    var savedQuestions := SaveQuestions(QuestionsOf(built.value), nextQuestionId, nextOptionId);
    saved := SavedTest(built.value, id, nextQuestionId, nextOptionId);
    nextQuestionId', nextOptionId' := savedQuestions.nextQuestionId, savedQuestions.nextOptionId;
    SavedNewTest(built.value, request, testType, id, nextQuestionId, nextOptionId);
  }

  /** Appending a new active test of a type with no active test, its ids below the new counters, keeps the table valid. */
  lemma CreateStep(tests: seq<Test>, saved: Test, nextQuestionId: int, nextOptionId: int,
                   nextQuestionId': int, nextOptionId': int)
    requires TableValid(tests, nextQuestionId, nextOptionId)
    requires ActiveOfType(tests, saved.testType.id).None? && saved.id == |tests| + 1
    requires nextQuestionId <= nextQuestionId' && nextOptionId <= nextOptionId'
    requires IdsBelow(QuestionsOf(saved), nextQuestionId', nextOptionId')
    ensures TableValid(tests + [saved], nextQuestionId', nextOptionId')
  {
    TableIdsBelow(tests, nextQuestionId, nextOptionId, nextQuestionId', nextOptionId');
    TableIdsChanged(tests, saved, tests + [saved], nextQuestionId', nextOptionId');
  }

  /** Replacing test `k` by a saved update of an allowed type keeps the table valid with counters that only grew. */
  lemma UpdateStep(tests: seq<Test>, k: nat, saved: Test, request: CreateTestRequest, testType: TestType,
                   nextQuestionId: int, nextOptionId: int, nextQuestionId': int, nextOptionId': int)
    requires k < |tests| && TableValid(tests, nextQuestionId, nextOptionId)
    requires TypeChangeAllowed(tests, k, testType)
    requires IsUpdate(saved, tests[k], request, testType)
    requires nextQuestionId <= nextQuestionId' && nextOptionId <= nextOptionId'
    requires IdsBelow(QuestionsOf(saved), nextQuestionId', nextOptionId')
    ensures TableValid(tests[k := saved], nextQuestionId', nextOptionId')
  {
    TableIdsBelow(tests, nextQuestionId, nextOptionId, nextQuestionId', nextOptionId');
    TableIdsChanged(tests, saved, tests[k := saved], nextQuestionId', nextOptionId');
    UpdateKeepsOneActive(tests, k, saved);
  }

  // ---------------------------------------------------------------- the catalogue

  class TestCatalog {
    var tests: seq<Test>
    const testTypes: map<int, TestType>
    /** The next id the question and answer-option tables will give. */
    var nextQuestionId: int
    var nextOptionId: int

    /**
     * Ids are positions + 1, types are stored under their id, at most one test
     * per type is active, and every saved question and option has an id below
     * the next one its table will give.
     */
    ghost predicate Valid()
      reads this
    {
      TableValid(tests, nextQuestionId, nextOptionId) &&
      forall k :: k in testTypes ==> testTypes[k].id == k
    }

    constructor(testTypes: map<int, TestType>)
      requires forall k :: k in testTypes ==> testTypes[k].id == k
      ensures Valid()
      ensures this.testTypes == testTypes && tests == [] && nextQuestionId == 1 && nextOptionId == 1
    {
      this.testTypes := testTypes;
      tests := [];
      nextQuestionId, nextOptionId := 1, 1;
    }

    /**
     * `createTest`: on success the new test is appended, active, built from
     * the request, and `save` gives it, its questions and their options fresh
     * ids; otherwise the first failing check is reported and nothing changes.
     */
    method CreateTest(request: CreateTestRequest) returns (r: Result<TestMapper.TestResponse>)
      requires Valid()
      modifies this
      ensures Valid()
      ensures CreateCheck(old(tests), testTypes, request).Err? ==>
        r == Err(CreateCheck(old(tests), testTypes, request).error) && tests == old(tests) &&
        nextQuestionId == old(nextQuestionId) && nextOptionId == old(nextOptionId)
      ensures CreateCheck(old(tests), testTypes, request).Ok? ==>
        var testType := CreateCheck(old(tests), testTypes, request).value;
        var n := |old(tests)|;
        |tests| == n + 1 && tests[..n] == old(tests) && tests[n].id == n + 1 && tests[n].questions.Some? &&
        AdminMapper.IsNewTest(tests[n].(id := 0, questions := Some(UnsavedQuestions(tests[n].questions.value))),
          request, testType) &&
        FreshIds(tests[n].questions.value, old(nextQuestionId), nextQuestionId, old(nextOptionId), nextOptionId) &&
        r == Ok(TestMapper.ToResponse(Some(tests[n])).value)
    {
      var check := CreateCheck(tests, testTypes, request);
      if check.Err? {
        return Err(check.error);
      }
      var saved, nextQuestionId', nextOptionId' :=
        SavedNewTestFrom(request, check.value, |tests| + 1, nextQuestionId, nextOptionId);
      CreateStep(tests, saved, nextQuestionId, nextOptionId, nextQuestionId', nextOptionId');
      tests := tests + [saved];
      nextQuestionId, nextOptionId := nextQuestionId', nextOptionId';
      r := Ok(TestMapper.ToResponse(Some(saved)).value);
    }

    /**
     * `updateTest`: the test at the checked position becomes its update (see
     * `IsUpdate`), with fresh ids for the appended questions and their
     * options; every other test is left alone, and the response shows only
     * the new questions; a failing check changes nothing.
     */
    method UpdateTest(testId: int, request: CreateTestRequest) returns (r: Result<TestMapper.TestResponse>)
      requires Valid()
      modifies this
      ensures Valid()
      ensures UpdateCheck(old(tests), testTypes, testId, request).Err? ==>
        r == Err(UpdateCheck(old(tests), testTypes, testId, request).error) && tests == old(tests) &&
        nextQuestionId == old(nextQuestionId) && nextOptionId == old(nextOptionId)
      ensures UpdateCheck(old(tests), testTypes, testId, request).Ok? ==>
        var target := UpdateCheck(old(tests), testTypes, testId, request).value;
        var k := target.index;
        |tests| == |old(tests)| &&
        (forall i :: 0 <= i < |tests| && i != k ==> tests[i] == old(tests)[i]) &&
        IsUpdate(tests[k], old(tests)[k], request, target.testType) &&
        FreshIds(tests[k].questions.value[|old(tests)[k].questions.value|..],
          old(nextQuestionId), nextQuestionId, old(nextOptionId), nextOptionId) &&
        r == Ok(TestMapper.ToResponse(Some(tests[k])).value)
    {
      var check := UpdateCheck(tests, testTypes, testId, request);
      if check.Err? {
        return Err(check.error);
      }
      var k, testType := check.value.index, check.value.testType;
      var saved, nextQuestionId', nextOptionId' :=
        SavedUpdatedTest(tests[k], request, testType, nextQuestionId, nextOptionId);
      UpdateStep(tests, k, saved, request, testType, nextQuestionId, nextOptionId, nextQuestionId', nextOptionId');
      tests := tests[k := saved];
      nextQuestionId, nextOptionId := nextQuestionId', nextOptionId';
      r := Ok(TestMapper.ToResponse(Some(saved)).value);
    }
  }
}
