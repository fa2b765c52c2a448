/**
 * `AdminMapper`: turns the administrator's requests into entities and
 * entities into the administrator's responses. The list-building conversions
 * (`toTestEntity`, `toQuestionEntity`) are loops, as in the service; entities
 * that have not been saved yet carry id 0.
 */
module AdminMapper {
  import opened Common
  import opened Entities

  datatype TestListResponse = TestListResponse(
    id: int,
    name: string,
    testType: string,
    questionsCount: int,
    active: bool)

  datatype CareerResponse = CareerResponse(
    id: int,
    name: string,
    description: Option<string>,
    durationSemesters: Option<int>,
    graduateProfile: Option<string>,
    jobField: Option<string>,
    averageSalary: Option<int>)

  datatype SpecializationAreaResponse = SpecializationAreaResponse(
    id: int,
    name: string,
    description: Option<string>,
    applicationFields: Option<string>,
    jobProjection: Option<string>,
    careerId: int,
    careerName: string)

  // ---------------------------------------------------------------- tests

  /** `toTestListResponse`: the question count is 0 for a `null` list. */
  function ToTestListResponse(entity: Option<Test>): (r: Option<TestListResponse>)
    ensures r.None? <==> entity.None?
    ensures r.Some? ==>
      var t := entity.value;
      r.value.id == t.id && r.value.name == t.name && r.value.testType == t.testType.name &&
      r.value.active == t.active &&
      r.value.questionsCount == (if t.questions.Some? then |t.questions.value| else 0)
  {
    match entity
    case None => None
    case Some(t) =>
      Some(TestListResponse(t.id, t.name, t.testType.name,
        if t.questions.Some? then |t.questions.value| else 0, t.active))
  }

  /** The option a request describes: text, weight and category copied as they are, `null` included. */
  function NewOption(dto: AnswerOptionRequest): (o: AnswerOption)
    ensures o.id == 0 && o.optionText == dto.optionText
    ensures o.weightValue == dto.weightValue && o.category == dto.category
  {
    AnswerOption(0, dto.optionText, dto.weightValue, dto.category)
  }

  /** `toAnswerOptionEntity`: `null` when either argument is. */
  function ToAnswerOptionEntity(dto: Option<AnswerOptionRequest>, question: Option<Question>)
    : (r: Option<AnswerOption>)
    ensures r.None? <==> dto.None? || question.None?
    ensures r.Some? ==> r.value == NewOption(dto.value)
  {
    if dto.None? || question.None? then None else Some(NewOption(dto.value))
  }

  /** The requested options of a question request, none for a `null` list. */
  function RequestedOptions(dto: QuestionRequest): seq<AnswerOptionRequest> {
    dto.options.GetOrElse([])
  }

  /** The question a request describes: active, with its options mapped one-to-one in order. */
  ghost predicate IsNewQuestion(q: Question, dto: QuestionRequest) {
    q.id == 0 && q.questionText == dto.questionText && q.orderNumber == dto.orderNumber &&
    q.active && q.answerOptions.Some? &&
    |q.answerOptions.value| == |RequestedOptions(dto)| &&
    forall k :: 0 <= k < |RequestedOptions(dto)| ==>
      q.answerOptions.value[k] == NewOption(RequestedOptions(dto)[k])
  }

  /** The loop of `toQuestionEntity` for a present request. */
  method BuildQuestion(dto: QuestionRequest) returns (q: Question)
    ensures IsNewQuestion(q, dto)
  {
    var requested := RequestedOptions(dto);
    var options: seq<AnswerOption> := [];
    for k := 0 to |requested|
      invariant |options| == k
      invariant forall m :: 0 <= m < k ==> options[m] == NewOption(requested[m])
    {
      options := options + [NewOption(requested[k])];
    }
    q := Question(0, dto.questionText, dto.orderNumber, true, Some(options));
  }

  /** `toQuestionEntity`: `null` when either argument is. */
  method ToQuestionEntity(dto: Option<QuestionRequest>, test: Option<Test>) returns (r: Option<Question>)
    ensures r.None? <==> dto.None? || test.None?
    ensures r.Some? ==> IsNewQuestion(r.value, dto.value)
  {
    if dto.None? || test.None? {
      return None;
    }
    var q := BuildQuestion(dto.value);
    return Some(q);
  }

  /** The requested questions of a test request, none for a `null` list. */
  function RequestedQuestions(dto: CreateTestRequest): seq<QuestionRequest> {
    dto.questions.GetOrElse([])
  }

  /**
   * The test a request describes: active, of the given type, with the request's
   * name, description and number of questions to show, and one new question per
   * requested question, in the same order.
   */
  ghost predicate IsNewTest(t: Test, dto: CreateTestRequest, testType: TestType) {
    t.id == 0 && t.testType == testType && t.name == dto.name && t.description == dto.description &&
    t.questionsToShow == dto.questionsToShow && t.active && t.questions.Some? &&
    |t.questions.value| == |RequestedQuestions(dto)| &&
    forall k :: 0 <= k < |RequestedQuestions(dto)| ==> IsNewQuestion(t.questions.value[k], RequestedQuestions(dto)[k])
  }

  /** `toTestEntity`: `null` when the request or the type is `null`. */
  method ToTestEntity(dto: Option<CreateTestRequest>, testType: Option<TestType>) returns (r: Option<Test>)
    ensures r.None? <==> dto.None? || testType.None?
    ensures r.Some? ==> IsNewTest(r.value, dto.value, testType.value)
  {
    if dto.None? || testType.None? {
      return None;
    }
    var requested := RequestedQuestions(dto.value);
    var questions: seq<Question> := [];
    for k := 0 to |requested|
      invariant |questions| == k
      invariant forall m :: 0 <= m < k ==> IsNewQuestion(questions[m], requested[m])
    {
      var q := BuildQuestion(requested[k]);
      questions := questions + [q];
    }
    var d := dto.value;
    return Some(Test(0, testType.value, d.name, d.description, d.questionsToShow, true, Some(questions)));
  }

  // ---------------------------------------------------------------- careers

  /** The response for a present career: all of its columns. */
  function CareerResponseOf(c: Career): (r: CareerResponse)
    ensures r.id == c.id && r.name == c.name && r.description == c.description
    ensures r.durationSemesters == c.durationSemesters && r.graduateProfile == c.graduateProfile
    ensures r.jobField == c.jobField && r.averageSalary == c.averageSalary
  {
    CareerResponse(c.id, c.name, c.description, c.durationSemesters, c.graduateProfile,
      c.jobField, c.averageSalary)
  }

  /** `toCareerResponse`. */
  function ToCareerResponse(entity: Option<Career>): (r: Option<CareerResponse>)
    ensures r.None? <==> entity.None?
    ensures r.Some? ==> r.value == CareerResponseOf(entity.value)
  {
    if entity.None? then None else Some(CareerResponseOf(entity.value))
  }

  /** `toCareerEntity`: a new career with the request's columns. */
  function ToCareerEntity(dto: Option<CareerRequest>): (r: Option<Career>)
    ensures r.None? <==> dto.None?
    ensures r.Some? ==> r.value.id == 0
  {
    match dto
    case None => None
    case Some(d) =>
      Some(Career(0, d.name, d.description, d.durationSemesters, d.graduateProfile, d.jobField, d.averageSalary))
  }

  /** A new career reported back carries exactly the columns of the request it was built from. */
  lemma CareerRoundTrip(dto: CareerRequest)
    ensures var r := ToCareerResponse(ToCareerEntity(Some(dto))).value;
      r.name == dto.name && r.description == dto.description &&
      r.durationSemesters == dto.durationSemesters && r.graduateProfile == dto.graduateProfile &&
      r.jobField == dto.jobField && r.averageSalary == dto.averageSalary
  {
  }

  /**
   * `copyToCareerEntity`, as the career it leaves behind: every column but the
   * id taken from the request, or the career untouched when the request is `null`.
   */
  function CopyToCareerEntity(dto: Option<CareerRequest>, entity: Career): (r: Career)
    ensures dto.None? ==> r == entity
    ensures dto.Some? ==> r.id == entity.id && ToCareerEntity(dto) == Some(r.(id := 0))
  {
    match dto
    case None => entity
    case Some(d) =>
      entity.(name := d.name, description := d.description, durationSemesters := d.durationSemesters,
        graduateProfile := d.graduateProfile, jobField := d.jobField, averageSalary := d.averageSalary)
  }

  // ---------------------------------------------------------------- specializations

  /** The response for a present area: its columns and its career's id and name. */
  function SpecializationResponseOf(a: SpecializationArea): (r: SpecializationAreaResponse)
    ensures r.id == a.id && r.name == a.name && r.description == a.description
    ensures r.applicationFields == a.applicationFields && r.jobProjection == a.jobProjection
    ensures r.careerId == a.career.id && r.careerName == a.career.name
  {
    SpecializationAreaResponse(a.id, a.name, a.description, a.applicationFields, a.jobProjection,
      a.career.id, a.career.name)
  }

  /** `toSpecializationResponse`. */
  function ToSpecializationResponse(entity: Option<SpecializationArea>): (r: Option<SpecializationAreaResponse>)
    ensures r.None? <==> entity.None?
    ensures r.Some? ==> r.value == SpecializationResponseOf(entity.value)
  {
    if entity.None? then None else Some(SpecializationResponseOf(entity.value))
  }

  /** `toSpecializationEntity`: a new area of the given career; the request's `careerId` is not read. */
  function ToSpecializationEntity(dto: Option<SpecializationAreaRequest>, career: Option<Career>)
    : (r: Option<SpecializationArea>)
    ensures r.None? <==> dto.None? || career.None?
    ensures r.Some? ==> r.value.id == 0 && r.value.career == career.value
    ensures r.Some? ==> r.value.name == dto.value.name && r.value.description == dto.value.description
    ensures r.Some? ==> r.value.applicationFields == dto.value.applicationFields
    ensures r.Some? ==> r.value.jobProjection == dto.value.jobProjection
  {
    if dto.None? || career.None? then None
    else
      var d := dto.value;
      Some(SpecializationArea(0, career.value, d.name, d.description, d.applicationFields, d.jobProjection))
  }

  /**
   * A new area reported back carries exactly the columns of the request it
   * was built from, and the id and name of the career it was attached to.
   */
  lemma SpecializationRoundTrip(dto: SpecializationAreaRequest, career: Career)
    ensures var r := ToSpecializationResponse(ToSpecializationEntity(Some(dto), Some(career))).value;
      r.name == dto.name && r.description == dto.description &&
      r.applicationFields == dto.applicationFields && r.jobProjection == dto.jobProjection &&
      r.careerId == career.id && r.careerName == career.name
  {
  }

  /**
   * `copyToSpecializationEntity`, as the area it leaves behind: career and
   * columns replaced, id kept; untouched when the request or the career is `null`.
   */
  function CopyToSpecializationEntity(dto: Option<SpecializationAreaRequest>, entity: SpecializationArea,
                                      career: Option<Career>): (r: SpecializationArea)
    ensures dto.None? || career.None? ==> r == entity
    ensures dto.Some? && career.Some? ==>
      r.id == entity.id && ToSpecializationEntity(dto, career) == Some(r.(id := 0))
  {
    if dto.None? || career.None? then entity
    else
      var d := dto.value;
      entity.(career := career.value, name := d.name, description := d.description,
        applicationFields := d.applicationFields, jobProjection := d.jobProjection)
  }
}
