/**
 * Entity and request shapes of the evaluations service. A nullable column or
 * request field is an `Option`; a `BigDecimal` of scale 2 is an `int` number of
 * hundredths; a JPA association to another entity holds that entity's value; a
 * `LocalDateTime` is an `int` timestamp (larger is later). Identifiers are the
 * database-generated ids, 0 on an entity that has not been saved yet.
 */
module Entities {
  import opened Common

  // ---------------------------------------------------------------- tests

  datatype TestType = TestType(id: int, name: string)

  datatype AnswerOption = AnswerOption(
    id: int,
    optionText: string,
    weightValue: Option<int>,
    category: Option<string>)

  /** The weight an option counts for: a null weight counts as 0. */
  function WeightOrZero(o: AnswerOption): int {
    o.weightValue.GetOrElse(0)
  }

  datatype Question = Question(
    id: int,
    questionText: string,
    orderNumber: int,
    active: bool,
    answerOptions: Option<seq<AnswerOption>>)

  datatype Test = Test(
    id: int,
    testType: TestType,
    name: string,
    description: Option<string>,
    questionsToShow: int,
    active: bool,
    questions: Option<seq<Question>>)

  // ---------------------------------------------------------------- catalog

  datatype Career = Career(
    id: int,
    name: string,
    description: Option<string>,
    durationSemesters: Option<int>,
    graduateProfile: Option<string>,
    jobField: Option<string>,
    averageSalary: Option<int>)

  datatype SpecializationArea = SpecializationArea(
    id: int,
    career: Career,
    name: string,
    description: Option<string>,
    applicationFields: Option<string>,
    jobProjection: Option<string>)

  /** A row of `favorite_careers` (T = Career) or `favorite_specializations` (T = SpecializationArea). */
  datatype Favorite<T> = Favorite(
    id: int,
    userId: int,
    target: T,
    notes: Option<string>,
    active: bool)

  /** A row of `career_recommendations`; the table has no uniqueness constraint. */
  datatype CareerRecommendation = CareerRecommendation(
    id: int,
    userId: int,
    career: Career,
    compatibilityPercentage: int)

  /** A row of `specialization_recommendations`; no uniqueness constraint either. */
  datatype SpecializationRecommendation = SpecializationRecommendation(
    id: int,
    userId: int,
    specializationArea: SpecializationArea,
    compatibilityPercentage: int)

  // ---------------------------------------------------------------- evaluations

  /** One entry of a vocational result's `topAreas`: an area and its percentage. */
  datatype AreaPercentage = AreaPercentage(area: string, percentage: int)

  /** One entry of a cognitive result's `cognitiveAreas`: the category's percentage and band. */
  datatype CognitiveArea = CognitiveArea(category: string, score: int, level: string)

  /** The five personality dimensions, in hundredths of a point on a 0-100 scale. */
  datatype Dimensions = Dimensions(
    openness: int,
    conscientiousness: int,
    extraversion: int,
    agreeableness: int,
    neuroticism: int)

  /**
   * The body of a sentiment-analysis answer, as far as the service reads it:
   * `results.documents[0].confidenceScores.{positive,neutral,negative}`. A member
   * that is missing, null or of another JSON type is `None`.
   */
  datatype SentimentResponse = SentimentResponse(results: Option<SentimentResults>)
  datatype SentimentResults = SentimentResults(documents: Option<seq<SentimentDocument>>)
  datatype SentimentDocument = SentimentDocument(
    confidenceScores: Option<ConfidenceScores>,
    sentiment: Option<string>)
  datatype ConfidenceScores = ConfidenceScores(
    positive: Option<real>,
    neutral: Option<real>,
    negative: Option<real>)

  /** The body of a key-phrase answer: `results.documents[0].keyPhrases`. */
  datatype KeyPhraseResponse = KeyPhraseResponse(results: Option<KeyPhraseResults>)
  datatype KeyPhraseResults = KeyPhraseResults(documents: Option<seq<KeyPhraseDocument>>)
  datatype KeyPhraseDocument = KeyPhraseDocument(keyPhrases: Option<seq<string>>)

  /**
   * The map `analyzePersonality` returns; `sentimentAnalysis` is the sentiment
   * body as received (or the default one), null included.
   */
  datatype PersonalityAnalysis = PersonalityAnalysis(
    dimensions: Dimensions,
    description: string,
    keyTraits: seq<string>,
    sentimentAnalysis: Option<SentimentResponse>,
    keyPhrases: seq<string>)

  /** The result data each submit method stores, as a tagged value instead of a JSON text. */
  datatype ResultArtifact =
    | PersonalityResult(analysis: PersonalityAnalysis)
    | VocationalResult(topAreas: seq<AreaPercentage>, recommendations: seq<string>)
    | CognitiveResult(cognitiveAreas: seq<CognitiveArea>, overallLevel: string)

  /** The stored `evaluation_results.result_json`: a readable artifact or a text that does not parse. */
  datatype StoredResult = Stored(artifact: ResultArtifact) | Unreadable

  datatype CompletedEvaluation = CompletedEvaluation(
    id: int,
    userId: int,
    test: Test,
    completionDate: int,
    totalScore: Option<int>,
    evaluationResult: Option<StoredResult>)

  /** A chosen option together with the question it was given for, both as stored. */
  datatype Answered = Answered(question: Question, option: AnswerOption)

  datatype UserAnswer = UserAnswer(evaluationId: int, question: Question, option: AnswerOption)

  datatype VocationalArea = VocationalArea(id: int, name: string)

  datatype AreaResult = AreaResult(
    id: int,
    evaluationId: int,
    vocationalArea: VocationalArea,
    percentage: int,
    ranking: int)

  // ---------------------------------------------------------------- requests

  datatype AnswerOptionRequest = AnswerOptionRequest(
    optionText: string,
    weightValue: Option<int>,
    category: Option<string>)

  datatype QuestionRequest = QuestionRequest(
    questionText: string,
    orderNumber: int,
    options: Option<seq<AnswerOptionRequest>>)

  datatype CreateTestRequest = CreateTestRequest(
    name: string,
    description: Option<string>,
    testTypeId: int,
    questionsToShow: int,
    questions: Option<seq<QuestionRequest>>)

  datatype CareerRequest = CareerRequest(
    name: string,
    description: Option<string>,
    durationSemesters: Option<int>,
    graduateProfile: Option<string>,
    jobField: Option<string>,
    averageSalary: Option<int>)

  datatype SpecializationAreaRequest = SpecializationAreaRequest(
    name: string,
    description: Option<string>,
    applicationFields: Option<string>,
    jobProjection: Option<string>,
    careerId: int)

  datatype FavoriteCareerRequest = FavoriteCareerRequest(careerId: int, notes: Option<string>)

  datatype FavoriteSpecializationRequest = FavoriteSpecializationRequest(
    specializationAreaId: int,
    notes: Option<string>)

  datatype UserAnswerRequest = UserAnswerRequest(questionId: int, optionId: int)

  datatype SubmitTestRequest = SubmitTestRequest(testId: int, answers: seq<UserAnswerRequest>)
}
