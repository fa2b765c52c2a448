# Evaluations API: a verified model of its scoring, recommendation and error-mapping core

The evaluations service of a vocational-guidance platform lets a user take
three psychometric tests, scores the answers, stores a result for each
completed evaluation, and uses those results to recommend careers and
specialization areas. This project models, in Dafny, the parts of that
service that compute something:

- **Scoring** (`vocational.dfy`, `cognitive.dfy`, `personality.dfy`,
  `decimal.dfy`, `ranking.dfy`). The vocational-interest test sums option
  weights per category, turns each sum into a percentage of the total with
  two decimals rounded half up, and keeps the five best areas. The
  cognitive-skills test scores each category as a percentage of the best
  weight a question offers in it and bands it as `bajo`, `medio` or `alto`.
  The personality test joins the answer texts, asks a text-analysis service
  for sentiment and key phrases, and derives five dimensions from them.
- **Submitting a test** (`evaluation_service.dfy`). The checks a submit
  makes, the rows it writes (evaluation, answers, result, area results,
  rankings), the history and detail queries, as a class over its tables.
- **Recommendations** (`recommendations.dfy`, `careers.dfy`,
  `specializations.dfy`). Gathering the latest result of each test kind,
  the one-hour cache, the stored recommendations, and the call to the
  ranking service, whose answer is matched against the catalogue and stored.
- **Favourites and test administration** (`favorites.dfy`, `test_admin.dfy`,
  and the mappers `admin_mapper.dfy`, `test_mapper.dfy`,
  `career_mapper.dfy`, `specialization_mapper.dfy`).
- **Community data** (`social_media.dfy`). The Reddit searches, the
  extraction of posts and totals in 32-bit arithmetic, and the summaries
  built from them.
- **Error responses** (`error_handler.dfy`). The mapping of every exception
  the controllers let through to an HTTP status and a JSON body.

Shared definitions live in `common.dfy` (strings, 32-bit integers, sums,
paging) and `entities.dfy` (the persisted entities and requests).

Money-like and percentage values, which the service holds as `BigDecimal`
with scale 2, are integers counting hundredths. Java `int` arithmetic is
wrapped explicitly in the Reddit totals; the scoring sums are unbounded
(see "Left out"). Integer division is Java's, truncating toward zero. The text-analysis, ranking and Reddit
services, the users directory, the clock and the order in which a
`HashMap` is iterated are parameters of the operations that use them.

A few points where the code is easy to misread:

- A submit checks that the test exists, is of the operation's kind and has
  one answer per question shown. It does not check that the test is active.
- The vocational areas are sorted by percentage only. Equal percentages
  keep the map's iteration order; there is no tie-break by name.
- Levels are the Spanish `bajo`, `medio` and `alto`, with bounds 40 and 70.
- Stored recommendations are served whatever their age. Only the cache
  entry expires, one hour after it is made.

## Model

| member | source | states |
|---|---|---|
| Decimal.RoundHalfUp | src/main/java/compass/career/evaluationsapi/service/EvaluationServiceImpl.java:221-225 | `divide(…, 2, ROUND_HALF_UP)`: the result is within half a unit of the exact quotient, an exact tie goes away from zero, and the sign of the dividend is kept |
| Decimal.RoundHalfUpMonotone | src/main/java/compass/career/evaluationsapi/service/EvaluationServiceImpl.java:221-225 | rounding half-up never reverses the order of two dividends |
| Decimal.RoundHalfUpExact | src/main/java/compass/career/evaluationsapi/service/EvaluationServiceImpl.java:221-225 | an exact quotient is returned unchanged by the rounding |
| Decimal.RoundHalfUpBetween | src/main/java/compass/career/evaluationsapi/service/EvaluationServiceImpl.java:221-225 | a quotient whose exact value lies in [lo, hi] still lies there after rounding |
| Decimal.PercentInRange | src/main/java/compass/career/evaluationsapi/service/EvaluationServiceImpl.java:193-195 | a part of a whole, as a percentage at scale 2 (0 when the whole is not positive), lies between 0.00 and 100.00 |
| Decimal.PercentOfWhole | src/main/java/compass/career/evaluationsapi/service/EvaluationServiceImpl.java:331-333 | a whole is exactly 100.00 percent of itself |
| Decimal.MeanBetween | src/main/java/compass/career/evaluationsapi/service/EvaluationServiceImpl.java:343-348 | the rounded mean of amounts that all lie in [lo, hi] lies in [lo, hi] |
| Decimal.JavaDiv | src/main/java/compass/career/evaluationsapi/service/SocialMediaApiServiceImpl.java:149 | Java's `int` division: the remainder has the dividend's sign and is smaller than the divisor |
| Decimal.JavaDivNonNegative | src/main/java/compass/career/evaluationsapi/service/SocialMediaApiServiceImpl.java:149 | for a non-negative dividend, truncating division equals floor division |
| Decimal.JavaDivNegativeExample | src/main/java/compass/career/evaluationsapi/service/SocialMediaApiServiceImpl.java:149 | for a negative dividend the two divisions differ (-7 / 2 truncates to -3, not -4) |
| Vocational.TallyIsCategorySum | src/main/java/compass/career/evaluationsapi/service/EvaluationServiceImpl.java:169-187 | the area map has exactly the categories of the chosen options, each mapped to the total weight of its options (null weights count as 0) |
| Vocational.TotalIsCategorizedWeight | src/main/java/compass/career/evaluationsapi/service/EvaluationServiceImpl.java:189 | `totalScore` is the total weight of all categorised chosen options, whatever the map's iteration order |
| Vocational.CategorySumBounded | src/main/java/compass/career/evaluationsapi/service/EvaluationServiceImpl.java:182-189 | with non-negative weights, each area's sum lies between 0 and the total |
| Vocational.Percentages | src/main/java/compass/career/evaluationsapi/service/EvaluationServiceImpl.java:190-197 | one entry per area, in map order, each holding the area's share of the total as a percentage rounded half-up to two decimals |
| Vocational.TopAreasSpec | src/main/java/compass/career/evaluationsapi/service/EvaluationServiceImpl.java:199-202 | the kept areas number min(5, areas); their percentages do not increase; each is an area of the map with its own percentage; no area appears twice |
| Vocational.TopAreasBest | src/main/java/compass/career/evaluationsapi/service/EvaluationServiceImpl.java:199-202 | no area that is left out has a higher percentage than any kept area |
| Vocational.ScoresInRange | src/main/java/compass/career/evaluationsapi/service/EvaluationServiceImpl.java:190-225 | with non-negative weights, every kept percentage and the evaluation's average score lie in [0.00, 100.00] |
| Vocational.GenerateRecommendations | src/main/java/compass/career/evaluationsapi/service/EvaluationServiceImpl.java:464-474 | the loop yields one advice line per kept area, naming that area, in ranking order |
| Cognitive.MaxMatching | src/main/java/compass/career/evaluationsapi/service/EvaluationServiceImpl.java:316-320 | absent exactly when no option has the category; otherwise it is the weight of a matching option and no matching option weighs more |
| Cognitive.TalliesShareKeys | src/main/java/compass/career/evaluationsapi/service/EvaluationServiceImpl.java:311-324 | the score map and the maximum map have the same categories: exactly those of the answers whose option has both a category and a weight |
| Cognitive.ScoreWithinMax | src/main/java/compass/career/evaluationsapi/service/EvaluationServiceImpl.java:311-330 | when every counted option belongs to its question and weighs at least 0, each category's score lies between 0 and its maximum |
| Cognitive.DetermineLevel | src/main/java/compass/career/evaluationsapi/service/EvaluationServiceImpl.java:454-462 | "bajo" iff the score is at most 40.00, "medio" iff it lies in (40.00, 70.00], "alto" iff it is above 70.00 |
| Cognitive.CognitiveAreas | src/main/java/compass/career/evaluationsapi/service/EvaluationServiceImpl.java:327-341 | one entry per category, in map order, holding the score as a percentage of the maximum (0 when the maximum is not positive) and that percentage's band |
| Cognitive.CognitiveScoresInRange | src/main/java/compass/career/evaluationsapi/service/EvaluationServiceImpl.java:327-355 | for consistent answers every category percentage and the overall score lie in [0.00, 100.00], and the overall level is the overall score's band |
| Cognitive.NoCountedAnswers | src/main/java/compass/career/evaluationsapi/service/EvaluationServiceImpl.java:343-355 | with no counted answer the result has no category, a score of 0 and the level "bajo" |
| Evaluations.CheckRequest | src/main/java/compass/career/evaluationsapi/service/EvaluationServiceImpl.java:63-77 | passes exactly when the user exists, the test exists, is of the operation's type and has as many answers as questions shown; each failure gives that check's error, in the source's order |
| Evaluations.ResolveAllSpec | src/main/java/compass/career/evaluationsapi/service/EvaluationServiceImpl.java:86-91 | answer resolution succeeds exactly when every answer's question and option exist, and then yields them in request order |
| Evaluations.ResolveAllStops | src/main/java/compass/career/evaluationsapi/service/EvaluationServiceImpl.java:86-91 | resolution fails with the error of the first answer that does not resolve |
| Evaluations.ResolveAllSucceeds | src/main/java/compass/career/evaluationsapi/service/EvaluationServiceImpl.java:86-91 | when every answer resolves, resolution yields exactly those answers |
| Evaluations.AnswerRows | src/main/java/compass/career/evaluationsapi/service/EvaluationServiceImpl.java:93-97 | one `user_answers` row per answer, in order, linking the evaluation to the question and the chosen option |
| Evaluations.ResponsesCoverAnswers | src/main/java/compass/career/evaluationsapi/service/EvaluationServiceImpl.java:85-100 | every answered question has its key in the responses map |
| Evaluations.ResponsesOnlyAnswers | src/main/java/compass/career/evaluationsapi/service/EvaluationServiceImpl.java:85-100 | every key of the responses map belongs to an answered question |
| Evaluations.ResponsesKeys | src/main/java/compass/career/evaluationsapi/service/EvaluationServiceImpl.java:99 | the keys of the responses are exactly "Q" followed by the id of each answered question |
| Evaluations.ResponsesStep | src/main/java/compass/career/evaluationsapi/service/EvaluationServiceImpl.java:99 | one more answer stores its option text under its question's key, replacing any earlier text there |
| Evaluations.AverageScoreInRange | src/main/java/compass/career/evaluationsapi/service/EvaluationServiceImpl.java:435-452 | when every numeric dimension lies in [0.00, 100.00], so does the average score (0 for a missing or empty map) |
| Evaluations.DimensionsAverage | src/main/java/compass/career/evaluationsapi/service/EvaluationServiceImpl.java:102-105 | the score of a personality evaluation is the rounded mean of its five dimensions and lies in [0.00, 100.00] |
| Evaluations.PersonalityScoreInRange | src/main/java/compass/career/evaluationsapi/service/EvaluationServiceImpl.java:102-105 | whatever the text-analysis calls return, the personality score lies in [0.00, 100.00] |
| Evaluations.OwnedBy | src/main/java/compass/career/evaluationsapi/service/EvaluationServiceImpl.java:374-375 | exactly the evaluations of the user; empty iff the user has none |
| Evaluations.HistoryEntries | src/main/java/compass/career/evaluationsapi/mapper/EvaluationMapper.java:13-24 | one history entry per evaluation, in order, each mapped from that evaluation |
| Evaluations.HistorySpec | src/main/java/compass/career/evaluationsapi/service/EvaluationServiceImpl.java:373-384 | fails iff the user has no evaluation; otherwise one entry per evaluation of the user and no other, latest completion first |
| Evaluations.FindById | src/main/java/compass/career/evaluationsapi/service/EvaluationServiceImpl.java:389-390 | a found evaluation has the id and is in the table; nothing is found only when no evaluation has the id |
| Evaluations.AnswersOf | src/main/java/compass/career/evaluationsapi/service/EvaluationServiceImpl.java:396 | exactly the saved answers of that evaluation |
| Evaluations.AnswerDetails | src/main/java/compass/career/evaluationsapi/service/EvaluationServiceImpl.java:398-407 | one detail per saved answer, in order, each copied from that answer |
| Evaluations.DetailSpec | src/main/java/compass/career/evaluationsapi/service/EvaluationServiceImpl.java:388-431 | "Evaluation not found" iff no evaluation has the id; "does not belong" iff it belongs to another user; otherwise the answers are exactly that evaluation's, by ascending question id, with its score and its stored result |
| Evaluations.ResolveVocational | src/main/java/compass/career/evaluationsapi/service/EvaluationServiceImpl.java:169-187 | the loop resolves the answers as the resolution function does and, on success, leaves the area sums equal to the category tally of the chosen options |
| Evaluations.ResolveCognitive | src/main/java/compass/career/evaluationsapi/service/EvaluationServiceImpl.java:298-325 | the loop resolves the answers (reading a counted question's option list) and, on success, leaves the score and maximum maps equal to their tallies |
| Evaluations.RecordResponse | src/main/java/compass/career/evaluationsapi/service/EvaluationServiceImpl.java:99 | recording one answer turns the responses of the earlier answers into the responses of all of them |
| Evaluations.ResolvePersonality | src/main/java/compass/career/evaluationsapi/service/EvaluationServiceImpl.java:85-100 | the loop resolves the answers and, on success, leaves the responses map equal to `Responses` of the answers |
| Evaluations.RankingStep | src/main/java/compass/career/evaluationsapi/service/EvaluationServiceImpl.java:213-218 | saving the next kept area's row, with its percentage and rank i+1, extends the recorded ranking by one |
| Evaluations.AreasStep | src/main/java/compass/career/evaluationsapi/service/EvaluationServiceImpl.java:205-211 | finding or creating the next kept area keeps the invariant: new areas only for kept names that had none, and each row uses the area of its name |
| Evaluations.AreaNamed | src/main/java/compass/career/evaluationsapi/service/EvaluationServiceImpl.java:206 | a found position holds an area of that name; none is found only when no area has the name |
| Evaluations.EvaluationService.constructor | src/main/java/compass/career/evaluationsapi/service/EvaluationServiceImpl.java:26-38 | the service starts with the given catalogue and empty evaluation tables, and its invariant holds |
| Evaluations.EvaluationService.DistinctNamesDistinctIds | src/main/java/compass/career/evaluationsapi/service/EvaluationServiceImpl.java:206 | under the table invariant, areas with different names have different ids |
| Evaluations.EvaluationService.FindOrCreateArea | src/main/java/compass/career/evaluationsapi/service/EvaluationServiceImpl.java:206-211 | returns the area with that name, and appends it first only when no area had that name; no other table changes |
| Evaluations.EvaluationService.AppendAreaResult | src/main/java/compass/career/evaluationsapi/service/EvaluationServiceImpl.java:213-218 | appends exactly one area result with the next id; the invariant, including one result per evaluation and area, is kept |
| Evaluations.EvaluationService.NoResultYet | src/main/java/compass/career/evaluationsapi/service/EvaluationServiceImpl.java:204-219 | while the distinct kept areas are recorded in order, the evaluation has no result for the next area yet |
| Evaluations.EvaluationService.RegisterArea | src/main/java/compass/career/evaluationsapi/service/EvaluationServiceImpl.java:206-211 | the area of kept area i is found or created, and the area invariant holds for the row about to be saved |
| Evaluations.EvaluationService.RecordArea | src/main/java/compass/career/evaluationsapi/service/EvaluationServiceImpl.java:205-218 | one turn of the ranking loop extends the recorded ranking and the registered areas by kept area i |
| Evaluations.EvaluationService.RecordRanking | src/main/java/compass/career/evaluationsapi/service/EvaluationServiceImpl.java:203-219 | after the loop, every kept area has one result row, in ranking order, with its percentage and its rank from 1; areas are created only for names that had none |
| Evaluations.EvaluationService.SaveEvaluation | src/main/java/compass/career/evaluationsapi/service/EvaluationServiceImpl.java:79-97 | appends the evaluation and one answer row per answer; the other tables are unchanged |
| Evaluations.EvaluationService.SubmitVocationalInterestsTest | src/main/java/compass/career/evaluationsapi/service/EvaluationServiceImpl.java:144-248 | a failed check or an unresolved answer returns that error and changes nothing; otherwise it saves the evaluation, its answers and its ranking, scored by the mean of the five best area percentages |
| Evaluations.EvaluationService.SubmitCognitiveSkillsTest | src/main/java/compass/career/evaluationsapi/service/EvaluationServiceImpl.java:272-369 | a failed check or an unresolved answer returns that error and changes nothing; otherwise it saves the evaluation and its answers, with category percentages and bands as the result and their mean as the score |
| Evaluations.EvaluationService.SubmitPersonalityTest | src/main/java/compass/career/evaluationsapi/service/EvaluationServiceImpl.java:62-120 | a failed check or an unresolved answer returns that error and changes nothing; otherwise it saves the evaluation and its answers, with the analysis of the responses as the result and the mean of its dimensions as the score |
| Ranking.SortDesc | src/main/java/compass/career/evaluationsapi/service/EvaluationServiceImpl.java:199-200 | the sorted sequence is a permutation of the input whose keys never increase |
| Ranking.SortDescMembers | src/main/java/compass/career/evaluationsapi/service/EvaluationServiceImpl.java:199-200 | sorting keeps exactly the elements of the input |
| Ranking.Take | src/main/java/compass/career/evaluationsapi/service/EvaluationServiceImpl.java:201 | `limit(k)` keeps a prefix of k elements, or all of them when there are fewer |
| Ranking.TopKSpec | src/main/java/compass/career/evaluationsapi/service/AzureCognitiveServiceImpl.java:300-302 | sorting by descending value and keeping the first k keeps only input elements, and no element left out has a larger value than any element kept |
| Ranking.TopKDominates | src/main/java/compass/career/evaluationsapi/service/AzureCognitiveServiceImpl.java:300-302 | every element kept has a value no smaller than every element left out |
| Vocational.KeptAreas | src/main/java/compass/career/evaluationsapi/service/EvaluationServiceImpl.java:199-201 | every area kept among the top ones is a scored area carrying its own percentage |
| Vocational.LeftOutAreas | src/main/java/compass/career/evaluationsapi/service/EvaluationServiceImpl.java:199-201 | no scored area left out of the top ones has a larger percentage than one kept |
| Vocational.DistinctAreasAfterSort | src/main/java/compass/career/evaluationsapi/service/EvaluationServiceImpl.java:199-201 | the sorted areas remain pairwise distinct |
| Personality.KeptDimensions | src/main/java/compass/career/evaluationsapi/service/AzureCognitiveServiceImpl.java:297-311 | every dimension kept as a key trait is one of the five, carrying its own value |
| Personality.LeftOutDimensions | src/main/java/compass/career/evaluationsapi/service/AzureCognitiveServiceImpl.java:297-311 | no dimension left out of the key traits has a larger value than one kept |
| Recommendations.TestResults | src/main/java/compass/career/evaluationsapi/service/CareerServiceImpl.java:143-169 | a result is found only in an evaluation of the requested type that stores it |
| AdminMapper.CareerResponseOf | src/main/java/compass/career/evaluationsapi/mapper/AdminMapper.java:86-94 | the response copies every column of the career |
| AdminMapper.SpecializationResponseOf | src/main/java/compass/career/evaluationsapi/mapper/AdminMapper.java:128-136 | the response copies the area's columns and its career's id and name |
| AdminMapper.NewOption | src/main/java/compass/career/evaluationsapi/mapper/AdminMapper.java:73-79 | a new option, not yet persisted, whose text, weight and category are copied from the request unchanged |
| Common.Member | src/main/java/compass/career/evaluationsapi/service/SocialMediaApiServiceImpl.java:111-115 | a missing member of a JSON object reads as `null`, a present one as its value |
| Common.ToLower | src/main/java/compass/career/evaluationsapi/service/TestServiceImpl.java:173 | the lower-cased string has the same length, each character lower-cased on its own |
| Common.Trim | src/main/java/compass/career/evaluationsapi/service/AzureCognitiveServiceImpl.java:294 | the trimmed text is no longer than the original and neither starts nor ends with a space or control character |
| Common.TrimKeepsFirst | src/main/java/compass/career/evaluationsapi/service/AzureCognitiveServiceImpl.java:294 | a text starting with a printable character keeps that character first and does not trim to nothing |
| Common.ReplaceChar | src/main/java/compass/career/evaluationsapi/service/SocialMediaApiServiceImpl.java:55 | same length, no occurrence of the replaced character left, every other character in place |
| Common.NatToStringValue | src/main/java/compass/career/evaluationsapi/service/SocialMediaApiServiceImpl.java:170 | the decimal digits written for a count denote that count |
| Common.Int32 | src/main/java/compass/career/evaluationsapi/service/SocialMediaApiServiceImpl.java:141-142 | a Java `int` result lies in [-2^31, 2^31) and equals the exact value whenever that fits |
| Common.Int32SumStep | src/main/java/compass/career/evaluationsapi/service/SocialMediaApiServiceImpl.java:141-142 | a running `int` total stays the 32-bit wrap of the exact sum of what it has added |
| Common.SumBounds | src/main/java/compass/career/evaluationsapi/service/SocialMediaApiServiceImpl.java:149 | a sum of n values in [lo, hi] lies in [n * lo, n * hi] |
| Common.Page | src/main/java/compass/career/evaluationsapi/service/CareerServiceImpl.java:209-217 | a page holds at most `size` items, is empty past the end, and its entry i is item `page * size + i` |
| Common.PageOf | src/main/java/compass/career/evaluationsapi/service/CareerServiceImpl.java:209-217 | item j is entry `j % size` of page `j / size`, so every item lies on a page |
| Personality.ValuesIn | src/main/java/compass/career/evaluationsapi/service/AzureCognitiveServiceImpl.java:32-33 | the response values in the map's iteration order, one per key |
| Personality.CombineResponses | src/main/java/compass/career/evaluationsapi/service/AzureCognitiveServiceImpl.java:31-34 | the builder loop produces every response value followed by ". ", concatenated in iteration order |
| Personality.DottedAppend | src/main/java/compass/career/evaluationsapi/service/AzureCognitiveServiceImpl.java:31-34 | joining two lists of values gives the two joined texts one after the other |
| Personality.DottedStep | src/main/java/compass/career/evaluationsapi/service/AzureCognitiveServiceImpl.java:33 | one more value appends that value and ". " to the text |
| Personality.DottedContainsEach | src/main/java/compass/career/evaluationsapi/service/AzureCognitiveServiceImpl.java:31-34 | every response text occurs in the combined text, followed by ". " |
| Personality.SentimentOrDefault | src/main/java/compass/career/evaluationsapi/service/AzureCognitiveServiceImpl.java:55-92 | a failed sentiment call yields the default result; a call that returns yields its body |
| Personality.KeyPhrasesOrDefault | src/main/java/compass/career/evaluationsapi/service/AzureCognitiveServiceImpl.java:94-131 | a failed key-phrase call yields the default result; a call that returns yields its body |
| Personality.SentimentScoreBounds | src/main/java/compass/career/evaluationsapi/service/AzureCognitiveServiceImpl.java:158-183 | with probability-valued confidences the score lies in [-1, 1], and any body without a readable first document scores 0 |
| Personality.DefaultSentimentScoresZero | src/main/java/compass/career/evaluationsapi/service/AzureCognitiveServiceImpl.java:324-342 | the default sentiment result (0.33/0.34/0.33) gives a score of exactly 0 |
| Personality.CountMatches | src/main/java/compass/career/evaluationsapi/service/AzureCognitiveServiceImpl.java:219-221 | the number of matching phrases is at most the number of phrases |
| Personality.TeamCountsTwice | src/main/java/compass/career/evaluationsapi/service/AzureCognitiveServiceImpl.java:228-237 | a one-line phrase containing "equipo" counts for both extraversion and agreeableness |
| Personality.Clamp | src/main/java/compass/career/evaluationsapi/service/AzureCognitiveServiceImpl.java:223 | the clamped value lies in [0, 100] and equals the input when the input already lies there |
| Personality.Hundredths | src/main/java/compass/career/evaluationsapi/service/AzureCognitiveServiceImpl.java:246-250 | `Math.round(x * 100)`: the nearest whole number of hundredths, halves rounding up |
| Personality.Dimension | src/main/java/compass/career/evaluationsapi/service/AzureCognitiveServiceImpl.java:219-250 | a clamped and rounded dimension lies between 0.00 and 100.00 |
| Personality.CalculateDimensions | src/main/java/compass/career/evaluationsapi/service/AzureCognitiveServiceImpl.java:212-253 | for any sentiment and phrase list, all five dimensions lie between 0.00 and 100.00 |
| Personality.NeutralDimensions | src/main/java/compass/career/evaluationsapi/service/AzureCognitiveServiceImpl.java:219-244 | with sentiment 0 and no key phrases, every dimension is exactly 50.00 |
| Personality.ConscientiousnessStep | src/main/java/compass/career/evaluationsapi/service/AzureCognitiveServiceImpl.java:219-223 | below the clamp, one more matching phrase raises conscientiousness by exactly 8.00 |
| Personality.GenerateDescription | src/main/java/compass/career/evaluationsapi/service/AzureCognitiveServiceImpl.java:255-295 | the builder yields the sentences of the five dimensions, in order, trimmed |
| Personality.TextsPrintable | src/main/java/compass/career/evaluationsapi/service/AzureCognitiveServiceImpl.java:264-291 | every description sentence is non-empty and starts with a character `trim()` keeps |
| Personality.SentenceFacts | src/main/java/compass/career/evaluationsapi/service/AzureCognitiveServiceImpl.java:264-291 | a dimension adds an empty sentence exactly when it lies in [40.00, 70.00]; any sentence it adds starts with a printable character |
| Personality.DescriptionEmptyIff | src/main/java/compass/career/evaluationsapi/service/AzureCognitiveServiceImpl.java:255-295 | the description is empty exactly when all five dimensions lie in [40.00, 70.00] |
| Personality.HighOpennessLeads | src/main/java/compass/career/evaluationsapi/service/AzureCognitiveServiceImpl.java:264-266 | with openness above 70.00 the description starts with the openness sentence |
| Personality.Entries | src/main/java/compass/career/evaluationsapi/service/AzureCognitiveServiceImpl.java:300 | the dimension map's entries in iteration order, each with its own value |
| Personality.TranslateDimension | src/main/java/compass/career/evaluationsapi/service/AzureCognitiveServiceImpl.java:313-322 | a name that is not one of the five dimensions is returned unchanged |
| Personality.TranslationsDistinct | src/main/java/compass/career/evaluationsapi/service/AzureCognitiveServiceImpl.java:313-322 | the five dimensions get five different labels |
| Personality.KeyTraits | src/main/java/compass/career/evaluationsapi/service/AzureCognitiveServiceImpl.java:297-311 | one trait per kept dimension, in order, each the dimension's level followed by its label |
| Personality.KeyTraitsSpec | src/main/java/compass/career/evaluationsapi/service/AzureCognitiveServiceImpl.java:297-311 | exactly three traits; the kept dimensions are in non-increasing order, each with its own value, and no dimension left out has a larger value than a kept one |
| Personality.BothCallsFailing | src/main/java/compass/career/evaluationsapi/service/AzureCognitiveServiceImpl.java:87-91 | when both calls fail, every dimension is 50.00, the description and the phrase list are empty, and the sentiment part is the default |
| Personality.AnalyzePersonality | src/main/java/compass/career/evaluationsapi/service/AzureCognitiveServiceImpl.java:30-40 | the analysis is the transformation of what the two services return for the combined text |
| Recommendations.NewCacheEntry | src/main/java/compass/career/evaluationsapi/service/CareerServiceImpl.java:186-189 | a new cache entry holds the list and is live at every instant up to one hour after its creation, and at no later one |
| Recommendations.CacheLookup | src/main/java/compass/career/evaluationsapi/service/CareerServiceImpl.java:53-57 | a list is served exactly when the user has an entry that has not expired, and it is that entry's list |
| Recommendations.StoredIsServed | src/main/java/compass/career/evaluationsapi/service/CareerServiceImpl.java:186-197 | a list just cached is served back for the next hour |
| Recommendations.FirstOfKind | src/main/java/compass/career/evaluationsapi/service/CareerServiceImpl.java:146-148 | nothing is found exactly when no evaluation has that test type; otherwise the position of the first evaluation of that type |
| Recommendations.LatestOfKind | src/main/java/compass/career/evaluationsapi/service/CareerServiceImpl.java:143-153 | `getTestResults` reads one of the user's evaluations of that type, none of which is later, and finds none exactly when the user has none of that type |
| Recommendations.LatestFirstMembers | src/main/java/compass/career/evaluationsapi/service/CareerServiceImpl.java:144 | the latest-first list holds exactly the user's evaluations |
| Recommendations.LatestOfKindIsLatest | src/main/java/compass/career/evaluationsapi/service/CareerServiceImpl.java:146-148 | in a latest-first list the first evaluation of a type is a latest one of that type |
| Recommendations.Profile | src/main/java/compass/career/evaluationsapi/service/CareerServiceImpl.java:77-79 | the three profile results are `getTestResults` for personality, vocational interests and cognitive skills |
| Recommendations.NoEvaluationsNoResults | src/main/java/compass/career/evaluationsapi/service/CareerServiceImpl.java:81-84 | a user who completed no evaluation has all three results empty |
| Recommendations.FindById | src/main/java/compass/career/evaluationsapi/service/CareerServiceImpl.java:120-121 | nothing is found exactly when no catalogue entry has the id; otherwise an entry of the catalogue with that id |
| Recommendations.Matched | src/main/java/compass/career/evaluationsapi/service/CareerServiceImpl.java:118-129 | succeeds exactly when every pick names a catalogue entry, and then pairs each pick, in order, with its entry and percentage; otherwise it fails on the first unknown pick |
| Recommendations.AfterAfter | src/main/java/compass/career/evaluationsapi/service/CareerServiceImpl.java:118-129 | matching in two steps gives the same outcome as matching the concatenation |
| Recommendations.Match | src/main/java/compass/career/evaluationsapi/service/CareerServiceImpl.java:118-129 | the save loop computes exactly the matching described by `Matched` |
| Careers.InfoOf | src/main/java/compass/career/evaluationsapi/service/CareerServiceImpl.java:93-101 | the oracle's view of a career carries its id, name, description, duration and salary |
| Careers.Infos | src/main/java/compass/career/evaluationsapi/service/CareerServiceImpl.java:93-101 | one oracle view per career, in catalogue order |
| Careers.RowsOfMembers | src/main/java/compass/career/evaluationsapi/service/CareerServiceImpl.java:60-61 | the user's rows are exactly the table rows of that user |
| Careers.RowsOfAppend | src/main/java/compass/career/evaluationsapi/service/CareerServiceImpl.java:60-61 | filtering distributes over appending rows |
| Careers.RowsOfAll | src/main/java/compass/career/evaluationsapi/service/CareerServiceImpl.java:60-61 | filtering rows that all belong to the user keeps them all |
| Careers.Persisted | src/main/java/compass/career/evaluationsapi/service/CareerServiceImpl.java:60-61 | the stored rows of the user, as a permutation of them ordered by non-increasing compatibility |
| Careers.NewRows | src/main/java/compass/career/evaluationsapi/service/CareerServiceImpl.java:118-129 | one new row per matched pick, in oracle order, for this user, with consecutive ids |
| Careers.Generate | src/main/java/compass/career/evaluationsapi/service/CareerServiceImpl.java:76-129 | the generation steps yield the rows `Generated` describes, or its error |
| Careers.GeneratedSpec | src/main/java/compass/career/evaluationsapi/service/CareerServiceImpl.java:76-129 | generation succeeds exactly when the user has at least one result, the catalogue is not empty, the oracle answers and every pick names a career; the saved rows are then the picks one-to-one, in order, numbered after the existing rows |
| Careers.GeneratedThenPersisted | src/main/java/compass/career/evaluationsapi/service/CareerServiceImpl.java:60-129 | after a generation the user's stored rows are exactly the new ones, best first, so a later uncached call serves them without the oracle |
| Careers.NameLeqTotal | src/main/java/compass/career/evaluationsapi/service/CareerServiceImpl.java:209 | any two names are ordered one way or the other |
| Careers.InsertByNameSorted | src/main/java/compass/career/evaluationsapi/service/CareerServiceImpl.java:209 | inserting a career into a name-sorted list keeps it sorted |
| Careers.SortByName | src/main/java/compass/career/evaluationsapi/service/CareerServiceImpl.java:209 | the catalogue in name order: a permutation of it whose names never decrease |
| Careers.CareerService.constructor | src/main/java/compass/career/evaluationsapi/service/CareerServiceImpl.java:40 | the service starts with the given catalogue and oracle, no stored rows and an empty cache |
| Careers.CareerService.GetRecommendedCareers | src/main/java/compass/career/evaluationsapi/service/CareerServiceImpl.java:44-141 | an unknown user is refused; a live cache entry is served; otherwise stored rows are served and cached; otherwise, after the results check and the catalog check, the generated rows are saved, served and cached, and a failure changes nothing. Any success is served from the cache for the next hour |
| Careers.CareerService.GetAllCareers | src/main/java/compass/career/evaluationsapi/service/CareerServiceImpl.java:202-228 | bad paging arguments are refused; an empty first page is an error; otherwise the page of the name-sorted catalogue, mapped to responses |
| Careers.CareerService.GetCareerDetails | src/main/java/compass/career/evaluationsapi/service/CareerServiceImpl.java:172-179 | "Career not found" exactly when no career has the id; otherwise the career's columns with the social-media data for its name |
| Careers.CatalogPaged | src/main/java/compass/career/evaluationsapi/service/CareerServiceImpl.java:209-217 | every career of the catalogue appears on some page |
| Specializations.InfoOf | src/main/java/compass/career/evaluationsapi/service/SpecializationServiceImpl.java:94-103 | the oracle's view of an area carries its id, name, description, application fields, job projection and its career's name |
| Specializations.Infos | src/main/java/compass/career/evaluationsapi/service/SpecializationServiceImpl.java:94-103 | one oracle view per area, in catalogue order |
| Specializations.UserSkills | src/main/java/compass/career/evaluationsapi/service/SpecializationServiceImpl.java:84-85 | no skills record gives an empty skill map; otherwise the record's map, which may itself be absent |
| Specializations.ParseItem | src/main/java/compass/career/evaluationsapi/service/SpecializationServiceImpl.java:177-183 | an element parses exactly when it is an object with numeric `specializationId` and `compatibilityPercentage` and a string or null `reason`; the id is the number truncated toward zero, the percentage and reason are kept |
| Specializations.ParseAll | src/main/java/compass/career/evaluationsapi/service/SpecializationServiceImpl.java:176-185 | the list parses exactly when every element does, giving one entry per element in order |
| Specializations.ParseRecommendations | src/main/java/compass/career/evaluationsapi/service/SpecializationServiceImpl.java:176-185 | the parse loop computes exactly `ParseAll` of the elements |
| Specializations.ReadAnswer | src/main/java/compass/career/evaluationsapi/service/SpecializationServiceImpl.java:171-185 | a successful read means the answer is a JSON object whose `recommendations` entry is a list, parsed element by element |
| Specializations.ReadRecommendations | src/main/java/compass/career/evaluationsapi/service/SpecializationServiceImpl.java:163-190 | the reading steps compute exactly `ReadAnswer` |
| Specializations.ToPicks | src/main/java/compass/career/evaluationsapi/service/SpecializationServiceImpl.java:122-129 | one pick per parsed entry, in order, with its id and percentage |
| Specializations.RowsOfMembers | src/main/java/compass/career/evaluationsapi/service/SpecializationServiceImpl.java:57-58 | the user's rows are exactly the table rows of that user |
| Specializations.RowsOfAppend | src/main/java/compass/career/evaluationsapi/service/SpecializationServiceImpl.java:57-58 | filtering distributes over appending rows |
| Specializations.RowsOfAll | src/main/java/compass/career/evaluationsapi/service/SpecializationServiceImpl.java:57-58 | filtering rows that all belong to the user keeps them all |
| Specializations.Persisted | src/main/java/compass/career/evaluationsapi/service/SpecializationServiceImpl.java:57-58 | the stored rows of the user, as a permutation of them ordered by non-increasing compatibility |
| Specializations.NewRows | src/main/java/compass/career/evaluationsapi/service/SpecializationServiceImpl.java:121-132 | one new row per matched pick, in order, for this user, with consecutive ids |
| Specializations.GetUserSkills | src/main/java/compass/career/evaluationsapi/client/UsersApiClient.java:45-64 | the call returns exactly when the directory answers, giving its body, `null` included; a 404 is "User not found", any other client error "Error communicating with UsersAPI", and a 5xx or an unreachable directory is thrown on unchanged |
| Specializations.Generated | src/main/java/compass/career/evaluationsapi/service/SpecializationServiceImpl.java:74-132 | any generated rows belong to the user and are numbered after the existing rows |
| Specializations.Generate | src/main/java/compass/career/evaluationsapi/service/SpecializationServiceImpl.java:74-132 | the generation steps yield the rows `Generated` describes, or its error |
| Specializations.GeneratedErrors | src/main/java/compass/career/evaluationsapi/service/SpecializationServiceImpl.java:74-91 | generation fails first on missing results, then on a failed skills call with that call's error (a user unknown to the directory is "User not found"), then on an empty catalog |
| Specializations.GeneratedSpec | src/main/java/compass/career/evaluationsapi/service/SpecializationServiceImpl.java:74-132 | generation succeeds exactly when there are results, the skills call answers with a skill map, the catalog is not empty, the oracle's answer parses and every entry names an area; it then saves one row per parsed entry, in order, for this user and the area the entry names, with its percentage |
| Specializations.GeneratedThenPersisted | src/main/java/compass/career/evaluationsapi/service/SpecializationServiceImpl.java:57-132 | after a generation the user's stored rows are exactly the new ones, best first, so a later uncached call serves them without the oracle |
| Specializations.SpecializationService.constructor | src/main/java/compass/career/evaluationsapi/service/SpecializationServiceImpl.java:37 | the service starts with the given careers and oracle, no areas, no stored rows and an empty cache |
| Specializations.SpecializationService.GetRecommendedSpecializations | src/main/java/compass/career/evaluationsapi/service/SpecializationServiceImpl.java:41-144 | an unknown user is refused; a live cache entry is served; otherwise stored rows are served and cached; otherwise, after the results check, the skills call and the catalog check, the generated rows are saved, served and cached, and a failure changes nothing. Any success is served from the cache for the next hour |
| Specializations.SpecializationService.GetSpecializationDetails | src/main/java/compass/career/evaluationsapi/service/SpecializationServiceImpl.java:333-340 | "Specialization area not found" exactly when no area has the id; otherwise the area with the social-media data for its name |
| Specializations.SpecializationService.GetAllSpecializations | src/main/java/compass/career/evaluationsapi/service/SpecializationServiceImpl.java:344-354 | an empty catalogue is an error; otherwise one response per area, in table order |
| Specializations.SpecializationService.GetSpecializationById | src/main/java/compass/career/evaluationsapi/service/SpecializationServiceImpl.java:358-363 | not found exactly when no area has the id; otherwise that area's response |
| Specializations.SpecializationService.CreateSpecialization | src/main/java/compass/career/evaluationsapi/service/SpecializationServiceImpl.java:367-374 | refused exactly when the career does not exist, changing nothing; otherwise appends the new area of that career with the next id |
| Specializations.SpecializationService.UpdateSpecialization | src/main/java/compass/career/evaluationsapi/service/SpecializationServiceImpl.java:378-388 | refused exactly when the area or the career is missing, the area first; otherwise the area keeps its id and takes the request's columns and career, and nothing else changes |
| Favorites.ActiveCountAppend | src/main/java/compass/career/evaluationsapi/service/FavoriteCareerServiceImpl.java:41 | appending a row adds one to a user's active count exactly when the row is that user's and active |
| Favorites.ActiveCountUpdate | src/main/java/compass/career/evaluationsapi/service/FavoriteCareerServiceImpl.java:57-74 | replacing one row changes a user's active count by the difference between the new row and the old one |
| Favorites.FindRow | src/main/java/compass/career/evaluationsapi/service/FavoriteCareerServiceImpl.java:49-71 | the lookup by (user, target) finds nothing exactly when no row has both; otherwise a row that has them |
| Favorites.ActiveRows | src/main/java/compass/career/evaluationsapi/service/FavoriteCareerServiceImpl.java:86 | the user's active rows: as many as the active count, all of them the user's and active, and none missing |
| Favorites.AddCheck | src/main/java/compass/career/evaluationsapi/service/FavoriteCareerServiceImpl.java:36-55 | the add passes exactly when the user exists, has fewer active favourites than the cap (10 careers, 5 specializations), the target exists and is not already an active favourite; each failure gives its own error, in the source's order |
| Favorites.Removed | src/main/java/compass/career/evaluationsapi/service/FavoriteCareerServiceImpl.java:70-76 | removing fails with "not found" exactly when the user has no row for the target; otherwise that row becomes inactive and every other row is unchanged |
| Favorites.FindRowSameKeys | src/main/java/compass/career/evaluationsapi/service/FavoriteCareerServiceImpl.java:49-71 | the lookup depends only on the rows' users and targets |
| Favorites.RemoveIdempotent | src/main/java/compass/career/evaluationsapi/service/FavoriteCareerServiceImpl.java:70-76 | removing a favourite twice leaves the table as removing it once |
| Favorites.AddedCounts | src/main/java/compass/career/evaluationsapi/service/FavoriteCareerServiceImpl.java:51-65 | a successful add gives the user exactly one more active favourite and changes nobody else's count |
| Favorites.ReactivatedConsistent | src/main/java/compass/career/evaluationsapi/service/FavoriteCareerServiceImpl.java:56-60 | reactivating an inactive row of a user below the cap keeps the table invariant: ids by position, one row per (user, target), active counts within the cap |
| Favorites.AppendedConsistent | src/main/java/compass/career/evaluationsapi/service/FavoriteCareerServiceImpl.java:63-65 | appending a new active row for a target the user has no row for, below the cap, keeps the table invariant |
| Favorites.AddedConsistent | src/main/java/compass/career/evaluationsapi/service/FavoriteCareerServiceImpl.java:34-66 | every successful add keeps the table invariant |
| Favorites.FavoriteTable.constructor | src/main/java/compass/career/evaluationsapi/service/FavoriteCareerServiceImpl.java:26-30 | a table starts empty, with the given rules |
| Favorites.FavoriteTable.Add | src/main/java/compass/career/evaluationsapi/service/FavoriteCareerServiceImpl.java:34-66 | a failed check returns its error and changes nothing; otherwise an existing inactive row is reactivated with the new notes in place, or one new active row is appended, the response describes that row, and the user's active count grows by exactly one |
| Favorites.FavoriteTable.Remove | src/main/java/compass/career/evaluationsapi/service/FavoriteCareerServiceImpl.java:70-76 | a missing row is an error that changes nothing; otherwise the table becomes the one `Removed` describes |
| Favorites.FavoriteTable.List | src/main/java/compass/career/evaluationsapi/service/FavoriteCareerServiceImpl.java:80-95 | a negative page or a size below one is refused; an empty page is an error; otherwise the page of the user's active favourites, mapped to responses |
| TestAdmin.GetTestTypeDisplayName | src/main/java/compass/career/evaluationsapi/service/TestServiceImpl.java:172-183 | the three known type names, in any letter case, get their readable names; any other name is returned unchanged |
| TestAdmin.DisplayNameIgnoresCase | src/main/java/compass/career/evaluationsapi/service/TestServiceImpl.java:173 | two known names that differ only in letter case get the same readable name |
| TestAdmin.ActiveOfType | src/main/java/compass/career/evaluationsapi/service/TestServiceImpl.java:74 | nothing is found exactly when no test of the type is active; otherwise an active test of that type |
| TestAdmin.IndexOfTest | src/main/java/compass/career/evaluationsapi/service/TestServiceImpl.java:50-51 | nothing is found exactly when no test has the id; otherwise the position of a test with it |
| TestAdmin.GetAllTests | src/main/java/compass/career/evaluationsapi/service/TestServiceImpl.java:35-45 | an empty table is an error; otherwise one list entry per test, in table order |
| TestAdmin.GetTestDetails | src/main/java/compass/career/evaluationsapi/service/TestServiceImpl.java:49-58 | not found exactly when no test has the id; otherwise the test's response, showing its active questions only |
| TestAdmin.ActiveTwice | src/main/java/compass/career/evaluationsapi/service/TestServiceImpl.java:54 | filtering the active questions twice is filtering them once |
| TestAdmin.CreateCheck | src/main/java/compass/career/evaluationsapi/service/TestServiceImpl.java:62-90 | passes exactly when the request has at least 100 questions, the type exists and no test of that type is active; the failures come in that order, each with its own error |
| TestAdmin.UpdateCheck | src/main/java/compass/career/evaluationsapi/service/TestServiceImpl.java:105-159 | passes exactly when the request has at least 100 questions, the test and the type exist, the type change leaves at most one active test of the type, and the test's question list is present; the failures come in that order |
| TestAdmin.Deactivated | src/main/java/compass/career/evaluationsapi/service/TestServiceImpl.java:151-155 | every old question is kept, in order, and inactive |
| TestAdmin.DeactivateAll | src/main/java/compass/career/evaluationsapi/service/TestServiceImpl.java:151-155 | the loop makes every old question inactive and keeps them all, in order |
| TestAdmin.OnlyNewQuestionsShown | src/main/java/compass/career/evaluationsapi/service/TestServiceImpl.java:150-166 | after an update the response shows exactly the new questions |
| TestAdmin.NoneActive | src/main/java/compass/career/evaluationsapi/service/TestServiceImpl.java:151-155 | a list with no active question shows nothing |
| TestAdmin.AllActive | src/main/java/compass/career/evaluationsapi/service/TestServiceImpl.java:158-159 | a list of active questions is shown whole |
| TestAdmin.UpdatedTest | src/main/java/compass/career/evaluationsapi/service/TestServiceImpl.java:144-159 | the updated test takes the requested type, name, description and number shown, keeps its id and active flag, keeps its old questions but inactive, and appends the requested questions, active and not yet saved (every id 0) |
| TestAdmin.UpdateKeepsOneActive | src/main/java/compass/career/evaluationsapi/service/TestServiceImpl.java:120-136 | an allowed type change keeps at most one active test per type |
| TestAdmin.Unsaved | src/main/java/compass/career/evaluationsapi/service/TestServiceImpl.java:95 | clearing a question's and its options' ids changes nothing else: text, order number, active flag and every option's other fields are kept |
| TestAdmin.UnsavedNew | src/main/java/compass/career/evaluationsapi/service/TestServiceImpl.java:94 | a question just built from a request has no ids yet |
| TestAdmin.SaveOptions | src/main/java/compass/career/evaluationsapi/service/TestServiceImpl.java:95 | `save` of a question's options: saved options keep their ids, new ones take ids from the counter on, increasing along the list, and nothing but ids changes |
| TestAdmin.SaveQuestion | src/main/java/compass/career/evaluationsapi/service/TestServiceImpl.java:95 | `save` of one question: a new question takes the next question id, a saved one keeps its id; its options are saved as `SaveOptions` states |
| TestAdmin.SaveQuestions | src/main/java/compass/career/evaluationsapi/service/TestServiceImpl.java:95 | `save` of a question list gives one saved question per question, and the counters only grow |
| TestAdmin.QuestionSavedWiden | src/main/java/compass/career/evaluationsapi/service/TestServiceImpl.java:95 | a question saved with some free ids was saved with any wider range of free ids |
| TestAdmin.SavedQuestionsSpec | src/main/java/compass/career/evaluationsapi/service/TestServiceImpl.java:95 | each saved question differs from its original only in ids: a kept id, or a new one in the range the counters moved over |
| TestAdmin.SavedQuestionIdsInRange | src/main/java/compass/career/evaluationsapi/service/TestServiceImpl.java:95 | every new question takes an id from the range the question counter moved over |
| TestAdmin.SavedIdsIncrease | src/main/java/compass/career/evaluationsapi/service/TestServiceImpl.java:95 | the new question ids increase along the list |
| TestAdmin.SavedOptionIdsInRange | src/main/java/compass/career/evaluationsapi/service/TestServiceImpl.java:95 | a saved question has as many options as before, and every new option takes an id from the range the option counter moved over |
| TestAdmin.SavedOptionIdsIncrease | src/main/java/compass/career/evaluationsapi/service/TestServiceImpl.java:95 | every new option of an earlier question has a smaller id than every new option of a later one |
| TestAdmin.SavedOnlyIds | src/main/java/compass/career/evaluationsapi/service/TestServiceImpl.java:95 | `save` changes nothing but ids |
| TestAdmin.SavedNewQuestion | src/main/java/compass/career/evaluationsapi/service/TestServiceImpl.java:95 | a question with no ids, once saved, has its question and option ids in the free ranges, its option ids increasing |
| TestAdmin.SavedNewFresh | src/main/java/compass/career/evaluationsapi/service/TestServiceImpl.java:95 | saving questions that have no ids gives them fresh ids: in the ranges the counters moved over, all distinct and increasing |
| TestAdmin.ActiveSuffix | src/main/java/compass/career/evaluationsapi/service/TestServiceImpl.java:158-161 | inactive questions followed by active ones show exactly the active ones |
| TestAdmin.FreshIdsBelow | src/main/java/compass/career/evaluationsapi/service/TestServiceImpl.java:95 | fresh ids from positive counters are saved ids below the new counters |
| TestAdmin.IdsBelowDeactivated | src/main/java/compass/career/evaluationsapi/service/TestServiceImpl.java:151-155 | ids below the counters stay below counters that grew, and deactivating questions keeps their ids |
| TestAdmin.TableIdsBelow | src/main/java/compass/career/evaluationsapi/service/TestServiceImpl.java:95 | every test keeps its ids below counters that only grew |
| TestAdmin.IdsBelowAppend | src/main/java/compass/career/evaluationsapi/service/TestServiceImpl.java:158-159 | two question lists with ids below the counters, joined, have ids below them |
| TestAdmin.UnsavedQuestions | src/main/java/compass/career/evaluationsapi/service/TestServiceImpl.java:94-95 | the questions of a test with every id cleared, one per question |
| TestAdmin.TableIdsChanged | src/main/java/compass/career/evaluationsapi/service/TestServiceImpl.java:95 | a table made of old tests and a new one, all with ids below the counters, has all its ids below them |
| TestAdmin.SavedNewTest | src/main/java/compass/career/evaluationsapi/service/TestServiceImpl.java:94-95 | a test built from a request, once saved, is that request's test up to its ids, and its question and option ids are fresh |
| TestAdmin.SavedAsRequested | src/main/java/compass/career/evaluationsapi/service/TestServiceImpl.java:158-161 | questions equal to the requested ones up to their ids stay so once saved |
| TestAdmin.SavedUpdate | src/main/java/compass/career/evaluationsapi/service/TestServiceImpl.java:158-161 | an update, once saved, is still the update of the old test: only the new questions' ids change |
| TestAdmin.SavedUpdateFresh | src/main/java/compass/career/evaluationsapi/service/TestServiceImpl.java:158-161 | the new questions of a saved update have fresh ids |
| TestAdmin.SavedUpdateIdsBelow | src/main/java/compass/career/evaluationsapi/service/TestServiceImpl.java:158-161 | after the update is saved every question and option of the test has an id below the new counters |
| TestAdmin.SavedNewTestFrom | src/main/java/compass/career/evaluationsapi/service/TestServiceImpl.java:94-95 | `createTest`'s built test once saved: the request's test with the given id, whose questions and options have fresh ids from the counters, which only grow, all below the new counters |
| TestAdmin.CreateStep | src/main/java/compass/career/evaluationsapi/service/TestServiceImpl.java:62-101 | appending a saved test of a type with no active test, under the next id, keeps ids as positions, at most one active test per type, and every id below the new counters |
| TestAdmin.SavedUpdatedTest | src/main/java/compass/career/evaluationsapi/service/TestServiceImpl.java:144-161 | `updateTest`'s update followed by `save`: an update of the old test whose new questions and options have fresh ids from the counters, which only grow |
| TestAdmin.UpdateStep | src/main/java/compass/career/evaluationsapi/service/TestServiceImpl.java:120-161 | replacing a test by its saved update of an allowed type keeps ids as positions, at most one active test per type, and every id below the new counters |
| TestAdmin.TestCatalog.constructor | src/main/java/compass/career/evaluationsapi/service/TestServiceImpl.java:29-31 | the catalogue starts with the given test types, no test, and both id counters at 1 |
| TestAdmin.TestCatalog.CreateTest | src/main/java/compass/career/evaluationsapi/service/TestServiceImpl.java:62-101 | a failed check returns its error and changes nothing, counters included; otherwise one new active test, built from the request, is appended with the next id, its questions and options get fresh ids (new, distinct, increasing), and at most one test per type stays active |
| TestAdmin.TestCatalog.UpdateTest | src/main/java/compass/career/evaluationsapi/service/TestServiceImpl.java:105-167 | a failed check returns its error and changes nothing, counters included; otherwise only the checked test changes, to its update, whose new questions and options get fresh ids (new, distinct, increasing), and the response shows only the new questions |
| AdminMapper.ToTestListResponse | src/main/java/compass/career/evaluationsapi/mapper/AdminMapper.java:11-22 | `null` exactly for a `null` test; otherwise id, name, type name and active flag are copied, and the question count is the list's size, 0 for a `null` list |
| AdminMapper.ToAnswerOptionEntity | src/main/java/compass/career/evaluationsapi/mapper/AdminMapper.java:69-80 | `null` exactly when the request or the question is `null`; otherwise text, weight and category are copied unchanged, absent values included |
| AdminMapper.BuildQuestion | src/main/java/compass/career/evaluationsapi/mapper/AdminMapper.java:51-66 | the option loop builds an active question whose options map the requested options one-to-one, in order (none for a `null` list) |
| AdminMapper.ToQuestionEntity | src/main/java/compass/career/evaluationsapi/mapper/AdminMapper.java:47-67 | `null` exactly when the request or the test is `null`; otherwise the active question of `BuildQuestion` |
| AdminMapper.ToTestEntity | src/main/java/compass/career/evaluationsapi/mapper/AdminMapper.java:24-45 | `null` exactly when the request or the type is `null`; otherwise an active test of that type with the request's name, description and number of questions to show, and one new question per requested question, in order |
| AdminMapper.ToCareerResponse | src/main/java/compass/career/evaluationsapi/mapper/AdminMapper.java:82-95 | `null` exactly for `null`; otherwise every column of the career |
| AdminMapper.ToCareerEntity | src/main/java/compass/career/evaluationsapi/mapper/AdminMapper.java:97-110 | `null` exactly for `null`; otherwise a career not yet saved (id 0) |
| AdminMapper.CareerRoundTrip | src/main/java/compass/career/evaluationsapi/mapper/AdminMapper.java:82-110 | the response of the career built from a request carries the request's name, description, duration, graduate profile, job field and salary |
| AdminMapper.CopyToCareerEntity | src/main/java/compass/career/evaluationsapi/mapper/AdminMapper.java:112-122 | a `null` request leaves the career untouched; otherwise the id is kept and every other column is the one `toCareerEntity` would build from the request |
| AdminMapper.ToSpecializationResponse | src/main/java/compass/career/evaluationsapi/mapper/AdminMapper.java:124-137 | `null` exactly for `null`; otherwise the area's columns and its career's id and name |
| AdminMapper.ToSpecializationEntity | src/main/java/compass/career/evaluationsapi/mapper/AdminMapper.java:139-151 | `null` exactly when the request or the career is `null`; otherwise a new area (id 0) of the given career whose name, description, application fields and job projection are the request's |
| AdminMapper.SpecializationRoundTrip | src/main/java/compass/career/evaluationsapi/mapper/AdminMapper.java:124-151 | the response of an area built from a request carries the request's name, description, application fields and job projection, and the id and name of its career |
| AdminMapper.CopyToSpecializationEntity | src/main/java/compass/career/evaluationsapi/mapper/AdminMapper.java:153-162 | untouched when the request or the career is `null`; otherwise the id is kept and career and columns are those `toSpecializationEntity` would build |
| CareerMapper.RecommendationResponse | src/main/java/compass/career/evaluationsapi/mapper/CareerMapper.java:17-25 | id, name, description, duration and salary come from the row's career, the compatibility from the row itself |
| CareerMapper.ToRecommendationResponse | src/main/java/compass/career/evaluationsapi/mapper/CareerMapper.java:13-26 | `null` exactly for a `null` row; otherwise `RecommendationResponse` of it |
| CareerMapper.RecommendationResponses | src/main/java/compass/career/evaluationsapi/mapper/CareerMapper.java:13-26 | a list of rows maps to one response per row, in the same order |
| CareerMapper.ToDetailResponse | src/main/java/compass/career/evaluationsapi/mapper/CareerMapper.java:28-42 | `null` exactly for `null`; otherwise the career's own columns and the social-media data as given |
| CareerMapper.FavoriteResponse | src/main/java/compass/career/evaluationsapi/mapper/CareerMapper.java:48-54 | the favourite's id, its career's id and name, and its notes and active flag unchanged |
| CareerMapper.ToFavoriteResponse | src/main/java/compass/career/evaluationsapi/mapper/CareerMapper.java:44-55 | `null` exactly for `null`; otherwise `FavoriteResponse` of it |
| CareerMapper.NewFavorite | src/main/java/compass/career/evaluationsapi/mapper/CareerMapper.java:61-67 | a favourite not yet saved, active, of the given user and career, with the request's notes |
| CareerMapper.ToFavoriteEntity | src/main/java/compass/career/evaluationsapi/mapper/CareerMapper.java:57-68 | `null` exactly when the request, the user id or the career is `null`; otherwise `NewFavorite` |
| CareerMapper.FavoriteRoundTrip | src/main/java/compass/career/evaluationsapi/mapper/CareerMapper.java:44-68 | reporting a favourite just built gives the career's id and name and the request's notes, marked active |
| SpecializationMapper.RecommendationResponse | src/main/java/compass/career/evaluationsapi/mapper/SpecializationMapper.java:17-24 | id, name and description come from the row's area, the career name from the area's career, the compatibility from the row |
| SpecializationMapper.ToRecommendationResponse | src/main/java/compass/career/evaluationsapi/mapper/SpecializationMapper.java:13-25 | `null` exactly for a `null` row; otherwise `RecommendationResponse` of it |
| SpecializationMapper.RecommendationResponses | src/main/java/compass/career/evaluationsapi/mapper/SpecializationMapper.java:13-25 | a list of rows maps to one response per row, in the same order |
| SpecializationMapper.ToDetailResponse | src/main/java/compass/career/evaluationsapi/mapper/SpecializationMapper.java:27-40 | `null` exactly for `null`; otherwise the area's own columns, its career's name and the social-media data as given |
| SpecializationMapper.FavoriteResponse | src/main/java/compass/career/evaluationsapi/mapper/SpecializationMapper.java:46-52 | the favourite's id, its area's id and name, and its notes and active flag unchanged |
| SpecializationMapper.ToFavoriteResponse | src/main/java/compass/career/evaluationsapi/mapper/SpecializationMapper.java:42-53 | `null` exactly for `null`; otherwise `FavoriteResponse` of it |
| SpecializationMapper.NewFavorite | src/main/java/compass/career/evaluationsapi/mapper/SpecializationMapper.java:62-68 | a favourite not yet saved, active, of the given user and area, with the request's notes |
| SpecializationMapper.ToFavoriteEntity | src/main/java/compass/career/evaluationsapi/mapper/SpecializationMapper.java:55-69 | `null` exactly when the request, the user id or the area is `null`; otherwise `NewFavorite` |
| SpecializationMapper.FavoriteRoundTrip | src/main/java/compass/career/evaluationsapi/mapper/SpecializationMapper.java:42-69 | reporting a favourite just built gives the area's id and name and the request's notes, marked active |
| TestMapper.ActiveQuestionsMembers | src/main/java/compass/career/evaluationsapi/mapper/TestMapper.java:24-28 | the `getActive` filter keeps a question exactly when it is in the list and active |
| TestMapper.ActiveQuestionsAppend | src/main/java/compass/career/evaluationsapi/mapper/TestMapper.java:24-28 | the filter distributes over concatenation, so the kept questions stay in their original order |
| TestMapper.OptionResponse | src/main/java/compass/career/evaluationsapi/mapper/TestMapper.java:51-54 | an option's response carries its id and text |
| TestMapper.ToAnswerOptionResponse | src/main/java/compass/career/evaluationsapi/mapper/TestMapper.java:47-55 | `null` exactly for `null`; otherwise `OptionResponse` |
| TestMapper.OptionResponses | src/main/java/compass/career/evaluationsapi/mapper/TestMapper.java:40-43 | one response per option, in order |
| TestMapper.QuestionResponseOf | src/main/java/compass/career/evaluationsapi/mapper/TestMapper.java:36-44 | a question's id, text and order number, and its options mapped one-to-one in order, a `null` list kept `null` |
| TestMapper.ToQuestionResponse | src/main/java/compass/career/evaluationsapi/mapper/TestMapper.java:32-45 | `null` exactly for `null`; otherwise `QuestionResponseOf` |
| TestMapper.QuestionResponses | src/main/java/compass/career/evaluationsapi/mapper/TestMapper.java:25-28 | one response per question, in order |
| TestMapper.ToResponse | src/main/java/compass/career/evaluationsapi/mapper/TestMapper.java:14-30 | `null` exactly for `null`; otherwise the test's columns and the responses of exactly its active questions, in order, a `null` list kept `null` |
| TestMapper.QuestionResponsesAppend | src/main/java/compass/career/evaluationsapi/mapper/TestMapper.java:25-28 | mapping a list with one more question appends that question's response |
| TestMapper.SameResponses | src/main/java/compass/career/evaluationsapi/mapper/TestMapper.java:24-44 | two question lists that agree position by position on the active flag and on each question's response give the same filtered responses |
| TestMapper.ResponseHidesScoring | src/main/java/compass/career/evaluationsapi/mapper/TestMapper.java:47-54 | the response never exposes an option's weight or category: erasing them all leaves it unchanged |
| SocialMedia.QueryParam | src/main/java/compass/career/evaluationsapi/service/SocialMediaApiServiceImpl.java:55 | the query keeps its length and its characters, except that every space becomes "+", so no space is left |
| SocialMedia.SearchUrl | src/main/java/compass/career/evaluationsapi/service/SocialMediaApiServiceImpl.java:54-55 | the site-wide search URL: the Reddit base, `/search.json?q=`, the encoded query and the fixed limit, sort and period parameters |
| SocialMedia.SubredditUrl | src/main/java/compass/career/evaluationsapi/service/SocialMediaApiServiceImpl.java:81-82 | the subreddit search URL: the Reddit base, `/r/`, the subreddit, the encoded query and the fixed parameters restricting the search to that subreddit |
| SocialMedia.UrlsHaveNoSpaces | src/main/java/compass/career/evaluationsapi/service/SocialMediaApiServiceImpl.java:53-82 | neither URL carries a space, whatever the query |
| SocialMedia.Snippet | src/main/java/compass/career/evaluationsapi/service/SocialMediaApiServiceImpl.java:135-136 | a self text of at most 200 UTF-16 code units (Java `length()`) is kept whole; a longer one becomes a prefix of it of 200 code units, or 199 when a surrogate pair straddles the bound, followed by "..." |
| SocialMedia.SnippetBmp | src/main/java/compass/career/evaluationsapi/service/SocialMediaApiServiceImpl.java:135-136 | for text without surrogate pairs the snippet is the whole text up to 200 characters, and otherwise the first 200 characters and "..." |
| SocialMedia.SnippetAstral | src/main/java/compass/career/evaluationsapi/service/SocialMediaApiServiceImpl.java:135-136 | a text of more than 100 characters that each take a surrogate pair, such as emoji, is cut to its first 100 characters and "..." |
| SocialMedia.EntrySnippet | src/main/java/compass/career/evaluationsapi/service/SocialMediaApiServiceImpl.java:133-137 | a post has a snippet exactly when its self text is a non-empty string, and the snippet is that text's `Snippet` |
| SocialMedia.Entries | src/main/java/compass/career/evaluationsapi/service/SocialMediaApiServiceImpl.java:120-143 | the children are read exactly when every child can be read, giving one entry per child, in order |
| SocialMedia.PostsOf | src/main/java/compass/career/evaluationsapi/service/SocialMediaApiServiceImpl.java:139 | one post per entry, in order |
| SocialMedia.ScoresOf | src/main/java/compass/career/evaluationsapi/service/SocialMediaApiServiceImpl.java:141 | one score per entry, in order |
| SocialMedia.CommentsOf | src/main/java/compass/career/evaluationsapi/service/SocialMediaApiServiceImpl.java:142 | one comment count per entry, in order |
| SocialMedia.DefaultData | src/main/java/compass/career/evaluationsapi/service/SocialMediaApiServiceImpl.java:217-226 | the default data has no posts, every total and the average at 0, and the apology message |
| SocialMedia.Extracted | src/main/java/compass/career/evaluationsapi/service/SocialMediaApiServiceImpl.java:106-157 | data is extracted exactly when the response has a `data` object with a `children` list whose every child can be read; extracted data has no message and counts its own posts |
| SocialMedia.Summarize | src/main/java/compass/career/evaluationsapi/service/SocialMediaApiServiceImpl.java:145-149 | the keys written after the loop carry no message, and the post count is the number of posts |
| SocialMedia.ExtractedTotals | src/main/java/compass/career/evaluationsapi/service/SocialMediaApiServiceImpl.java:117-149 | the extracted posts are those of the children, the post count is their number, and the upvote and comment totals are the 32-bit wrapped sums of their scores and comment counts |
| SocialMedia.AverageWithinScores | src/main/java/compass/career/evaluationsapi/service/SocialMediaApiServiceImpl.java:149 | when every score lies in [lo, hi] and the sum fits in an `int`, the truncated average score lies in [lo, hi] |
| SocialMedia.DivWithin | src/main/java/compass/career/evaluationsapi/service/SocialMediaApiServiceImpl.java:149 | a truncated mean of values in [lo, hi] lies in [lo, hi] |
| SocialMedia.ExtractRedditData | src/main/java/compass/career/evaluationsapi/service/SocialMediaApiServiceImpl.java:106-157 | the extraction computes exactly `Extracted` of the response |
| SocialMedia.ReadChildren | src/main/java/compass/career/evaluationsapi/service/SocialMediaApiServiceImpl.java:117-149 | the loop, summing into 32-bit `int`s, leaves the map empty when any child cannot be read and otherwise writes the summary of the entries |
| SocialMedia.EntriesStep | src/main/java/compass/career/evaluationsapi/service/SocialMediaApiServiceImpl.java:120-143 | reading one more child appends its entry to those of the children before it |
| SocialMedia.TotalsStep | src/main/java/compass/career/evaluationsapi/service/SocialMediaApiServiceImpl.java:139-142 | one more entry adds one post and adds its score and comment count into the 32-bit totals |
| SocialMedia.SearchResult | src/main/java/compass/career/evaluationsapi/service/SocialMediaApiServiceImpl.java:62-77 | a call that throws gives the default data; a returned body, `null` included, goes through the extraction |
| SocialMedia.NullBodyNoData | src/main/java/compass/career/evaluationsapi/service/SocialMediaApiServiceImpl.java:70-156 | a `null` body gives an empty map, not the default data |
| SocialMedia.InterestLevel | src/main/java/compass/career/evaluationsapi/service/SocialMediaApiServiceImpl.java:173 | "Alto" exactly above 50, "Moderado" exactly in (20, 50], "Bajo" exactly at 20 or below |
| SocialMedia.CareerSummary | src/main/java/compass/career/evaluationsapi/service/SocialMediaApiServiceImpl.java:159-186 | with posts, the header, the number of discussions, the interest level and the active-conversation line; without posts, the header and the limited-information line |
| SocialMedia.CareerSummaryReports | src/main/java/compass/career/evaluationsapi/service/SocialMediaApiServiceImpl.java:166-179 | a summary with posts mentions their number and the interest level; a failed or malformed search gives the limited-information summary |
| SocialMedia.SpecializationSummary | src/main/java/compass/career/evaluationsapi/service/SocialMediaApiServiceImpl.java:188-215 | when either search found posts, the presence line and the 32-bit sum of the two counts; otherwise the emerging-area line |
| SocialMedia.SpecializationSummaryCount | src/main/java/compass/career/evaluationsapi/service/SocialMediaApiServiceImpl.java:199-205 | when the sum fits in an `int`, the summary mentions the total number of posts of both searches |
| SocialMedia.GetCareerInformation | src/main/java/compass/career/evaluationsapi/service/SocialMediaApiServiceImpl.java:24-36 | the general search is for "<name> career opportunities", the advice search is the name in `cscareerquestions`, and the summary is built from the general search |
| SocialMedia.GetSpecializationInformation | src/main/java/compass/career/evaluationsapi/service/SocialMediaApiServiceImpl.java:39-51 | the two searches are for "<name> specialization" and "<name> job market trends", and the summary is built from both |
| SocialMedia.UnreachableRedditCareer | src/main/java/compass/career/evaluationsapi/service/SocialMediaApiServiceImpl.java:62-77 | with Reddit unreachable, both career searches give the default data and the summary is the limited-information one |
| ErrorHandler.KeyNamesDistinct | src/main/java/compass/career/evaluationsapi/controller/RestExceptionHandler.java:38-345 | no two body keys are written under the same JSON name, so no key of the error body overwrites another |
| ErrorHandler.OfServiceError | src/main/java/compass/career/evaluationsapi/controller/RestExceptionHandler.java:48-210 | an invalid argument, an invalid state and a missing entity reach their own handlers with their message; an upstream 5xx or unreachable upstream passed through reaches the server-error or resource-access handler; any other runtime failure reaches the generic handler |
| ErrorHandler.IsDevelopmentMode | src/main/java/compass/career/evaluationsapi/controller/RestExceptionHandler.java:349-352 | development mode exactly when no profile is active or the profile is `dev` or `development` |
| ErrorHandler.BuildErrorResponse | src/main/java/compass/career/evaluationsapi/controller/RestExceptionHandler.java:340-347 | the body has exactly the timestamp, status, code and message keys, holding the values given |
| ErrorHandler.Respond | src/main/java/compass/career/evaluationsapi/controller/RestExceptionHandler.java:48-78 | a well-formed response without diagnostics, the status on the wire equal to the one in the body, with the code and message given |
| ErrorHandler.WithDiagnostics | src/main/java/compass/career/evaluationsapi/controller/RestExceptionHandler.java:127-333 | the extra keys are added exactly in development mode, and the common keys are kept |
| ErrorHandler.FieldMapKeys | src/main/java/compass/career/evaluationsapi/controller/RestExceptionHandler.java:33-36 | the `fields` map has an entry for every rejected field and for no other |
| ErrorHandler.FieldMapLast | src/main/java/compass/career/evaluationsapi/controller/RestExceptionHandler.java:33-36 | a field's entry holds the message of the last error on that field |
| ErrorHandler.CollectFieldErrors | src/main/java/compass/career/evaluationsapi/controller/RestExceptionHandler.java:33-36 | the loop builds exactly the `fields` map of the errors |
| ErrorHandler.IntegrityClass | src/main/java/compass/career/evaluationsapi/controller/RestExceptionHandler.java:82-96 | a duplicate or unique violation first, then a foreign-key violation, then a null value exactly when neither of those applies and the message mentions "null", otherwise the generic integrity error |
| ErrorHandler.NotNullMeansNull | src/main/java/compass/career/evaluationsapi/controller/RestExceptionHandler.java:93 | the "not-null" test never decides: a message containing it contains "null" |
| ErrorHandler.SqlDecision | src/main/java/compass/career/evaluationsapi/controller/RestExceptionHandler.java:104-123 | a 500 exactly on an authentication failure, a 503 otherwise; a missing database and a timeout are told apart in that order |
| ErrorHandler.ClientErrorDecision | src/main/java/compass/career/evaluationsapi/controller/RestExceptionHandler.java:140-159 | 429 is passed through exactly for an upstream 429, every other upstream error is a 502; 401, 403 and 404 have their own codes, anything else the generic client-error code |
| ErrorHandler.AccessClass | src/main/java/compass/career/evaluationsapi/controller/RestExceptionHandler.java:188-200 | a socket-timeout cause is a timeout whatever the message; otherwise the message is read, and a `null` one makes the handler fail; a refused connection before a timed-out one |
| ErrorHandler.NotReadableRest | src/main/java/compass/career/evaluationsapi/controller/RestExceptionHandler.java:303-312 | after the date tests, the chain never gives a date or date-time code |
| ErrorHandler.NotReadableClassAsWritten | src/main/java/compass/career/evaluationsapi/controller/RestExceptionHandler.java:297-312 | as written, every message mentioning "LocalDate" is reported as a bad date |
| ErrorHandler.DateTimeMentionsDate | src/main/java/compass/career/evaluationsapi/controller/RestExceptionHandler.java:297-300 | every message mentioning "LocalDateTime" mentions "LocalDate" |
| ErrorHandler.DateTimeCodeUnreachable | src/main/java/compass/career/evaluationsapi/controller/RestExceptionHandler.java:297-302 | as written, the date-time code is never produced: a date-time parse failure is reported as a bad date |
| ErrorHandler.NotReadableClass | src/main/java/compass/career/evaluationsapi/controller/RestExceptionHandler.java:297-312 | with the date-time test first, the date-time code exactly for messages mentioning "LocalDateTime", the date code exactly for the others mentioning "LocalDate" |
| ErrorHandler.NotReadableClassAgrees | src/main/java/compass/career/evaluationsapi/controller/RestExceptionHandler.java:297-312 | the correction changes only messages that mention "LocalDateTime" |
| ErrorHandler.HandleValidation | src/main/java/compass/career/evaluationsapi/controller/RestExceptionHandler.java:31-46 | 422, well formed, without diagnostics, carrying the `fields` map |
| ErrorHandler.HandleDataIntegrity | src/main/java/compass/career/evaluationsapi/controller/RestExceptionHandler.java:80-100 | always 409, well formed, without diagnostics, the code decided on the lower-cased message |
| ErrorHandler.HandleSql | src/main/java/compass/career/evaluationsapi/controller/RestExceptionHandler.java:102-134 | the decision's status and code, well formed, diagnostics only in development mode |
| ErrorHandler.HandleClientError | src/main/java/compass/career/evaluationsapi/controller/RestExceptionHandler.java:138-169 | the decision's status and code, the upstream status echoed, the upstream body only in development mode |
| ErrorHandler.HandleServerError | src/main/java/compass/career/evaluationsapi/controller/RestExceptionHandler.java:171-184 | always 502, the upstream status echoed, the upstream body only in development mode |
| ErrorHandler.HandleResourceAccess | src/main/java/compass/career/evaluationsapi/controller/RestExceptionHandler.java:186-210 | always 503 with the classified code, diagnostics only in development mode |
| ErrorHandler.HandleSocketTimeout | src/main/java/compass/career/evaluationsapi/controller/RestExceptionHandler.java:212-224 | always 504, diagnostics only in development mode |
| ErrorHandler.HandleUnexpected | src/main/java/compass/career/evaluationsapi/controller/RestExceptionHandler.java:320-336 | always 500, the exception's message and type only in development mode |
| ErrorHandler.HandleNotReadable | src/main/java/compass/career/evaluationsapi/controller/RestExceptionHandler.java:290-316 | always 400, well formed, without diagnostics, the code from the corrected date chain |
| ErrorHandler.Handle | src/main/java/compass/career/evaluationsapi/controller/RestExceptionHandler.java:26-353 | every handled failure gives a well-formed response, and outside development mode no response carries diagnostics |
| ErrorHandler.HandleFailsExactly | src/main/java/compass/career/evaluationsapi/controller/RestExceptionHandler.java:85-297 | a handler fails exactly when it reads a `null` message: the integrity, SQL and unreadable-message handlers always read it, the resource-access one unless the cause is a socket timeout |
| ErrorHandler.ClientMistakeStatus | src/main/java/compass/career/evaluationsapi/controller/RestExceptionHandler.java:31-316 | the caller's mistakes are 400, 404, 405 or 422, and a conflicting write is 409 |
| ErrorHandler.DependencyFailureStatus | src/main/java/compass/career/evaluationsapi/controller/RestExceptionHandler.java:102-336 | a database failure is 503, or 500 on refused credentials; an upstream client error 429 or 502, a server error 502, an unreachable service 503, a timeout 504, anything unexpected 500 |
| ErrorHandler.ServiceErrorResponse | src/main/java/compass/career/evaluationsapi/controller/RestExceptionHandler.java:48-210 | the service's failures are 400 for an invalid argument or state and 404 for a missing entity, with the message in the body; an upstream 5xx passed through is 502, an unreachable upstream 503, and any other exception 500 |
| ErrorHandler.ClientErrorEchoesStatus | src/main/java/compass/career/evaluationsapi/controller/RestExceptionHandler.java:144-162 | the client-error body echoes the upstream status code |

## Left out

- Calls to other services: the Azure text-analysis, Groq and Reddit HTTP calls and the users client are parameters of the operations that use them. Their answers, or the failure of the call, are inputs.
- `analyzeText` (`AzureCognitiveServiceImpl.java:43-53`) is not modelled. It is a thin wrapper over the same two calls that `analyzePersonality` makes.
- The prompt text sent to the ranking service (`buildSpecializationPrompt` and the career prompt) is folded into the ranking oracle. The model keeps the profile and catalogue that feed the prompt, not the wording.
- Evaluations.EvaluationService.SubmitPersonalityTest takes the personality analysis as a function parameter, standing for the injected text-analysis service. Its implementation is Personality.AnalyzePersonality.
- Random question sampling: `getPersonalityTest`, `getVocationalInterestsTest` and `getCognitiveSkillsTest` draw random active questions from the database, and are not modelled.
- Career CRUD: `getCareerById`, `createCareer` and `updateCareer` in `CareerServiceImpl` are catalogue plumbing outside the scoring and recommendation core. The mappers they use are modelled.
- Floating point: the vocational and cognitive percentages are computed in `double` before `setScale(2, HALF_UP)`, and the personality formulas are `double` throughout. The model computes them exactly, as integers and reals. It does not capture binary rounding just below a half.
- Transactions: `@Transactional` rollback is modelled by resolving and checking everything before the first write. An operation that fails leaves every table unchanged. Concurrent requests and database constraints are not modelled.
- The recommendation cache has no single-flight. Two concurrent requests for the same user can both call the ranking service; the model runs one request at a time.
- JSON: results are stored as serialized JSON. The model stores the result value itself, and reads back a stored value or a blob that does not parse.
- `HashMap` iteration order is unspecified. Wherever the model walks a map (the vocational and cognitive percentages, the personality responses and dimensions, and through them the ties left by the sorts that follow), the order is an `order` parameter, a list of the map's keys each exactly once.
- Repository queries without ORDER BY return rows in an order the database does not promise: `findAll` at `TestServiceImpl.java:36`, `CareerServiceImpl.java:87`, `SpecializationServiceImpl.java:88` and `SpecializationServiceImpl.java:345`, `findByTestIdAndActiveTrue` at `TestServiceImpl.java:54`, and the paged `findByUserIdAndActiveTrue(userId, PageRequest.of(page, pageSize))` at `FavoriteCareerServiceImpl.java:86` and `FavoriteSpecializationServiceImpl.java:88` (declared at `FavoriteCareerRepository.java:11`). The model returns them in table order, the order the rows were first saved, and `TestAdmin.GetAllTests`, `TestAdmin.GetTestDetails`, `Careers.Infos`, `Specializations.Infos`, `Specializations.SpecializationService.GetAllSpecializations` and `Favorites.FavoriteTable.List` state that order; `Favorites.FavoriteTable.List` pages the user's active rows in that order. `Favorites.FavoriteTable.Add` reactivates an inactive row in place, so a favourite added again keeps its old position.
- SocialMedia.Snippet: measures and cuts the self text in UTF-16 code units, as `String.length()` and `substring` do, but a Dafny `char` is a whole code point. When the 200th code unit is the first half of a surrogate pair, `substring(0, 200)` keeps that lone half; the model leaves the whole character out and keeps 199 code units.
- The summaries' `catch` blocks ("Resumen no disponible temporalmente.") cannot be reached in the model. The Reddit data is typed, so the casts they guard against cannot fail.
- The back-reference from a question to its test is not modelled. Questions are values held by their test.
- `Model/Test.java`, `Question.java` and `AnswerOption.java` are not part of this model. Their fields are inferred from how the services and mappers use them.
- The `copyTo*` mapper methods update an entity in place. They are modelled as functions returning the updated entity.
- Security, request validation annotations, logging, controllers and the paging wrappers' JSON shape are not modelled.
- ErrorHandler.HandleNotReadable: answers from the corrected chain `NotReadableClass`, so a message naming `LocalDateTime` gets `INVALID_DATETIME_FORMAT`. The handler as written (`RestExceptionHandler.java:297-299`) answers `INVALID_DATE_FORMAT`. That as-written behaviour is `NotReadableClassAsWritten`, and the difference is stated by `DateTimeCodeUnreachable` and `NotReadableClassAgrees` (see "Findings").
- ErrorHandler.Handle: sends an unreadable message through `HandleNotReadable`, so it differs from the program as written in the same way, on messages naming `LocalDateTime` only.
- ErrorHandler.OfServiceError: reports every `Runtime` failure under the simple name `RuntimeException`. The development-mode `exceptionType` of a `NullPointerException` (a `null` option list in `TestAdmin.UpdateCheck` or the cognitive submit) is `NullPointerException` in the source, and its message is the JVM's, not modelled.
- Vocational.Tally: the per-category sums and the total are unbounded integers. The source adds into Java `int`s (`EvaluationServiceImpl.java:183-189`), which wrap past 2^31 - 1. `Vocational.ScoresInRange` relies on sums that do not wrap.
- Cognitive.ScoreTally: the per-category score sums are unbounded, where the source adds into Java `int`s (`EvaluationServiceImpl.java:313-314`). `Cognitive.CognitiveScoresInRange` relies on sums that do not wrap.
- Cognitive.MaxTally: the per-category maximum sums are unbounded, where the source adds into Java `int`s (`EvaluationServiceImpl.java:322-323`).
- Common.ToLowerChar: lowers ASCII and Latin-1 capitals only. The other Unicode case mappings of `String.toLowerCase`, such as U+212A KELVIN SIGN to `k`, are not modelled. So `TestAdmin.GetTestTypeDisplayName` and the keyword counts in `Personality` can differ from the source on such text.
- Common.Json: a JSON number is an exact count of hundredths (`JNumber`). A number with three or more decimals, an exponent beyond that precision, or a value a `double` would round cannot be stated, so `Specializations.ParseItem` keeps the ranking service's `compatibilityPercentage` to two decimals where `doubleValue()` keeps the double, and `SocialMedia.ExtractedTotals` reads a Reddit `score` or `num_comments` only at that precision before truncating it.
- Specializations.ParseItem: the ids the oracle returns are truncated to whole numbers but not narrowed to 32 bits as `Number.intValue()` would narrow them.
- Careers.NameLeq: orders names by character code. The source sorts with `Sort.by("name")`, which follows the database's collation.
- Evaluations.Detail: keeps a missing total score as an absent value. The source writes the string "N/A" there and otherwise the score's `toString()` (`EvaluationServiceImpl.java:426-427`).
- SocialMedia.ExtractedTotals: a post's score or comment count is truncated to a whole number, but a value outside the `int` range is not narrowed as `Number.intValue()` would narrow it. Only the running totals are wrapped to 32 bits.

## Findings

| source | as written | input that shows it | evidently intended | confidence | as-written member | corrected member |
|---|---|---|---|---|---|---|
| src/main/java/compass/career/evaluationsapi/controller/RestExceptionHandler.java:297-302 | `handleMessageNotReadable` tests for `"LocalDate"` before `"LocalDateTime"`. Every message naming `LocalDateTime` also contains `LocalDate`, so the `INVALID_DATETIME_FORMAT` branch can never be taken. | a message containing `"Cannot deserialize value of type java.time.LocalDateTime"` is answered with `INVALID_DATE_FORMAT` | the more specific `"LocalDateTime"` test first, so a date-time parse failure gets `INVALID_DATETIME_FORMAT` | not executed | ErrorHandler.NotReadableClassAsWritten | ErrorHandler.NotReadableClass |
