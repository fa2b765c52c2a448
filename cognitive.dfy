/**
 * Cognitive-skills scoring (`submitCognitiveSkillsTest`): every chosen option
 * that has both a category and a weight adds its weight to the category's
 * score and the largest weight its question offers in that category to the
 * category's maximum; each category's percentage of its maximum is banded
 * "bajo", "medio" or "alto", and so is the mean of the percentages.
 *
 * Percentages and the mean are `int` hundredths (see `Decimal`); `order` stands
 * for the `HashMap` iteration order of the category map.
 */
module Cognitive {
  import opened Common
  import opened Entities
  import Decimal

  /** Only options with a category and a weight take part in the tallies. */
  predicate Counts(a: Answered) {
    a.option.category.Some? && a.option.weightValue.Some?
  }

  /**
   * The largest weight among the options whose category is `c`, or `None` when
   * no option has that category (`filter(…).mapToInt(…).max()`).
   */
  function MaxMatching(options: seq<AnswerOption>, c: string): (m: Option<int>)
    ensures m.None? <==> forall i :: 0 <= i < |options| ==> options[i].category != Some(c)
    ensures m.Some? ==>
      forall i :: 0 <= i < |options| && options[i].category == Some(c) ==> WeightOrZero(options[i]) <= m.value
    ensures m.Some? ==>
      exists i :: 0 <= i < |options| && options[i].category == Some(c) && WeightOrZero(options[i]) == m.value
  {
    if options == [] then None
    else
      var init := options[..|options| - 1];
      var last := options[|options| - 1];
      var rest := MaxMatching(init, c);
      assert forall i :: 0 <= i < |init| ==> init[i] == options[i];
      if last.category != Some(c) then rest
      else if rest.Some? && rest.value >= WeightOrZero(last) then rest
      else Some(WeightOrZero(last))
  }

  /** `maxWeight`: the question's best weight in category `c`, 0 when it offers none. */
  function MaxWeight(q: Question, c: string): int {
    MaxMatching(q.answerOptions.GetOrElse([]), c).GetOrElse(0)
  }

  /** `cognitiveScores` after the given answers, in answer order. */
  function ScoreTally(answers: seq<Answered>): map<string, int> {
    if answers == [] then map[]
    else
      var s := ScoreTally(answers[..|answers| - 1]);
      var a := answers[|answers| - 1];
      if Counts(a) then
        var c := a.option.category.value;
        s[c := (if c in s then s[c] else 0) + a.option.weightValue.value]
      else s
  }

  /** `cognitiveMaxScores` after the given answers, in answer order. */
  function MaxTally(answers: seq<Answered>): map<string, int> {
    if answers == [] then map[]
    else
      var s := MaxTally(answers[..|answers| - 1]);
      var a := answers[|answers| - 1];
      if Counts(a) then
        var c := a.option.category.value;
        s[c := (if c in s then s[c] else 0) + MaxWeight(a.question, c)]
      else s
  }

  /** The two tallies always have the same categories, the ones of the counted answers. */
  lemma {:induction false} TalliesShareKeys(answers: seq<Answered>)
    ensures ScoreTally(answers).Keys == MaxTally(answers).Keys
    ensures forall c :: c in ScoreTally(answers) <==>
      exists i :: 0 <= i < |answers| && Counts(answers[i]) && answers[i].option.category.value == c
  {
    if answers != [] {
      var init := answers[..|answers| - 1];
      TalliesShareKeys(init);
      assert forall i :: 0 <= i < |init| ==> init[i] == answers[i];
      forall c | c in ScoreTally(answers)
        ensures exists i :: 0 <= i < |answers| && Counts(answers[i]) && answers[i].option.category.value == c
      {
        if c !in ScoreTally(init) {
          assert Counts(answers[|answers| - 1]) && answers[|answers| - 1].option.category.value == c;
        }
      }
    }
  }

  /**
   * Every counted option is one of its question's options and has a
   * non-negative weight. The service does not check the first part.
   */
  ghost predicate Consistent(answers: seq<Answered>) {
    forall i :: 0 <= i < |answers| && Counts(answers[i]) ==>
      answers[i].question.answerOptions.Some? &&
      answers[i].option in answers[i].question.answerOptions.value &&
      answers[i].option.weightValue.value >= 0
  }

  /** For consistent answers a category's score lies between 0 and its maximum. */
  lemma {:induction false} ScoreWithinMax(answers: seq<Answered>, c: string)
    requires Consistent(answers)
    requires c in ScoreTally(answers)
    ensures c in MaxTally(answers)
    ensures 0 <= ScoreTally(answers)[c] <= MaxTally(answers)[c]
  {
    TalliesShareKeys(answers);
    var init := answers[..|answers| - 1];
    var a := answers[|answers| - 1];
    assert forall i :: 0 <= i < |init| ==> init[i] == answers[i];
    assert Consistent(init);
    TalliesShareKeys(init);
    if c in ScoreTally(init) {
      ScoreWithinMax(init, c);
    }
    if Counts(a) && a.option.category.value == c {
      var options := a.question.answerOptions.value;
      var k :| 0 <= k < |options| && options[k] == a.option;
      assert options[k].category == Some(c);
      assert WeightOrZero(a.option) <= MaxWeight(a.question, c);
    }
  }

  // ------------------------------------------------- percentages and levels

  /** `determineLevel`: the band of a percentage given in hundredths. */
  function DetermineLevel(score: int): (level: string)
    ensures level == "bajo" <==> score <= 4000
    ensures level == "medio" <==> 4000 < score <= 7000
    ensures level == "alto" <==> score > 7000
  {
    if score <= 4000 then "bajo" else if score <= 7000 then "medio" else "alto"
  }

  /** `areaScores`, enumerated in `order`: each category's percentage and band. */
  function CognitiveAreas(order: seq<string>, scores: map<string, int>, maxes: map<string, int>)
    : (areas: seq<CognitiveArea>)
    requires forall c :: c in order ==> c in scores && c in maxes
    ensures |areas| == |order|
    ensures forall i :: 0 <= i < |order| ==>
      areas[i].category == order[i] &&
      areas[i].score == Decimal.Percent(scores[order[i]], maxes[order[i]]) &&
      areas[i].level == DetermineLevel(areas[i].score)
  {
    seq(|order|, i requires 0 <= i < |order| =>
      var p := Decimal.Percent(scores[order[i]], maxes[order[i]]);
      CognitiveArea(order[i], p, DetermineLevel(p)))
  }

  function AreaScores(areas: seq<CognitiveArea>): (r: seq<int>)
    ensures |r| == |areas| && forall i :: 0 <= i < |areas| ==> r[i] == areas[i].score
  {
    seq(|areas|, i requires 0 <= i < |areas| => areas[i].score)
  }

  /** The evaluation's total score: the mean of the category percentages, 0 without categories. */
  function OverallScore(areas: seq<CognitiveArea>): int {
    if areas == [] then 0 else Decimal.Mean(Sum(AreaScores(areas)), |areas|)
  }

  /** The stored cognitive result for the given answers. */
  function CognitiveOutcome(order: seq<string>, answers: seq<Answered>): (r: ResultArtifact)
    requires Enumerates(order, ScoreTally(answers))
    ensures r.CognitiveResult?
  {
    TalliesShareKeys(answers);
    var areas := CognitiveAreas(order, ScoreTally(answers), MaxTally(answers));
    CognitiveResult(areas, DetermineLevel(OverallScore(areas)))
  }

  /**
   * For consistent answers every category percentage and the overall score are
   * between 0.00 and 100.00, and the overall level is the band of the overall score.
   */
  lemma CognitiveScoresInRange(order: seq<string>, answers: seq<Answered>)
    requires Enumerates(order, ScoreTally(answers))
    requires Consistent(answers)
    ensures var r := CognitiveOutcome(order, answers);
      (forall i :: 0 <= i < |r.cognitiveAreas| ==> 0 <= r.cognitiveAreas[i].score <= 10000) &&
      0 <= OverallScore(r.cognitiveAreas) <= 10000 &&
      r.overallLevel == DetermineLevel(OverallScore(r.cognitiveAreas))
  {
    TalliesShareKeys(answers);
    var scores, maxes := ScoreTally(answers), MaxTally(answers);
    var areas := CognitiveAreas(order, scores, maxes);
    forall i | 0 <= i < |areas|
      ensures 0 <= areas[i].score <= 10000
    {
      ScoreWithinMax(answers, order[i]);
      Decimal.PercentInRange(scores[order[i]], maxes[order[i]]);
    }
    if areas != [] {
      SumBounds(AreaScores(areas), 0, 10000);
      Decimal.MeanBetween(Sum(AreaScores(areas)), |areas|, 0, 10000);
    }
  }

  /** Without counted answers the result has no categories and its level is "bajo". */
  lemma NoCountedAnswers(order: seq<string>, answers: seq<Answered>)
    requires forall i :: 0 <= i < |answers| ==> !Counts(answers[i])
    requires Enumerates(order, ScoreTally(answers))
    ensures CognitiveOutcome(order, answers) == CognitiveResult([], "bajo")
  {
    TalliesShareKeys(answers);
    assert ScoreTally(answers) == map[];
    assert forall i :: 0 <= i < |order| ==> order[i] in ScoreTally(answers);
  }
}
