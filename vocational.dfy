/**
 * Vocational-interest scoring (`submitVocationalInterestsTest`): chosen options
 * are folded into per-category weight sums, each sum becomes its share of the
 * total as a percentage, the five largest are kept and ranked, and the
 * evaluation's total score is the mean of the kept percentages.
 *
 * `order` stands for the iteration order of the area map, which `HashMap`
 * leaves unspecified: any enumeration of the map's keys without repetition.
 */
module Vocational {
  import opened Common
  import opened Entities
  import Decimal
  import Ranking

  /** Number of areas kept in the ranking. */
  const TopAreaCount: nat := 5

  /** One step of the fold: an option without category leaves the sums alone. */
  function AddAnswer(scores: map<string, int>, o: AnswerOption): map<string, int> {
    match o.category
    case None => scores
    case Some(c) => scores[c := (if c in scores then scores[c] else 0) + WeightOrZero(o)]
  }

  /** `areaScores` after folding the chosen options in answer order. */
  function Tally(options: seq<AnswerOption>): map<string, int> {
    if options == [] then map[] else AddAnswer(Tally(options[..|options| - 1]), options[|options| - 1])
  }

  // ------------------------------------------------- reference definitions

  /** Total weight of the chosen options whose category is `c`. */
  function CategorySum(options: seq<AnswerOption>, c: string): int {
    if options == [] then 0
    else
      var last := options[|options| - 1];
      CategorySum(options[..|options| - 1], c) + (if last.category == Some(c) then WeightOrZero(last) else 0)
  }

  /** Some chosen option has category `c`. */
  predicate HasCategory(options: seq<AnswerOption>, c: string) {
    exists i :: 0 <= i < |options| && options[i].category == Some(c)
  }

  /** Total weight of the chosen options that have a category at all. */
  function CategorizedWeight(options: seq<AnswerOption>): int {
    if options == [] then 0
    else
      var last := options[|options| - 1];
      CategorizedWeight(options[..|options| - 1]) + (if last.category.Some? then WeightOrZero(last) else 0)
  }

  /**
   * The fold computes, for exactly the categories that occur among the chosen
   * options, the sum of their weights.
   */
  lemma {:induction false} TallyIsCategorySum(options: seq<AnswerOption>, c: string)
    ensures c in Tally(options) <==> HasCategory(options, c)
    ensures c in Tally(options) ==> Tally(options)[c] == CategorySum(options, c)
    ensures !HasCategory(options, c) ==> CategorySum(options, c) == 0
  {
    if options != [] {
      var init := options[..|options| - 1];
      TallyIsCategorySum(init, c);
      assert forall i :: 0 <= i < |init| ==> options[i] == init[i];
      if HasCategory(options, c) && !HasCategory(init, c) {
        var i :| 0 <= i < |options| && options[i].category == Some(c);
        assert i == |options| - 1;
      }
    } else {
      assert !HasCategory(options, c);
    }
  }

  // ------------------------------------------------- total over the key set

  /** Weight of the chosen options whose category lies in `cats`. */
  function WeightIn(options: seq<AnswerOption>, cats: set<string>): int {
    if options == [] then 0
    else
      var last := options[|options| - 1];
      WeightIn(options[..|options| - 1], cats) +
        (if last.category.Some? && last.category.value in cats then WeightOrZero(last) else 0)
  }

  lemma {:induction false} WeightInAddCategory(options: seq<AnswerOption>, cats: set<string>, k: string)
    requires k !in cats
    ensures WeightIn(options, cats + {k}) == WeightIn(options, cats) + CategorySum(options, k)
  {
    if options != [] {
      WeightInAddCategory(options[..|options| - 1], cats, k);
    }
  }

  lemma {:induction false} WeightInAllCategories(options: seq<AnswerOption>, cats: set<string>)
    requires forall i :: 0 <= i < |options| && options[i].category.Some? ==> options[i].category.value in cats
    ensures WeightIn(options, cats) == CategorizedWeight(options)
  {
    if options != [] {
      var init := options[..|options| - 1];
      assert forall i :: 0 <= i < |init| ==> init[i] == options[i];
      WeightInAllCategories(init, cats);
    }
  }

  lemma {:induction false} SumOverTally(order: seq<string>, options: seq<AnswerOption>)
    requires forall i, j :: 0 <= i < j < |order| ==> order[i] != order[j]
    requires forall k :: k in order ==> k in Tally(options)
    ensures SumOver(order, Tally(options)) == WeightIn(options, set k | k in order)
  {
    if order == [] {
      WeightInEmpty(options);
      assert (set k | k in order) == {};
    } else {
      var init := order[..|order| - 1];
      var last := order[|order| - 1];
      SumOverTally(init, options);
      assert (set k | k in order) == (set k | k in init) + {last};
      assert last !in init;
      WeightInAddCategory(options, (set k | k in init), last);
      TallyIsCategorySum(options, last);
    }
  }

  lemma {:induction false} WeightInEmpty(options: seq<AnswerOption>)
    ensures WeightIn(options, {}) == 0
  {
    if options != [] {
      WeightInEmpty(options[..|options| - 1]);
    }
  }

  /**
   * `totalScore` (the sum of the area sums) is the total weight of the chosen
   * options that carry a category, whatever the map's iteration order.
   */
  lemma TotalIsCategorizedWeight(order: seq<string>, options: seq<AnswerOption>)
    requires Enumerates(order, Tally(options))
    ensures SumOver(order, Tally(options)) == CategorizedWeight(options)
  {
    SumOverTally(order, options);
    forall i | 0 <= i < |options| && options[i].category.Some?
      ensures options[i].category.value in (set k | k in order)
    {
      TallyIsCategorySum(options, options[i].category.value);
    }
    WeightInAllCategories(options, (set k | k in order));
  }

  // ------------------------------------------------- percentages and ranking

  function PercentageOf(p: AreaPercentage): int {
    p.percentage
  }

  /** `areaPercentages`, enumerated in `order`. */
  function Percentages(order: seq<string>, scores: map<string, int>, total: int): (ps: seq<AreaPercentage>)
    requires forall k :: k in order ==> k in scores
    ensures |ps| == |order|
    ensures forall i :: 0 <= i < |ps| ==>
      ps[i].area == order[i] && ps[i].percentage == Decimal.Percent(scores[order[i]], total)
  {
    seq(|order|, i requires 0 <= i < |order| => AreaPercentage(order[i], Decimal.Percent(scores[order[i]], total)))
  }

  /** `sortedAreas`: the percentages sorted non-increasing, cut to the first five. */
  function TopAreas(order: seq<string>, scores: map<string, int>): seq<AreaPercentage>
    requires forall k :: k in order ==> k in scores
  {
    var total := SumOver(order, scores);
    Ranking.Take(Ranking.SortDesc(Percentages(order, scores, total), PercentageOf), TopAreaCount)
  }

  /** The areas present in a list of area percentages. */
  function Areas(ps: seq<AreaPercentage>): set<string> {
    set p | p in ps :: p.area
  }

  /**
   * The kept areas: at most five, percentages non-increasing, each one an area
   * of the map with its own percentage, no area twice.
   */
  lemma TopAreasSpec(order: seq<string>, scores: map<string, int>)
    requires Enumerates(order, scores)
    ensures var top := TopAreas(order, scores);
      |top| == (if |order| < TopAreaCount then |order| else TopAreaCount) &&
      Ranking.SortedDesc(top, PercentageOf) &&
      (forall i :: 0 <= i < |top| ==>
         (top[i].area in scores &&
          top[i].percentage == Decimal.Percent(scores[top[i].area], SumOver(order, scores)))) &&
      (forall i, j :: 0 <= i < j < |top| ==> top[i].area != top[j].area)
  {
    var total := SumOver(order, scores);
    var ps := Percentages(order, scores, total);
    var sorted := Ranking.SortDesc(ps, PercentageOf);
    var top := Ranking.Take(sorted, TopAreaCount);
    assert top == sorted[..|top|];
    KeptAreas(order, scores, total, ps, sorted, top);
    forall i, j | 0 <= i < j < |top|
      ensures top[i].area != top[j].area
    {
      DistinctAreasAfterSort(order, ps, sorted, i, j);
    }
  }

  /** None of the areas left out has a larger percentage than any area kept. */
  lemma TopAreasBest(order: seq<string>, scores: map<string, int>)
    requires Enumerates(order, scores)
    ensures var top := TopAreas(order, scores);
      forall k, i :: k in scores && k !in Areas(top) && 0 <= i < |top| ==>
        Decimal.Percent(scores[k], SumOver(order, scores)) <= top[i].percentage
  {
    var total := SumOver(order, scores);
    var ps := Percentages(order, scores, total);
    var sorted := Ranking.SortDesc(ps, PercentageOf);
    var top := Ranking.Take(sorted, TopAreaCount);
    LeftOutAreas(order, scores, total, ps, sorted, top);
  }

  lemma KeptAreas(order: seq<string>, scores: map<string, int>, total: int,
                  ps: seq<AreaPercentage>, sorted: seq<AreaPercentage>, top: seq<AreaPercentage>)
    requires forall k :: k in order ==> k in scores
    requires ps == Percentages(order, scores, total)
    requires multiset(sorted) == multiset(ps) && |top| <= |sorted| && top == sorted[..|top|]
    ensures forall i :: 0 <= i < |top| ==>
      top[i].area in scores && top[i].percentage == Decimal.Percent(scores[top[i].area], total)
  {
    forall i | 0 <= i < |top|
      ensures top[i].area in scores && top[i].percentage == Decimal.Percent(scores[top[i].area], total)
    {
      assert top[i] == sorted[i];
      assert top[i] in multiset(ps);
      var m :| 0 <= m < |ps| && ps[m] == top[i];
    }
  }

  lemma LeftOutAreas(order: seq<string>, scores: map<string, int>, total: int,
                     ps: seq<AreaPercentage>, sorted: seq<AreaPercentage>, top: seq<AreaPercentage>)
    requires Enumerates(order, scores)
    requires ps == Percentages(order, scores, total)
    requires multiset(sorted) == multiset(ps) && Ranking.SortedDesc(sorted, PercentageOf)
    requires |top| <= |sorted| && top == sorted[..|top|]
    ensures forall k, i :: k in scores && k !in Areas(top) && 0 <= i < |top| ==>
      Decimal.Percent(scores[k], total) <= top[i].percentage
  {
    forall k, i | k in scores && k !in Areas(top) && 0 <= i < |top|
      ensures Decimal.Percent(scores[k], total) <= top[i].percentage
    {
      var m :| 0 <= m < |order| && order[m] == k;
      var p := ps[m];
      assert p in multiset(sorted);
      var n :| 0 <= n < |sorted| && sorted[n] == p;
      assert n >= |top| by {
        assert forall j :: 0 <= j < |top| ==> top[j] == sorted[j] && top[j] in top;
      }
      assert top[i] == sorted[i];
      assert PercentageOf(sorted[i]) >= PercentageOf(sorted[n]);
    }
  }

  lemma DistinctAreasAfterSort(order: seq<string>, ps: seq<AreaPercentage>, sorted: seq<AreaPercentage>, i: int, j: int)
    requires forall a, b :: 0 <= a < b < |order| ==> order[a] != order[b]
    requires |ps| == |order| && forall a :: 0 <= a < |ps| ==> ps[a].area == order[a]
    requires multiset(sorted) == multiset(ps)
    requires 0 <= i < j < |sorted|
    ensures sorted[i].area != sorted[j].area
  {
    assert sorted[i] in multiset(ps) && sorted[j] in multiset(ps);
    var a :| 0 <= a < |ps| && ps[a] == sorted[i];
    var b :| 0 <= b < |ps| && ps[b] == sorted[j];
    assert sorted[i].area == sorted[j].area ==> a == b;
    MultisetTwice(sorted, i, j);
    MultisetOnce(ps, order, a);
  }

  lemma MultisetTwice<T>(s: seq<T>, i: int, j: int)
    requires 0 <= i < j < |s|
    ensures s[i] == s[j] ==> multiset(s)[s[i]] >= 2
  {
    assert s == s[..i] + [s[i]] + s[i + 1..j] + [s[j]] + s[j + 1..];
  }

  lemma MultisetOnce(ps: seq<AreaPercentage>, order: seq<string>, a: int)
    requires forall x, y :: 0 <= x < y < |order| ==> order[x] != order[y]
    requires |ps| == |order| && forall x :: 0 <= x < |ps| ==> ps[x].area == order[x]
    requires 0 <= a < |ps|
    ensures multiset(ps)[ps[a]] == 1
  {
    assert ps == ps[..a] + [ps[a]] + ps[a + 1..];
    assert forall x :: 0 <= x < a ==> ps[..a][x].area == order[x] != order[a];
    assert forall x :: a < x < |ps| ==> ps[x].area == order[x] != order[a];
    var tail := ps[a + 1..];
    assert forall x :: 0 <= x < |tail| ==> tail[x].area == order[a + 1 + x] != order[a];
    assert ps[a] !in ps[..a] && ps[a] !in tail;
    assert multiset(ps[..a])[ps[a]] == 0;
    assert multiset(ps[a + 1..])[ps[a]] == 0;
  }

  /** The evaluation's total score: the mean of the kept percentages, or 0 when none is kept. */
  function AverageScore(top: seq<AreaPercentage>): int {
    if top == [] then 0 else Decimal.Mean(Sum(Percents(top)), |top|)
  }

  function Percents(top: seq<AreaPercentage>): (r: seq<int>)
    ensures |r| == |top| && forall i :: 0 <= i < |top| ==> r[i] == top[i].percentage
  {
    seq(|top|, i requires 0 <= i < |top| => top[i].percentage)
  }

  /** With non-negative weights, every area's sum lies between 0 and the total. */
  lemma {:induction false} CategorySumBounded(options: seq<AnswerOption>, c: string)
    requires forall i :: 0 <= i < |options| ==> WeightOrZero(options[i]) >= 0
    ensures 0 <= CategorySum(options, c) <= CategorizedWeight(options)
  {
    if options != [] {
      CategorySumBounded(options[..|options| - 1], c);
    }
  }

  /**
   * With non-negative weights every kept percentage lies in [0.00, 100.00], and so
   * does the evaluation's total score.
   */
  lemma ScoresInRange(order: seq<string>, options: seq<AnswerOption>)
    requires Enumerates(order, Tally(options))
    requires forall i :: 0 <= i < |options| ==> WeightOrZero(options[i]) >= 0
    ensures var top := TopAreas(order, Tally(options));
      (forall i :: 0 <= i < |top| ==> 0 <= top[i].percentage <= 10000) &&
      0 <= AverageScore(top) <= 10000
  {
    var scores := Tally(options);
    var top := TopAreas(order, scores);
    TopAreasSpec(order, scores);
    TotalIsCategorizedWeight(order, options);
    forall i | 0 <= i < |top|
      ensures 0 <= top[i].percentage <= 10000
    {
      TallyIsCategorySum(options, top[i].area);
      CategorySumBounded(options, top[i].area);
      Decimal.PercentInRange(scores[top[i].area], SumOver(order, scores));
    }
    if top != [] {
      SumBounds(Percents(top), 0, 10000);
      Decimal.MeanBetween(Sum(Percents(top)), |top|, 0, 10000);
    }
  }

  // ------------------------------------------------- recommendations

  /** The advice line written for one kept area. */
  function RecommendationLine(area: string): string {
    "Considera carreras en el área de " + area + " donde podrás desarrollar tu potencial al máximo."
  }

  /** The advice lines for the kept areas, in ranking order. */
  function Recommendations(topAreas: seq<AreaPercentage>): seq<string> {
    seq(|topAreas|, i requires 0 <= i < |topAreas| => RecommendationLine(topAreas[i].area))
  }

  /** `generateVocationalRecommendations`: one line per kept area, in ranking order. */
  method GenerateRecommendations(topAreas: seq<AreaPercentage>) returns (recommendations: seq<string>)
    ensures |recommendations| == |topAreas|
    ensures forall i :: 0 <= i < |topAreas| ==> recommendations[i] == RecommendationLine(topAreas[i].area)
    ensures recommendations == Recommendations(topAreas)
  {
    recommendations := [];
    for i := 0 to |topAreas|
      invariant |recommendations| == i
      invariant forall j :: 0 <= j < i ==> recommendations[j] == RecommendationLine(topAreas[j].area)
    {
      recommendations := recommendations + [RecommendationLine(topAreas[i].area)];
    }
  }
}
