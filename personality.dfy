/**
 * Personality analysis (`AzureCognitiveServiceImpl.analyzePersonality`): the
 * answers are joined into one text, a sentiment score and a list of key
 * phrases are obtained for it from the text-analysis service, and five
 * dimensions follow from fixed linear formulas, each clamped to [0, 100] and
 * rounded to two decimals. A description and the three strongest traits are
 * derived from the dimensions.
 *
 * The text-analysis service is a pair of function parameters. Doubles are
 * exact reals; a dimension is kept as `int` hundredths. `order` parameters
 * stand for the iteration order of a `HashMap`.
 */
module Personality {
  import opened Common
  import opened Entities
  import Ranking

  // ------------------------------------------------- combined text

  /** Every value followed by ". ", concatenated. */
  function Dotted(values: seq<string>): string {
    if values == [] then "" else Dotted(values[..|values| - 1]) + (values[|values| - 1] + ". ")
  }

  /** The values of `responses`, enumerated in `order`. */
  function ValuesIn(order: seq<string>, responses: map<string, string>): (vs: seq<string>)
    requires forall k :: k in order ==> k in responses
    ensures |vs| == |order| && forall i :: 0 <= i < |order| ==> vs[i] == responses[order[i]]
  {
    seq(|order|, i requires 0 <= i < |order| => responses[order[i]])
  }

  /** The `StringBuilder` loop of `analyzePersonality`. */
  method CombineResponses(order: seq<string>, responses: map<string, string>) returns (text: string)
    requires forall k :: k in order ==> k in responses
    ensures text == Dotted(ValuesIn(order, responses))
  {
    var values := ValuesIn(order, responses);
    text := "";
    for i := 0 to |order|
      invariant text == Dotted(values[..i])
    {
      assert values[..i + 1][..i] == values[..i];
      text := text + responses[order[i]] + ". ";
      assert text == Dotted(values[..i]) + (values[i] + ". ");
    }
    assert values[..|order|] == values;
  }

  lemma {:induction false} DottedAppend(a: seq<string>, b: seq<string>)
    ensures Dotted(a + b) == Dotted(a) + Dotted(b)
    decreases |b|
  {
    if b == [] {
      assert a + b == a;
    } else {
      DottedAppend(a, b[..|b| - 1]);
      assert (a + b)[..|a + b| - 1] == a + b[..|b| - 1];
    }
  }

  lemma DottedStep(values: seq<string>, i: int)
    requires 0 <= i < |values|
    ensures Dotted(values[..i + 1]) == Dotted(values[..i]) + (values[i] + ". ")
  {
    assert values[..i + 1][..i] == values[..i];
  }

  /** Each answer text occurs in the combined text, followed by ". ". */
  lemma DottedContainsEach(values: seq<string>, i: int)
    requires 0 <= i < |values|
    ensures Contains(Dotted(values), values[i] + ". ")
  {
    var front, rest := values[..i + 1], values[i + 1..];
    assert values == front + rest;
    DottedAppend(front, rest);
    DottedStep(values, i);
    ContainsMiddle(Dotted(values[..i]), values[i] + ". ", Dotted(rest));
  }

  // ------------------------------------------------- text-analysis answers

  /** `getDefaultSentimentResult`: one neutral document scored 0.33 / 0.34 / 0.33. */
  const DefaultSentiment: SentimentResponse :=
    SentimentResponse(Some(SentimentResults(Some([
      SentimentDocument(Some(ConfidenceScores(Some(0.33), Some(0.34), Some(0.33))), Some("neutral"))]))))

  /** `getDefaultKeyPhrasesResult`: one document with no key phrases. */
  const DefaultKeyPhrases: KeyPhraseResponse :=
    KeyPhraseResponse(Some(KeyPhraseResults(Some([KeyPhraseDocument(Some([]))]))))

  /** `analyzeSentiment`: the body the call returned, or the default when the call threw. */
  function SentimentOrDefault(call: CallOutcome<SentimentResponse>): (r: Option<SentimentResponse>)
    ensures call.Failed? ==> r == Some(DefaultSentiment)
    ensures call.Returned? ==> r == call.body
  {
    match call
    case Failed => Some(DefaultSentiment)
    case Returned(body) => body
  }

  /** `extractKeyPhrases`: the body the call returned, or the default when the call threw. */
  function KeyPhrasesOrDefault(call: CallOutcome<KeyPhraseResponse>): (r: Option<KeyPhraseResponse>)
    ensures call.Failed? ==> r == Some(DefaultKeyPhrases)
    ensures call.Returned? ==> r == call.body
  {
    match call
    case Failed => Some(DefaultKeyPhrases)
    case Returned(body) => body
  }

  /**
   * The confidence scores of the first document when the body has the shape the
   * service expects and all three scores are numbers; `None` wherever it would
   * have thrown (and caught) or found no document.
   */
  function FirstConfidence(r: Option<SentimentResponse>): Option<ConfidenceScores> {
    if r.Some? && r.value.results.Some? && r.value.results.value.documents.Some? &&
       |r.value.results.value.documents.value| > 0
    then
      var doc := r.value.results.value.documents.value[0];
      if doc.confidenceScores.Some? && doc.confidenceScores.value.positive.Some? &&
         doc.confidenceScores.value.neutral.Some? && doc.confidenceScores.value.negative.Some?
      then doc.confidenceScores
      else None
    else None
  }

  /** `extractSentimentScore`: positive minus negative of the first document, 0.0 otherwise. */
  function SentimentScore(r: Option<SentimentResponse>): real {
    match FirstConfidence(r)
    case None => 0.0
    case Some(cs) => cs.positive.value - cs.negative.value
  }

  /**
   * The score stays within [-1, 1] whenever the confidences are probabilities,
   * and a body the service cannot read scores 0.
   */
  lemma SentimentScoreBounds(r: Option<SentimentResponse>)
    requires FirstConfidence(r).Some? ==>
      0.0 <= FirstConfidence(r).value.positive.value <= 1.0 &&
      0.0 <= FirstConfidence(r).value.negative.value <= 1.0
    ensures -1.0 <= SentimentScore(r) <= 1.0
    ensures FirstConfidence(r).None? ==> SentimentScore(r) == 0.0
  {
  }

  /** A failed sentiment call yields a score of exactly 0. */
  lemma DefaultSentimentScoresZero()
    ensures SentimentScore(SentimentOrDefault(Failed)) == 0.0
  {
    assert FirstConfidence(Some(DefaultSentiment)) == Some(ConfidenceScores(Some(0.33), Some(0.34), Some(0.33)));
  }

  /** `extractKeyPhrasesList`: the first document's phrases, none on any other shape. */
  function KeyPhraseList(r: Option<KeyPhraseResponse>): seq<string> {
    if r.Some? && r.value.results.Some? && r.value.results.value.documents.Some? &&
       |r.value.results.value.documents.value| > 0 &&
       r.value.results.value.documents.value[0].keyPhrases.Some?
    then r.value.results.value.documents.value[0].keyPhrases.value
    else []
  }

  // ------------------------------------------------- keyword rules

  /** Characters Java's `.` does not match: the line terminators of `java.util.regex.Pattern`. */
  predicate IsLineTerminator(ch: char) {
    ch == '\n' || ch == '\r' || ch == '\U{0085}' || ch == '\U{2028}' || ch == '\U{2029}'
  }

  /**
   * `phrase.toLowerCase().matches(".*(k1|k2|…).*")`: the whole lower-cased
   * phrase must match, so it may contain no line terminator, and it must
   * contain one of the keywords.
   */
  predicate MatchesAny(phrase: string, keywords: seq<string>) {
    var s := ToLower(phrase);
    (forall i :: 0 <= i < |s| ==> !IsLineTerminator(s[i])) &&
    (exists k :: 0 <= k < |keywords| && Contains(s, keywords[k]))
  }

  /** Number of phrases that match. */
  function CountMatches(phrases: seq<string>, keywords: seq<string>): (n: nat)
    ensures n <= |phrases|
  {
    if phrases == [] then 0
    else CountMatches(phrases[..|phrases| - 1], keywords) + (if MatchesAny(phrases[|phrases| - 1], keywords) then 1 else 0)
  }

  const ConscientiousnessWords: seq<string> := ["organiz", "plan", "respons", "deber", "orden"]
  const ExtraversionWords: seq<string> := ["grupo", "gente", "social", "equipo", "amig"]
  const AgreeablenessWords: seq<string> := ["ayud", "cooper", "apoyo", "equipo", "colabor"]
  const NeuroticismWords: seq<string> := ["estrés", "ansi", "preocup", "nerv", "problem"]

  /** A phrase mentioning "equipo" on one line counts for extraversion and for agreeableness. */
  lemma TeamCountsTwice(phrase: string)
    requires Contains(ToLower(phrase), "equipo")
    requires forall i :: 0 <= i < |phrase| ==> !IsLineTerminator(ToLower(phrase)[i])
    ensures MatchesAny(phrase, ExtraversionWords) && MatchesAny(phrase, AgreeablenessWords)
  {
    assert ExtraversionWords[3] == "equipo" && AgreeablenessWords[3] == "equipo";
  }

  // ------------------------------------------------- dimensions

  /** `Math.max(0, Math.min(100, x))`. */
  function Clamp(x: real): (c: real)
    ensures 0.0 <= c <= 100.0
    ensures 0.0 <= x <= 100.0 ==> c == x
  {
    if x > 100.0 then 100.0 else if x < 0.0 then 0.0 else x
  }

  /** `Math.round(x * 100.0) / 100.0` as a number of hundredths: half-way cases round up. */
  function Hundredths(x: real): (h: int)
    ensures h as real <= x * 100.0 + 0.5 < h as real + 1.0
  {
    (x * 100.0 + 0.5).Floor
  }

  /** A clamped dimension, in hundredths, lies between 0 and 10000. */
  function Dimension(raw: real): (h: int)
    ensures 0 <= h <= 10000
  {
    Hundredths(Clamp(raw))
  }

  /** `calculatePersonalityDimensions` for a sentiment score and a key-phrase list. */
  function CalculateDimensions(sentiment: real, phrases: seq<string>): (d: Dimensions)
    ensures 0 <= d.openness <= 10000 && 0 <= d.conscientiousness <= 10000
    ensures 0 <= d.extraversion <= 10000 && 0 <= d.agreeableness <= 10000
    ensures 0 <= d.neuroticism <= 10000
  {
    Dimensions(
      openness := Dimension(50.0 + |phrases| as real * 2.0 + sentiment * 10.0),
      conscientiousness := Dimension(50.0 + CountMatches(phrases, ConscientiousnessWords) as real * 8.0),
      extraversion := Dimension(50.0 + sentiment * 15.0 + CountMatches(phrases, ExtraversionWords) as real * 7.0),
      agreeableness := Dimension(50.0 + sentiment * 12.0 + CountMatches(phrases, AgreeablenessWords) as real * 8.0),
      neuroticism := Dimension(50.0 - sentiment * 15.0 + CountMatches(phrases, NeuroticismWords) as real * 8.0))
  }

  /** With a neutral sentiment and no key phrases every dimension is exactly 50.00. */
  lemma NeutralDimensions()
    ensures CalculateDimensions(0.0, []) == Dimensions(5000, 5000, 5000, 5000, 5000)
  {
  }

  /**
   * Within the clamp, each matching phrase adds its fixed amount: one more
   * conscientiousness match raises the dimension by exactly 8.00.
   */
  lemma ConscientiousnessStep(sentiment: real, phrases: seq<string>, p: string)
    requires MatchesAny(p, ConscientiousnessWords)
    requires 50.0 + (CountMatches(phrases, ConscientiousnessWords) + 1) as real * 8.0 <= 100.0
    ensures CalculateDimensions(sentiment, phrases + [p]).conscientiousness ==
            CalculateDimensions(sentiment, phrases).conscientiousness + 800
  {
    var n := CountMatches(phrases, ConscientiousnessWords);
    assert (phrases + [p])[..|phrases|] == phrases;
    assert CountMatches(phrases + [p], ConscientiousnessWords) == n + 1;
    var before := 50.0 + n as real * 8.0;
    assert Hundredths(before) == 5000 + 800 * n;
    assert Hundredths(before + 8.0) == 5000 + 800 * (n + 1);
  }

  // ------------------------------------------------- description

  /** The sentence for a high value and the one for a low value of a dimension. */
  datatype Sentences = Sentences(high: string, low: string)

  /** One pair of sentences per dimension. */
  datatype DescriptionTexts = DescriptionTexts(
    openness: Sentences,
    conscientiousness: Sentences,
    extraversion: Sentences,
    agreeableness: Sentences,
    neuroticism: Sentences)

  /**
   * The sentences `generatePersonalityDescription` appends (written in two
   * pieces each, which lets the verifier look at their first characters).
   */
  const Texts := DescriptionTexts(
    Sentences("Persona creativa y curiosa, " + "abierta a nuevas experiencias. ",
              "Persona práctica y tradicional, " + "prefiere lo conocido. "),
    Sentences("Muy organizada y responsable, " + "con fuerte sentido del deber. ",
              "Flexible y espontánea, " + "prefiere la adaptabilidad. "),
    Sentences("Sociable y energética, " + "disfruta de la interacción con otros. ",
              "Reservada e introspectiva, " + "valora el tiempo a solas. "),
    Sentences("Cooperativa y empática, " + "busca armonía en las relaciones. ",
              "Directa y analítica, " + "valora la objetividad. "),
    Sentences("Sensible emocionalmente, " + "puede experimentar estrés con facilidad.",
              "Emocionalmente estable " + "y resiliente ante desafíos."))

  /** The sentence a dimension contributes: above 70.00 the first, below 40.00 the second. */
  function Sentence(value: int, s: Sentences): string {
    if value > 7000 then s.high else if value < 4000 then s.low else ""
  }

  /** The untrimmed text the five `if` chains append. */
  function RawDescription(d: Dimensions, t: DescriptionTexts): string {
    Sentence(d.openness, t.openness) +
    Sentence(d.conscientiousness, t.conscientiousness) +
    Sentence(d.extraversion, t.extraversion) +
    Sentence(d.agreeableness, t.agreeableness) +
    Sentence(d.neuroticism, t.neuroticism)
  }

  /** The description of the dimensions: the appended sentences, trimmed. */
  function Description(d: Dimensions): string {
    Trim(RawDescription(d, Texts))
  }

  /**
   * `generatePersonalityDescription`, appending to a builder and trimming at
   * the end; called with `Texts`.
   */
  method GenerateDescription(d: Dimensions, t: DescriptionTexts) returns (description: string)
    ensures description == Trim(RawDescription(d, t))
  {
    var builder := "";
    if d.openness > 7000 {
      builder := builder + t.openness.high;
    } else if d.openness < 4000 {
      builder := builder + t.openness.low;
    }
    ghost var s1 := builder;
    assert s1 == Sentence(d.openness, t.openness);
    if d.conscientiousness > 7000 {
      builder := builder + t.conscientiousness.high;
    } else if d.conscientiousness < 4000 {
      builder := builder + t.conscientiousness.low;
    }
    ghost var s2 := Sentence(d.conscientiousness, t.conscientiousness);
    assert builder == s1 + s2;
    if d.extraversion > 7000 {
      builder := builder + t.extraversion.high;
    } else if d.extraversion < 4000 {
      builder := builder + t.extraversion.low;
    }
    ghost var s3 := Sentence(d.extraversion, t.extraversion);
    assert builder == s1 + s2 + s3;
    if d.agreeableness > 7000 {
      builder := builder + t.agreeableness.high;
    } else if d.agreeableness < 4000 {
      builder := builder + t.agreeableness.low;
    }
    ghost var s4 := Sentence(d.agreeableness, t.agreeableness);
    assert builder == s1 + s2 + s3 + s4;
    if d.neuroticism > 7000 {
      builder := builder + t.neuroticism.high;
    } else if d.neuroticism < 4000 {
      builder := builder + t.neuroticism.low;
    }
    assert builder == s1 + s2 + s3 + s4 + Sentence(d.neuroticism, t.neuroticism);
    description := Trim(builder);
  }

  /** A dimension between 40.00 and 70.00 adds no sentence. */
  predicate Unremarkable(value: int) {
    4000 <= value <= 7000
  }

  /** Empty, or starting with a character `trim()` keeps. */
  predicate StartsPrintable(s: string) {
    s == [] || !IsTrimmable(s[0])
  }

  predicate PrintableSentences(s: Sentences) {
    |s.high| > 0 && |s.low| > 0 && !IsTrimmable(s.high[0]) && !IsTrimmable(s.low[0])
  }

  /** Every sentence of `Texts` is non-empty and starts with a letter. */
  lemma TextsPrintable()
    ensures PrintableSentences(Texts.openness) && PrintableSentences(Texts.conscientiousness)
    ensures PrintableSentences(Texts.extraversion) && PrintableSentences(Texts.agreeableness)
    ensures PrintableSentences(Texts.neuroticism)
  {
  }

  lemma SentenceFacts(value: int, s: Sentences)
    requires PrintableSentences(s)
    ensures StartsPrintable(Sentence(value, s))
    ensures Sentence(value, s) == "" <==> Unremarkable(value)
  {
  }

  lemma ConcatStartsPrintable(a: string, b: string)
    requires StartsPrintable(a) && StartsPrintable(b)
    ensures StartsPrintable(a + b)
  {
    if a == [] {
      assert a + b == b;
    }
  }

  /** `TrimEnd` keeps every character up to the last printable one. */
  lemma {:induction false} TrimEndKeeps(s: string, j: int)
    requires 0 <= j < |s| && !IsTrimmable(s[j])
    ensures |TrimEnd(s)| > j
  {
    if IsTrimmable(s[|s| - 1]) {
      TrimEndKeeps(s[..|s| - 1], j);
    }
  }

  /**
   * The description is empty exactly when all five dimensions lie in
   * [40.00, 70.00].
   */
  lemma DescriptionEmptyIff(d: Dimensions)
    ensures Description(d) == "" <==>
      Unremarkable(d.openness) && Unremarkable(d.conscientiousness) && Unremarkable(d.extraversion) &&
      Unremarkable(d.agreeableness) && Unremarkable(d.neuroticism)
  {
    var t := Texts;
    TextsPrintable();
    var s1, s2, s3 := Sentence(d.openness, t.openness), Sentence(d.conscientiousness, t.conscientiousness),
                      Sentence(d.extraversion, t.extraversion);
    var s4, s5 := Sentence(d.agreeableness, t.agreeableness), Sentence(d.neuroticism, t.neuroticism);
    SentenceFacts(d.openness, t.openness);
    SentenceFacts(d.conscientiousness, t.conscientiousness);
    SentenceFacts(d.extraversion, t.extraversion);
    SentenceFacts(d.agreeableness, t.agreeableness);
    SentenceFacts(d.neuroticism, t.neuroticism);
    ConcatStartsPrintable(s1, s2);
    ConcatStartsPrintable(s1 + s2, s3);
    ConcatStartsPrintable(s1 + s2 + s3, s4);
    ConcatStartsPrintable(s1 + s2 + s3 + s4, s5);
    var raw := RawDescription(d, t);
    assert raw == s1 + s2 + s3 + s4 + s5;
    assert raw == "" <==> s1 == "" && s2 == "" && s3 == "" && s4 == "" && s5 == "";
    if raw != "" {
      TrimKeepsFirst(raw);
    }
  }

  /**
   * Openness above 70.00 makes the description open with the openness
   * sentence (its final space aside).
   */
  lemma HighOpennessLeads(d: Dimensions)
    requires d.openness > 7000
    ensures var high := Texts.openness.high; high[..|high| - 1] <= Description(d)
  {
    var high := Texts.openness.high;
    var s2, s3 := Sentence(d.conscientiousness, Texts.conscientiousness), Sentence(d.extraversion, Texts.extraversion);
    var s4, s5 := Sentence(d.agreeableness, Texts.agreeableness), Sentence(d.neuroticism, Texts.neuroticism);
    var raw := RawDescription(d, Texts);
    assert raw == high + s2 + s3 + s4 + s5;
    assert high <= high + s2 <= high + s2 + s3 <= high + s2 + s3 + s4 <= raw;
    var n := |high| - 1;
    assert n > 1 && high[0] == 'P' && high[n - 1] == '.';
    assert raw[..n] == high[..n];
    assert TrimStart(raw) == raw;
    TrimEndKeeps(raw, n - 1);
    var t := TrimEnd(raw);
    assert t[..n] == raw[..n];
  }

  // ------------------------------------------------- key traits

  /** One entry of the dimension map. */
  datatype DimensionEntry = DimensionEntry(name: string, value: int)

  function ValueOf(e: DimensionEntry): int {
    e.value
  }

  const DimensionNames: seq<string> := ["openness", "conscientiousness", "extraversion", "agreeableness", "neuroticism"]

  /** The dimension map's value for a name (0 for a name it does not hold). */
  function DimensionValue(d: Dimensions, name: string): int {
    match name
    case "openness" => d.openness
    case "conscientiousness" => d.conscientiousness
    case "extraversion" => d.extraversion
    case "agreeableness" => d.agreeableness
    case "neuroticism" => d.neuroticism
    case _ => 0
  }

  /** The dimension map's entries, enumerated in `order`. */
  function Entries(order: seq<string>, d: Dimensions): (es: seq<DimensionEntry>)
    ensures |es| == |order|
    ensures forall i :: 0 <= i < |order| ==> es[i] == DimensionEntry(order[i], DimensionValue(d, order[i]))
  {
    seq(|order|, i requires 0 <= i < |order| => DimensionEntry(order[i], DimensionValue(d, order[i])))
  }

  /** `translateDimension`: the Spanish label of a dimension, any other name unchanged. */
  function TranslateDimension(name: string): (translated: string)
    ensures name !in DimensionNames ==> translated == name
  {
    match name
    case "openness" => "Apertura a experiencias"
    case "conscientiousness" => "Responsabilidad"
    case "extraversion" => "Extroversión"
    case "agreeableness" => "Amabilidad"
    case "neuroticism" => "Estabilidad emocional"
    case _ => name
  }

  /** The five dimensions get five different labels. */
  lemma TranslationsDistinct(a: string, b: string)
    requires a in DimensionNames && b in DimensionNames && a != b
    ensures TranslateDimension(a) != TranslateDimension(b)
  {
  }

  /** "Alto" above 70.00, "Moderado" above 40.00, "Bajo" otherwise. */
  function TraitLevel(value: int): string {
    if value > 7000 then "Alto" else if value > 4000 then "Moderado" else "Bajo"
  }

  function TraitLabel(e: DimensionEntry): string {
    TraitLevel(e.value) + " " + TranslateDimension(e.name)
  }

  /** The three entries `identifyKeyTraits` keeps: sorted by value, non-increasing. */
  function TopDimensions(order: seq<string>, d: Dimensions): seq<DimensionEntry> {
    Ranking.Take(Ranking.SortDesc(Entries(order, d), ValueOf), 3)
  }

  /** `identifyKeyTraits`. */
  function KeyTraits(order: seq<string>, d: Dimensions): (traits: seq<string>)
    ensures |traits| == |TopDimensions(order, d)|
    ensures forall i :: 0 <= i < |traits| ==> traits[i] == TraitLabel(TopDimensions(order, d)[i])
  {
    var top := TopDimensions(order, d);
    seq(|top|, i requires 0 <= i < |top| => TraitLabel(top[i]))
  }

  /** `order` enumerates the five dimension names. */
  ghost predicate EnumeratesDimensions(order: seq<string>) {
    |order| == 5 &&
    (forall i, j :: 0 <= i < j < |order| ==> order[i] != order[j]) &&
    (forall n :: n in order <==> n in DimensionNames)
  }

  /**
   * Exactly three traits, for dimensions in non-increasing order of value, each
   * carrying its own value, and no dimension left out has a larger value than
   * one kept.
   */
  lemma KeyTraitsSpec(order: seq<string>, d: Dimensions)
    requires EnumeratesDimensions(order)
    ensures |KeyTraits(order, d)| == 3
    ensures var top := TopDimensions(order, d);
      Ranking.SortedDesc(top, ValueOf) &&
      (forall i :: 0 <= i < |top| ==> top[i].name in order && top[i].value == DimensionValue(d, top[i].name)) &&
      (forall n, i :: n in order && 0 <= i < |top| && (forall j :: 0 <= j < |top| ==> top[j].name != n) ==>
         DimensionValue(d, n) <= top[i].value)
  {
    var es := Entries(order, d);
    var top := TopDimensions(order, d);
    assert top <= Ranking.SortDesc(es, ValueOf);
    Ranking.TopKSpec(es, ValueOf, 3);
    KeptDimensions(order, d, es, top);
    LeftOutDimensions(order, d, es, top);
  }

  lemma KeptDimensions(order: seq<string>, d: Dimensions, es: seq<DimensionEntry>, top: seq<DimensionEntry>)
    requires es == Entries(order, d)
    requires forall x :: x in top ==> x in es
    ensures forall i :: 0 <= i < |top| ==> top[i].name in order && top[i].value == DimensionValue(d, top[i].name)
  {
    forall i | 0 <= i < |top|
      ensures top[i].name in order && top[i].value == DimensionValue(d, top[i].name)
    {
      assert top[i] in top;
      var m :| 0 <= m < |es| && es[m] == top[i];
    }
  }

  lemma LeftOutDimensions(order: seq<string>, d: Dimensions, es: seq<DimensionEntry>, top: seq<DimensionEntry>)
    requires es == Entries(order, d)
    requires forall x, y :: x in top && y in es && y !in top ==> ValueOf(y) <= ValueOf(x)
    ensures forall n, i :: n in order && 0 <= i < |top| && (forall j :: 0 <= j < |top| ==> top[j].name != n) ==>
      DimensionValue(d, n) <= top[i].value
  {
    forall n, i | n in order && 0 <= i < |top| && (forall j :: 0 <= j < |top| ==> top[j].name != n)
      ensures DimensionValue(d, n) <= top[i].value
    {
      var m :| 0 <= m < |order| && order[m] == n;
      var e := es[m];
      assert e in es;
      assert e !in top by {
        assert forall j :: 0 <= j < |top| ==> top[j] != e;
      }
      assert top[i] in top;
    }
  }

  // ------------------------------------------------- the analysis

  /** The analysis for a combined text, given what the two calls produced. */
  function Analysis(sentimentCall: CallOutcome<SentimentResponse>, keyPhraseCall: CallOutcome<KeyPhraseResponse>,
                          traitOrder: seq<string>): PersonalityAnalysis
  {
    var sentiment := SentimentOrDefault(sentimentCall);
    var phrases := KeyPhraseList(KeyPhrasesOrDefault(keyPhraseCall));
    var d := CalculateDimensions(SentimentScore(sentiment), phrases);
    PersonalityAnalysis(d, Description(d), KeyTraits(traitOrder, d), sentiment, phrases)
  }

  /**
   * When both calls fail the analysis falls back to the defaults: every
   * dimension 50.00, no description, no key phrases, and the default sentiment body.
   */
  lemma BothCallsFailing(traitOrder: seq<string>)
    ensures var a := Analysis(Failed, Failed, traitOrder);
      a.dimensions == Dimensions(5000, 5000, 5000, 5000, 5000) &&
      a.description == "" && a.keyPhrases == [] && a.sentimentAnalysis == Some(DefaultSentiment)
  {
    DefaultSentimentScoresZero();
    assert KeyPhraseList(Some(DefaultKeyPhrases)) == [];
    NeutralDimensions();
    DescriptionEmptyIff(Dimensions(5000, 5000, 5000, 5000, 5000));
  }

  /**
   * `analyzePersonality`: both services are asked about the combined text; a
   * call that throws falls back to its default and the analysis goes on.
   */
  method AnalyzePersonality(order: seq<string>, responses: map<string, string>,
                            sentimentService: string -> CallOutcome<SentimentResponse>,
                            keyPhraseService: string -> CallOutcome<KeyPhraseResponse>,
                            traitOrder: seq<string>)
    returns (analysis: PersonalityAnalysis)
    requires forall k :: k in order ==> k in responses
    ensures var text := Dotted(ValuesIn(order, responses));
      analysis == Analysis(sentimentService(text), keyPhraseService(text), traitOrder)
  {
    var text := CombineResponses(order, responses);
    var sentiment := SentimentOrDefault(sentimentService(text));
    var phrases := KeyPhraseList(KeyPhrasesOrDefault(keyPhraseService(text)));
    var d := CalculateDimensions(SentimentScore(sentiment), phrases);
    var description := GenerateDescription(d, Texts);
    analysis := PersonalityAnalysis(d, description, KeyTraits(traitOrder, d), sentiment, phrases);
  }
}
