/**
 * The length-based placement estimate of `POST /placement-test/analyze`
 * (react-dashboard/backend/routes/ai-proxy.js, lines 25-97).
 */
module AiProxy {
  import opened Wrappers
  import opened JsText

  datatype Level = A1 | A2 | B1 | B2

  datatype TextStats = TextStats(wordCount: nat, sentenceCount: nat, avgWordsPerSentence: real)

  datatype Analysis = Analysis(
    level: Level,
    confidence: real,
    strengths: seq<string>,
    weaknesses: seq<string>,
    recommendedFocus: string,
    stats: TextStats)

  predicate IsSentenceMark(c: char)
  {
    c == '.' || c == '!' || c == '?'
  }

  /** The non-blank pieces between runs of '.', '!' and '?'. */
  function Sentences(text: string): seq<string>
  {
    Filter(SplitRuns(text, IsSentenceMark), (s: string) => |Trim(s)| > 0)
  }

  /** The non-empty white-space separated tokens. */
  function Words(text: string): seq<string>
  {
    Filter(SplitRuns(text, IsJsSpace), (w: string) => |w| > 0)
  }

  /** Words per sentence, 0 when there is no sentence. */
  function AverageWords(text: string): real
  {
    var s := |Sentences(text)|;
    if s > 0 then (|Words(text)| as real) / (s as real) else 0.0
  }

  /** The level and confidence from the length alone. */
  function LengthLevel(n: nat): (Level, real)
  {
    if n < 50 then (A1, 0.6) else if n < 150 then (A2, 0.75) else if n < 300 then (B1, 0.85) else (B2, 0.9)
  }

  function MinReal(a: real, b: real): real
  {
    if a <= b then a else b
  }

  /** `recommended_focus`, a function of the final level. */
  function FocusFor(level: Level): string
  {
    match level
    case A1 => "Basic vocabulary and simple sentences"
    case A2 => "Past tenses and question forms"
    case B1 => "Complex sentences and connectors"
    case B2 => "Advanced grammar and fluency"
  }

  /** The level and confidence after the long-sentence adjustment of a B1 text. */
  function Placement(n: nat, avg: real): (Level, real)
  {
    var (level0, confidence0) := LengthLevel(n);
    if avg > 15.0 && level0 == B1 then (B2, MinReal(confidence0 + 0.1, 0.95)) else (level0, confidence0)
  }

  /** The analysis the route returns for the request's `text` field (`text || ''`). */
  function AnalyzePlacement(body: Option<string>): Analysis
  {
    var text := body.GetOr("");
    var n := |text|;
    var avg := AverageWords(text);
    var (level, confidence) := Placement(n, avg);
    Analysis(
      level, confidence,
      ["Basic vocabulary usage", "Sentence structure", if n > 200 then "Text length demonstrates effort" else "Willingness to communicate"],
      [if n < 100 then "Text length could be longer" else "Complex grammar structures", "Advanced vocabulary", "Idiomatic expressions"],
      FocusFor(level),
      TextStats(|Words(text)|, |Sentences(text)|, (Round(avg * 10.0) as real) / 10.0))
  }

  /** The level is fixed by the length thresholds, except that a B1 text averaging more than 15 words per sentence is promoted to B2. */
  lemma LevelRule(n: nat, avg: real)
    ensures Placement(n, avg).0 == A1 <==> n < 50
    ensures Placement(n, avg).0 == A2 <==> 50 <= n < 150
    ensures Placement(n, avg).0 == B1 <==> 150 <= n < 300 && avg <= 15.0
    ensures Placement(n, avg).0 == B2 <==> n >= 300 || (150 <= n < 300 && avg > 15.0)
  {
  }

  /** The confidence that goes with each outcome; a promoted B1 gets 0.95. */
  lemma ConfidenceRule(n: nat, avg: real)
    ensures n < 50 ==> Placement(n, avg).1 == 0.6
    ensures 50 <= n < 150 ==> Placement(n, avg).1 == 0.75
    ensures 150 <= n < 300 ==> Placement(n, avg).1 == (if avg > 15.0 then 0.95 else 0.85)
    ensures n >= 300 ==> Placement(n, avg).1 == 0.9
  {
  }

  /** The route's level and confidence are those of the text's length and average sentence length. */
  lemma AnalysisUsesPlacement(body: Option<string>)
    ensures var text := body.GetOr(""); var a := AnalyzePlacement(body);
            (a.level, a.confidence) == Placement(|text|, AverageWords(text))
  {
  }

  /** A request without text is analysed as the empty text: A1, no words, no sentences, average 0. */
  lemma MissingTextIsA1()
    ensures AnalyzePlacement(None).level == A1 && AnalyzePlacement(None).confidence == 0.6
    ensures AnalyzePlacement(None).stats == TextStats(0, 0, 0.0)
  {
    assert Sentences("") == [];
    assert Words("") == [];
  }

  /** The focus depends only on the final level; the third strength and first weakness only on the length. */
  lemma FocusAndListsRule(body: Option<string>)
    ensures var a := AnalyzePlacement(body); var n := |body.GetOr("")|;
            && a.recommendedFocus == FocusFor(a.level)
            && |a.strengths| == 3 && |a.weaknesses| == 3
            && (a.strengths[2] == "Text length demonstrates effort" <==> n > 200)
            && (a.weaknesses[0] == "Text length could be longer" <==> n < 100)
  {
  }

  /** The reported average is the true average rounded to one decimal place. */
  lemma AverageRounding(body: Option<string>)
    ensures var a := AnalyzePlacement(body); var avg := AverageWords(body.GetOr(""));
            avg - 0.05 < a.stats.avgWordsPerSentence <= avg + 0.05
  {
  }
}
