/**
 * The heuristic answer scorer of the phone tests
 * (react-dashboard/backend/services/ai-evaluator.js): a completeness
 * percentage and a quality score, each a sum of bonuses clamped to
 * 0..100, and the feedback message chosen from the two.
 */
module AiEvaluator {
  import opened JsText

  /** `getRelevantWords`' table of words that make an answer on-topic for a training type. */
  function TypeSpecificWords(trainingType: string): seq<string>
  {
    if trainingType == "safety_training" then ["safety", "bezpečnost", "ochrana", "riziko", "postup", "opatření"]
    else if trainingType == "english_business" then ["business", "company", "meeting", "project", "client", "firma", "projekt"]
    else if trainingType == "english_technical" then ["technical", "process", "equipment", "system", "technický", "postup", "zařízení"]
    else if trainingType == "english_basic" then ["basic", "simple", "everyday", "work", "family", "základní", "práce", "rodina"]
    else if trainingType == "german_basic" then ["grund", "basic", "arbeit", "familie", "základní", "práce"]
    else []
  }

  /** `getProfessionalWords`: the vocabulary that raises the quality score. */
  function ProfessionalWords(trainingType: string): seq<string>
  {
    if trainingType == "safety_training" then ["bezpečnost", "ochrana", "prevence", "riziko", "opatření", "postup", "pokyny", "kontrola"]
    else if trainingType == "english_business" then ["business", "professional", "company", "client", "project", "meeting", "presentation", "strategy"]
    else if trainingType == "english_technical" then ["technical", "system", "process", "equipment", "procedure", "specification", "maintenance"]
    else if trainingType == "english_basic" then ["work", "family", "daily", "routine", "experience", "describe", "explain"]
    else if trainingType == "german_basic" then ["arbeit", "familie", "alltag", "erfahrung", "beschreiben", "erklären"]
    else []
  }

  predicate KnownTrainingType(trainingType: string)
  {
    trainingType in {"safety_training", "english_business", "english_technical", "english_basic", "german_basic"}
  }

  /** `getRelevantWords`: the question's words longer than 3 characters (duplicates kept), then the type words. */
  function RelevantWords(questionWords: seq<string>, trainingType: string): seq<string>
  {
    Filter(questionWords, (w: string) => |w| > 3) + TypeSpecificWords(trainingType)
  }

  /** A relevant word counts when some response word contains it or is contained in it. */
  predicate MatchesSome(word: string, responseWords: seq<string>)
  {
    exists i :: 0 <= i < |responseWords| && (Contains(responseWords[i], word) || Contains(word, responseWords[i]))
  }

  predicate IsSentenceMark(c: char)
  {
    c == '.' || c == '!' || c == '?'
  }

  /** `response.split(/[.!?]+/).filter(s => s.trim().length > 0).length`. */
  function SentenceCount(response: string): nat
  {
    |Filter(SplitRuns(response, IsSentenceMark), (s: string) => |Trim(s)| > 0)|
  }

  function Clamp(x: int): (r: int)
    ensures 0 <= r <= 100
    ensures 0 <= x <= 100 ==> r == x
  {
    if x < 0 then 0 else if x > 100 then 100 else x
  }

  function LengthBonus(n: nat): nat
  {
    (if n > 50 then 30 else 0) + (if n > 100 then 20 else 0) + (if n > 200 then 10 else 0)
  }

  function MinInt(a: int, b: int): int
  {
    if a <= b then a else b
  }

  /** The number of relevant words the response covers. */
  function MatchedRelevantCount(question: string, response: string, trainingType: string): nat
  {
    var responseWords := SplitRuns(Lower(response), IsJsSpace);
    var relevant := RelevantWords(SplitRuns(Lower(question), IsJsSpace), trainingType);
    |Filter(relevant, (w: string) => MatchesSome(w, responseWords))|
  }

  /** `calculateCompletionPercentage`. */
  function CompletionPercentage(question: string, response: string, trainingType: string): (r: int)
    ensures 0 <= r <= 100
    ensures |Trim(response)| < 10 ==> r == 0
  {
    if |Trim(response)| < 10 then 0
    else
      var matched := MatchedRelevantCount(question, response, trainingType);
      var sentences := SentenceCount(response);
      Clamp(LengthBonus(|response|)
            + (if matched > 0 then MinInt(40, matched * 10) else 0)
            + (if sentences >= 2 then 10 else 0) + (if sentences >= 3 then 10 else 0))
  }

  /** The relevance bonus is capped at 40, so a response of at most 50 characters scores at most 60. */
  lemma ShortResponseCompletionCap(question: string, response: string, trainingType: string)
    requires |response| <= 50
    ensures CompletionPercentage(question, response, trainingType) <= 60
  {
  }

  /** Without any relevant word and with at most one sentence, only the length bonus remains. */
  lemma CompletionIsLengthOnlyWithoutRelevance(question: string, response: string, trainingType: string)
    requires |Trim(response)| >= 10
    requires MatchedRelevantCount(question, response, trainingType) == 0 && SentenceCount(response) <= 1
    ensures CompletionPercentage(question, response, trainingType) == LengthBonus(|response|)
  {
  }

  /** An unknown training type contributes no relevant words and no vocabulary. */
  lemma UnknownTypeAddsNothing(questionWords: seq<string>, trainingType: string)
    requires !KnownTrainingType(trainingType)
    ensures RelevantWords(questionWords, trainingType) == Filter(questionWords, (w: string) => |w| > 3)
    ensures ProfessionalWords(trainingType) == []
  {
  }

  /** The connective list of `calculateQualityScore`; it includes the single letter 'a'. */
  const Connectives: seq<string> := ["and", "but", "because", "so", "then", "also", "however", "ale", "a", "také", "protože"]

  predicate HasConnective(lowered: string)
  {
    exists i :: 0 <= i < |Connectives| && Contains(lowered, Connectives[i])
  }

  predicate HasSentenceMark(response: string)
  {
    Contains(response, ".") || Contains(response, "!") || Contains(response, "?")
  }

  /** The number of vocabulary words that occur in the lower-cased response. */
  function VocabularyHits(response: string, trainingType: string): nat
  {
    |Filter(ProfessionalWords(trainingType), (w: string) => Contains(Lower(response), Lower(w)))|
  }

  /** `calculateQualityScore`. */
  function QualityScore(response: string, trainingType: string): (r: int)
    ensures 0 <= r <= 100
    ensures response == "" ==> r == 0
  {
    if response == "" then 0
    else
      var words := |SplitRuns(response, IsJsSpace)|;
      Clamp((if words >= 10 then 20 else 0) + (if words >= 20 then 10 else 0) + (if words >= 30 then 10 else 0)
            + MinInt(30, VocabularyHits(response, trainingType) * 5)
            + (if HasSentenceMark(response) then 10 else 0)
            + (if HasConnective(Lower(response)) then 20 else 0))
  }

  /** Any response containing the letter 'a' (in either case) earns the connective bonus. */
  lemma LetterAEarnsConnectiveBonus(response: string, trainingType: string)
    requires Contains(Lower(response), "a")
    ensures QualityScore(response, trainingType) >= 20
  {
    assert Connectives[8] == "a";
    assert HasConnective(Lower(response));
  }

  /** With an unknown training type the vocabulary bonus is zero, so quality is at most 70. */
  lemma UnknownTypeQualityCap(response: string, trainingType: string)
    requires !KnownTrainingType(trainingType)
    ensures QualityScore(response, trainingType) <= 70
  {
  }

  /** The four messages of `generateFeedback`, best first. */
  datatype FeedbackLevel = Excellent | Good | Partial | Insufficient

  function FeedbackText(level: FeedbackLevel): string
  {
    match level
    case Excellent => "Výborná odpověď! Prokázali jste dobré porozumění tématu a vyjádřili se jasně."
    case Good => "Dobrá odpověď! Téma jste pochopili, zkuste být příště konkrétnější."
    case Partial => "Odpověď byla částečně správná, ale zkuste více rozvinout vaše myšlenky."
    case Insufficient => "Zkuste odpovědět podrobněji a více se zaměřit na položenou otázku."
  }

  /** `generateFeedback`'s choice from the two scores. */
  function FeedbackFor(completion: int, quality: int): FeedbackLevel
  {
    if completion >= 80 && quality >= 80 then Excellent
    else if completion >= 60 && quality >= 60 then Good
    else if completion >= 40 then Partial
    else Insufficient
  }

  /** `generateFeedback`. */
  function GenerateFeedback(question: string, response: string, trainingType: string): string
  {
    FeedbackText(FeedbackFor(CompletionPercentage(question, response, trainingType), QualityScore(response, trainingType)))
  }

  /** The four feedback messages and exactly the score regions that select them. */
  lemma FeedbackRegions(c: int, q: int)
    ensures FeedbackFor(c, q) == Excellent <==> (c >= 80 && q >= 80)
    ensures FeedbackFor(c, q) == Good <==> (c >= 60 && q >= 60 && !(c >= 80 && q >= 80))
    ensures FeedbackFor(c, q) == Partial <==> (c >= 40 && !(c >= 60 && q >= 60))
    ensures FeedbackFor(c, q) == Insufficient <==> c < 40
  {
  }

  /** A short answer always gets the last message. */
  lemma ShortResponseGetsLastMessage(question: string, response: string, trainingType: string)
    requires |Trim(response)| < 10
    ensures FeedbackFor(CompletionPercentage(question, response, trainingType), QualityScore(response, trainingType)) == Insufficient
  {
  }

  /** The evaluation record (`responseLength` and the time stamp are carried as given). */
  datatype Evaluation = Evaluation(
    completionPercentage: int,
    qualityScore: int,
    feedback: string,
    strengths: seq<string>,
    improvements: seq<string>,
    isComplete: bool,
    keywordMatches: seq<string>,
    timestamp: string)

  /** `getDefaultEvaluation`. */
  function DefaultEvaluation(timestamp: string): Evaluation
  {
    Evaluation(0, 0, "Nepodařilo se vyhodnotit odpověď. Zkuste to prosím znovu.", [],
               ["Zkuste odpovědět jasně a srozumitelně"], false, [], timestamp)
  }

  /**
   * `evaluateResponse`. Building the evaluation calls `identifyStrengths`,
   * which the class does not define; the resulting TypeError is caught and
   * the default evaluation is returned, whatever the input.
   */
  function EvaluateResponse(question: string, response: string, trainingType: string, timestamp: string): (e: Evaluation)
    ensures e.completionPercentage == 0 && e.qualityScore == 0 && !e.isComplete
    ensures e.timestamp == timestamp
  {
    DefaultEvaluation(timestamp)
  }

  /** The evaluation never reports a complete answer, even when the completion score reaches 70. */
  lemma EvaluationIgnoresScores(question: string, response: string, trainingType: string, timestamp: string)
    requires CompletionPercentage(question, response, trainingType) >= 70
    ensures !EvaluateResponse(question, response, trainingType, timestamp).isComplete
    ensures EvaluateResponse(question, response, trainingType, timestamp).completionPercentage
            != CompletionPercentage(question, response, trainingType)
  {
  }

  /**
   * The evaluation `evaluateResponse` evidently means to build: the two
   * scores, the feedback message, and completeness exactly from a
   * completion of 70. The lists the undefined helpers would fill stay empty.
   */
  function IntendedEvaluation(question: string, response: string, trainingType: string, timestamp: string): (e: Evaluation)
    ensures e.completionPercentage == CompletionPercentage(question, response, trainingType)
    ensures e.qualityScore == QualityScore(response, trainingType)
    ensures e.isComplete <==> e.completionPercentage >= 70
    ensures e.timestamp == timestamp
  {
    var completion := CompletionPercentage(question, response, trainingType);
    Evaluation(completion, QualityScore(response, trainingType), GenerateFeedback(question, response, trainingType),
               [], [], completion >= 70, [], timestamp)
  }

  /** Under the intended rule only a response longer than 50 characters can be complete. */
  lemma IntendedCompleteNeedsLength(question: string, response: string, trainingType: string, timestamp: string)
    requires IntendedEvaluation(question, response, trainingType, timestamp).isComplete
    ensures |response| > 50
  {
    if |response| <= 50 {
      ShortResponseCompletionCap(question, response, trainingType);
    }
  }
}
