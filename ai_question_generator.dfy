/**
 * The deterministic parts of the test-question generator
 * (react-dashboard/backend/services/ai-question-generator.js): the
 * repair of each generated question, the choice of question types and
 * language tables for the prompt, and the fallback question. The clock,
 * `Math.random` and the language model are parameters.
 */
module AiQuestionGenerator {
  import opened Wrappers
  import opened JsText

  const MultipleChoice: string := "multiple_choice"
  const FreeText: string := "free_text"
  const FillInBlank: string := "fill_in_blank"
  const Matching: string := "matching"

  /** `Object.values(QUESTION_TYPES)`, in declaration order. */
  const AllTypes: seq<string> := [MultipleChoice, FreeText, FillInBlank, Matching]

  datatype Pair = Pair(term: string, definition: string)

  /**
   * A question object. Each key the generator reads or writes is a field
   * (`None` when the key is absent or null); every other key the model
   * sent is carried in `others`.
   */
  datatype Question = Question(
    id: Option<string>,
    questionType: Option<string>,
    text: Option<string>,
    options: Option<seq<string>>,
    correctAnswer: Option<string>,
    keyWords: Option<seq<string>>,
    alternatives: Option<seq<string>>,
    pairs: Option<seq<Pair>>,
    explanation: Option<string>,
    difficulty: Option<string>,
    generated: Option<bool>,
    generatedAt: Option<string>,
    language: Option<string>,
    others: map<string, string>)

  /** JavaScript truthiness of an optional string: present and not empty. */
  predicate Truthy(s: Option<string>)
  {
    s.Some? && s.value != ""
  }

  const PlaceholderOptions: seq<string> := ["Možnost A", "Možnost B", "Možnost C", "Možnost D"]
  const PlaceholderPairs: seq<Pair> := [Pair("Pojem 1", "Definice 1"), Pair("Pojem 2", "Definice 2")]

  /** The id `validateAndEnhanceQuestion` assigns, from the clock reading and the random suffix. */
  function GeneratedId(now: int, randomSuffix: string): string
  {
    "ai_" + IntToString(now) + "_" + randomSuffix
  }

  /** The fields every question receives, whatever its type. */
  function WithCommonFields(q: Question, language: string, id: string, timestamp: string): (e: Question)
    ensures e.generated == Some(true) && e.language == Some(language)
    ensures e.id == Some(id) && e.generatedAt == Some(timestamp)
    ensures Truthy(q.difficulty) ==> e.difficulty == q.difficulty
    ensures !Truthy(q.difficulty) ==> e.difficulty == Some("medium")
  {
    q.(id := Some(id), generated := Some(true), generatedAt := Some(timestamp), language := Some(language),
       difficulty := if Truthy(q.difficulty) then q.difficulty else Some("medium"))
  }

  /** The question `validateAndEnhanceQuestion` returns, as a value. */
  function Enhanced(q: Question, language: string, id: string, timestamp: string): (e: Question)
    ensures e.generated == Some(true) && e.language == Some(language) && e.questionType == q.questionType
  {
    var e := WithCommonFields(q, language, id, timestamp);
    if q.questionType == Some(MultipleChoice) then
      var options := if e.options.None? || |e.options.value| < 2 then PlaceholderOptions else e.options.value;
      e.(options := Some(options), correctAnswer := if Truthy(e.correctAnswer) then e.correctAnswer else Some(options[0]))
    else if q.questionType == Some(FreeText) then
      e.(keyWords := Some(e.keyWords.GetOr([])))
    else if q.questionType == Some(FillInBlank) then
      e.(alternatives := Some(e.alternatives.GetOr([])))
    else if q.questionType == Some(Matching) then
      e.(pairs := if e.pairs.None? || |e.pairs.value| < 2 then Some(PlaceholderPairs) else e.pairs)
    else e
  }

  /**
   * `validateAndEnhanceQuestion`: the spread copy of the question gets the
   * common fields, then the type-specific fields are repaired in place.
   */
  method ValidateAndEnhanceQuestion(q: Question, language: string, now: int, randomSuffix: string, timestamp: string)
    returns (e: Question)
    ensures e == Enhanced(q, language, GeneratedId(now, randomSuffix), timestamp)
  {
    e := WithCommonFields(q, language, GeneratedId(now, randomSuffix), timestamp);
    if q.questionType == Some(MultipleChoice) {
      if e.options.None? || |e.options.value| < 2 {
        e := e.(options := Some(PlaceholderOptions));
      }
      if !Truthy(e.correctAnswer) {
        e := e.(correctAnswer := Some(e.options.value[0]));
      }
    } else if q.questionType == Some(FreeText) {
      if e.keyWords.None? {
        e := e.(keyWords := Some([]));
      }
    } else if q.questionType == Some(FillInBlank) {
      if e.alternatives.None? {
        e := e.(alternatives := Some([]));
      }
    } else if q.questionType == Some(Matching) {
      if e.pairs.None? || |e.pairs.value| < 2 {
        e := e.(pairs := Some(PlaceholderPairs));
      }
    }
  }

  /** The type, the text, the explanation and every key the generator does not know survive. */
  lemma EnhanceKeepsOriginalFields(q: Question, language: string, id: string, timestamp: string)
    ensures var e := Enhanced(q, language, id, timestamp);
            && e.questionType == q.questionType && e.text == q.text && e.explanation == q.explanation
            && e.others == q.others
            && e.generated == Some(true) && e.language == Some(language)
            && (Truthy(q.difficulty) ==> e.difficulty == q.difficulty)
            && (!Truthy(q.difficulty) ==> e.difficulty == Some("medium"))
  {
  }

  /**
   * A multiple-choice question ends with at least two options, keeping its
   * own when it had two or more, and with a correct answer that is the
   * original one when given, else the first option.
   */
  lemma MultipleChoiceRepair(q: Question, language: string, id: string, timestamp: string)
    requires q.questionType == Some(MultipleChoice)
    ensures var e := Enhanced(q, language, id, timestamp);
            && e.options.Some? && |e.options.value| >= 2
            && (q.options.Some? && |q.options.value| >= 2 ==> e.options == q.options)
            && (q.options.None? || |q.options.value| < 2 ==> e.options == Some(PlaceholderOptions))
            && (Truthy(q.correctAnswer) ==> e.correctAnswer == q.correctAnswer)
            && (!Truthy(q.correctAnswer) ==> e.correctAnswer == Some(e.options.value[0]))
            && e.keyWords == q.keyWords && e.alternatives == q.alternatives && e.pairs == q.pairs
  {
  }

  /** Free-text and fill-in-blank questions get an empty list only where theirs is missing. */
  lemma ListDefaults(q: Question, language: string, id: string, timestamp: string)
    ensures q.questionType == Some(FreeText) ==>
              Enhanced(q, language, id, timestamp).keyWords == Some(q.keyWords.GetOr([]))
              && Enhanced(q, language, id, timestamp).options == q.options
    ensures q.questionType == Some(FillInBlank) ==>
              Enhanced(q, language, id, timestamp).alternatives == Some(q.alternatives.GetOr([]))
              && Enhanced(q, language, id, timestamp).keyWords == q.keyWords
  {
  }

  /** A matching question ends with at least two pairs, keeping its own when it had two or more. */
  lemma MatchingRepair(q: Question, language: string, id: string, timestamp: string)
    requires q.questionType == Some(Matching)
    ensures var e := Enhanced(q, language, id, timestamp);
            && e.pairs.Some? && |e.pairs.value| >= 2
            && (q.pairs.Some? && |q.pairs.value| >= 2 ==> e.pairs == q.pairs)
            && e.options == q.options && e.correctAnswer == q.correctAnswer
  {
  }

  /** A question of any other type gets the common fields and nothing else. */
  lemma UnknownTypeGetsCommonFieldsOnly(q: Question, language: string, id: string, timestamp: string)
    requires q.questionType.None? || q.questionType.value !in AllTypes
    ensures Enhanced(q, language, id, timestamp) == WithCommonFields(q, language, id, timestamp)
  {
  }

  /** Repairing a repaired question changes nothing but its id and time stamp. */
  lemma EnhanceIdempotent(q: Question, language: string, id1: string, t1: string, id2: string, t2: string)
    ensures Enhanced(Enhanced(q, language, id1, t1), language, id2, t2) == Enhanced(q, language, id2, t2)
  {
    var e1 := Enhanced(q, language, id1, t1);
    var c := WithCommonFields(q, language, id2, t2);
    assert WithCommonFields(e1, language, id2, t2) == c.(options := e1.options, correctAnswer := e1.correctAnswer,
      keyWords := e1.keyWords, alternatives := e1.alternatives, pairs := e1.pairs);
  }

  // ------------------------------------------------------------------ prompt

  /** The two prompt tables; `prompts[language] || prompts.cs` picks Czech for every other code. */
  datatype PromptLanguage = Czech | English

  function PromptLanguageOf(language: string): (r: PromptLanguage)
    ensures r == English <==> language == "en"
  {
    if language == "en" then English else Czech
  }

  const EnglishDescriptions: map<string, string> :=
    map[MultipleChoice := "Multiple Choice - question with one correct and several wrong answers",
        FreeText := "Free Text - question answered in own words with key terms for evaluation",
        FillInBlank := "Fill in the Blank - sentence with missing words",
        Matching := "Matching - terms to definitions"]
  const CzechDescriptions: map<string, string> :=
    map[MultipleChoice := "Multiple Choice - otázka s jednou správnou a několika špatnými odpověďmi",
        FreeText := "Volná odpověď - otázka na vlastními slovy s klíčovými pojmy pro hodnocení",
        FillInBlank := "Doplňovačka - věta s chybějícími slovy",
        Matching := "Přiřazování - pojmy k definicím"]

  /** `getTypeDescriptions`: the description of each question type in the chosen table. */
  function TypeDescriptions(language: string): (r: map<string, string>)
    ensures r.Keys == {MultipleChoice, FreeText, FillInBlank, Matching}
  {
    match PromptLanguageOf(language)
    case English => EnglishDescriptions
    case Czech => CzechDescriptions
  }

  /** Every language other than English gets the Czech descriptions. */
  lemma UnknownLanguageUsesCzech(language: string)
    requires language != "en"
    ensures TypeDescriptions(language) == TypeDescriptions("cs")
    ensures PromptLanguageOf(language) == Czech
  {
  }

  /** `requestedTypes.length > 0 ? requestedTypes : Object.values(QUESTION_TYPES)`. */
  function SelectedTypes(requested: seq<string>): (r: seq<string>)
    ensures |requested| > 0 ==> r == requested
    ensures |requested| == 0 ==> r == AllTypes
  {
    if |requested| > 0 then requested else AllTypes
  }

  /**
   * One line of the prompt's type list; a type that is not a key of the
   * description table prints as `undefined`. An inherited key is not modelled.
   */
  function TypeLine(descriptions: map<string, string>, questionType: string): string
  {
    "- " + (if questionType in descriptions then descriptions[questionType] else "undefined")
  }

  /** The type-list lines of `buildPrompt`, one per selected type, in order. */
  function PromptTypeLines(requested: seq<string>, language: string): (r: seq<string>)
    ensures |r| == |SelectedTypes(requested)|
  {
    var types := SelectedTypes(requested);
    var descriptions := TypeDescriptions(language);
    seq(|types|, i requires 0 <= i < |types| => TypeLine(descriptions, types[i]))
  }

  /** `buildPrompt`'s context line: empty without context. */
  function ContextLine(context: string): string
  {
    if context == "" then "" else "Kontext: " + context
  }

  /** With no requested type the prompt lists all four types, each with its description. */
  lemma NoRequestListsAllTypes(language: string)
    ensures var lines := PromptTypeLines([], language);
            && |lines| == 4
            && forall i :: 0 <= i < 4 ==> lines[i] == "- " + TypeDescriptions(language)[AllTypes[i]]
  {
  }

  /** Requested types are listed as given, in the given order, duplicates included. */
  lemma RequestedTypesListedInOrder(requested: seq<string>, language: string, i: nat)
    requires i < |requested|
    ensures PromptTypeLines(requested, language)[i] == TypeLine(TypeDescriptions(language), requested[i])
  {
  }

  // ----------------------------------------------------------------- fallback

  /** `getFallbackQuestions`: one multiple-choice placeholder question. */
  function FallbackQuestions(language: string, now: int, timestamp: string): (r: seq<Question>)
    ensures |r| == 1 && r[0].questionType == Some(MultipleChoice)
    ensures r[0].options == Some(PlaceholderOptions) && r[0].correctAnswer == Some(PlaceholderOptions[0])
    ensures r[0].language == Some(language) && r[0].generated == Some(true)
  {
    [Question(Some("fallback_" + IntToString(now) + "_1"), Some(MultipleChoice),
              Some("Vygenerovaná otázka (náhradní)"), Some(PlaceholderOptions), Some("Možnost A"),
              Some(["náhradní"]), None, None, Some("Toto je náhradní otázka. Upravte ji podle potřeby."),
              Some("medium"), Some(true), Some(timestamp), Some(language), map[])]
  }

  /** The fallback question is already in repaired form. */
  lemma FallbackIsRepaired(language: string, now: int, timestamp: string, id: string, t: string)
    ensures var f := FallbackQuestions(language, now, timestamp)[0];
            Enhanced(f, language, id, t) == f.(id := Some(id), generatedAt := Some(t))
  {
  }

  /**
   * `parseAIResponse` after the model replied: `None` when the reply holds
   * no JSON array or the array does not parse, which yields the fallback;
   * otherwise every question repaired, the i-th with random suffix `random(i)`.
   */
  function ParseAIResponse(parsed: Option<seq<Question>>, language: string, now: int, random: nat -> string,
                           timestamp: string): (r: seq<Question>)
    ensures parsed.None? ==> r == FallbackQuestions(language, now, timestamp)
    ensures parsed.Some? ==> |r| == |parsed.value|
    ensures parsed.Some? ==>
              forall i :: 0 <= i < |r| ==> r[i].generated == Some(true) && r[i].language == Some(language)
                                           && r[i].questionType == parsed.value[i].questionType
  {
    match parsed
    case None => FallbackQuestions(language, now, timestamp)
    case Some(qs) =>
      var repaired := seq(|qs|, i requires 0 <= i < |qs| => Enhanced(qs[i], language, GeneratedId(now, random(i)), timestamp));
      assert forall i :: 0 <= i < |qs| ==> repaired[i] == Enhanced(qs[i], language, GeneratedId(now, random(i)), timestamp);
      repaired
  }

  /**
   * `generateQuestions`: without a client the fallback question; with one,
   * the parsed reply of the model to the prompt (`reply`, `None` when it
   * is not a JSON array of questions).
   */
  function GenerateQuestions(hasClient: bool, reply: Option<seq<Question>>, language: string, now: int,
                             random: nat -> string, timestamp: string): (r: seq<Question>)
    ensures !hasClient ==> r == FallbackQuestions(language, now, timestamp)
    ensures hasClient && reply.Some? ==>
              |r| == |reply.value| && forall i :: 0 <= i < |r| ==> r[i].generated == Some(true) && r[i].questionType == reply.value[i].questionType
  {
    if !hasClient then FallbackQuestions(language, now, timestamp)
    else ParseAIResponse(reply, language, now, random, timestamp)
  }
}
