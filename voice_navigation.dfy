/**
 * The voice test session of a phone call (VoiceNavigationManager in
 * react-dashboard/backend/routes/voice-navigation.js).
 *
 * Each call has a state object that the phase handlers update in place:
 * a lesson is played, any input then starts the test, every further input
 * answers one question, and the call ends with a score-based message.
 * The pure part of every step is given by functions over a snapshot of the
 * state (`Step`); the class methods update the object and are proved to
 * agree with those functions.
 */
module VoiceNavigation {
  import opened Wrappers
  import opened JsText

  // ----- Navigation commands -------------------------------------------

  datatype NavAction = RepeatLesson | NextLesson | PreviousLesson | EndSession

  /** NAVIGATION_COMMANDS, in the order `Object.entries` enumerates them. */
  const NavigationCommands: seq<(string, NavAction)> := [
    ("1", RepeatLesson), ("2", NextLesson), ("3", PreviousLesson), ("4", EndSession),
    ("jedna", RepeatLesson), ("dva", NextLesson), ("tři", PreviousLesson), ("čtyři", EndSession),
    ("zopakovat", RepeatLesson), ("další", NextLesson), ("předchozí", PreviousLesson), ("ukončit", EndSession)
  ]

  /** The first command key, at position `from` or later, that occurs in `clean`. */
  function CommandIndex(clean: string, from: nat): (r: Option<nat>)
    requires from <= |NavigationCommands|
    ensures r.Some? ==> from <= r.value < |NavigationCommands| && Contains(clean, NavigationCommands[r.value].0)
    ensures r.Some? ==> forall j :: from <= j < r.value ==> !Contains(clean, NavigationCommands[j].0)
    ensures r.None? ==> forall j :: from <= j < |NavigationCommands| ==> !Contains(clean, NavigationCommands[j].0)
    decreases |NavigationCommands| - from
  {
    if from == |NavigationCommands| then None
    else if Contains(clean, NavigationCommands[from].0) then Some(from)
    else CommandIndex(clean, from + 1)
  }

  /** The text commands and answers are matched against: lower-cased and trimmed. */
  function CleanInput(input: string): string
  {
    Trim(Lower(input))
  }

  /**
   * `checkNavigationCommand`: the action of the first key, in table order,
   * that is a substring of the cleaned input; `None` when no key occurs.
   */
  function CheckNavigationCommand(input: string): (r: Option<NavAction>)
    ensures r.None? <==> forall j :: 0 <= j < |NavigationCommands| ==> !Contains(CleanInput(input), NavigationCommands[j].0)
    ensures r.Some? ==> exists k :: 0 <= k < |NavigationCommands| && NavigationCommands[k].1 == r.value
                                   && Contains(CleanInput(input), NavigationCommands[k].0)
                                   && forall j :: 0 <= j < k ==> !Contains(CleanInput(input), NavigationCommands[j].0)
  {
    match CommandIndex(CleanInput(input), 0)
    case None => None
    case Some(k) => Some(NavigationCommands[k].1)
  }

  // ----- Lessons, questions and outcomes -------------------------------

  /**
   * A test question of a lesson; `correctAnswer` indexes `options`, which a
   * question may lack altogether (`None`: no options array).
   */
  datatype TestQuestion = TestQuestion(question: Option<string>, options: Option<seq<string>>, correctAnswer: Option<int>)

  /** The lesson record a call is initialised with. */
  datatype LessonData = LessonData(
    title: string,
    content: Option<string>,
    description: Option<string>,
    language: Option<string>,
    questions: Option<seq<TestQuestion>>,
    lessonId: Option<int>)

  datatype Phase = LessonPlaying | LessonCompleted | TestActive | TestCompleted | NavigationMenu

  /** The `questionType` values of an outcome. */
  datatype Kind = KindLesson | KindTest | KindSessionComplete | KindNavigationMenu | KindError

  /** The fixed feedback sentences the call speaks; `FeedbackText` gives their wording. */
  datatype Feedback =
    | LessonDoneNoTest | LessonDoneTestStarts | Correct | Wrong
    | RepeatingLesson | NextLessonFailed | NoNextLesson | PreviousLessonFailed | NoPreviousLesson | Goodbye
    | ChooseOption | CallError
    | Excellent | Good | Average | NeedsPractice

  function FeedbackText(f: Feedback): string
  {
    match f
    case LessonDoneNoTest => "Lekce dokončena. Test není k dispozici."
    case LessonDoneTestStarts => "Lekce dokončena. Začínáme test."
    case Correct => "Správně!"
    case Wrong => "Špatně."
    case RepeatingLesson => "Zopakujeme lekci."
    case NextLessonFailed => "Nepodařilo se načíst další lekci."
    case NoNextLesson => "Žádná další lekce nenavazuje."
    case PreviousLessonFailed => "Nepodařilo se načíst předchozí lekci."
    case NoPreviousLesson => "Žádná předchozí lekce není k dispozici."
    case Goodbye => "Děkuji za účast. Na shledanou!"
    case ChooseOption => "Prosím, vyberte možnost."
    case CallError => "Omlouvám se, došlo k chybě."
    case Excellent => "Výborně! Máte skvělé výsledky."
    case Good => "Dobře! Máte dobré výsledky."
    case Average => "Průměrně. Zkuste to znovu."
    case NeedsPractice => "Potřebujete více procvičit."
  }

  /** What a handler returns to the voice channel. */
  datatype Outcome = Outcome(kind: Kind, feedback: Feedback, nextQuestion: Option<string>, navigationOptions: Option<string>)

  /**
   * How a call to `processUserResponse` ends: it returns an outcome, or its
   * promise rejects with the TypeError of reading an index of a question's
   * missing options array.
   */
  datatype Reply = Returns(outcome: Outcome) | Rejects

  /** One entry of `userAnswers`. */
  datatype AnswerRecord = AnswerRecord(question: Option<string>, userAnswer: string, correct: bool, correctAnswer: Option<string>)

  /** A JavaScript string is truthy when present and non-empty. */
  predicate Truthy(s: Option<string>)
  {
    s.Some? && s.value != ""
  }

  function QuestionsOf(lesson: LessonData): seq<TestQuestion>
  {
    lesson.questions.GetOr([])
  }

  /** `lessonData.language || 'cs'`. */
  function LanguageOf(lesson: LessonData): string
  {
    if Truthy(lesson.language) then lesson.language.value else "cs"
  }

  /** `options[index]`, undefined outside the list. */
  function OptionAt(options: seq<string>, index: Option<int>): Option<string>
  {
    if index.Some? && 0 <= index.value < |options| then Some(options[index.value]) else None
  }

  /** `String.fromCharCode(65 + k)`; a lone surrogate code unit is shown as U+FFFD. */
  function LetterFor(k: int): char
  {
    var code := (65 + k) % 0x10000;
    if 0xD800 <= code < 0xE000 then 0xFFFD as char else code as char
  }

  /** `czechNumbers[k]` as `includes` sees it: indices past the table give the string "undefined". */
  function CzechNumeral(k: int): string
  {
    if k == 0 then "jedna" else if k == 1 then "dva" else if k == 2 then "tři" else if k == 3 then "čtyři"
    else "undefined"
  }

  function FormatLessonContent(lesson: LessonData): string
  {
    lesson.title + ". "
    + (if Truthy(lesson.content) then lesson.content.value
       else if Truthy(lesson.description) then lesson.description.value
       else "Praktické školení.")
  }

  function OptionsText(options: seq<string>, from: nat): string
    requires from <= |options|
    decreases |options| - from
  {
    if from == |options| then ""
    else [LetterFor(from)] + ") " + options[from] + ". " + OptionsText(options, from + 1)
  }

  /** `formatTestQuestion`: the choices are listed only when the question has an options array. */
  function FormatTestQuestion(q: TestQuestion): string
  {
    (if Truthy(q.question) then q.question.value else "Otázka")
    + (if q.options.Some? then " Možnosti: " + OptionsText(q.options.value, 0) else "")
  }

  function NavigationOptions(language: string): string
  {
    if language == "en" then "Say 1 to repeat, 2 for next, 3 for previous, 4 to end."
    else if language == "de" then "Sagen Sie 1 zum Wiederholen, 2 für nächste, 3 für vorherige, 4 zum Beenden."
    else if language == "sk" then "Povedzte 1 na zopakovanie, 2 na ďalšiu, 3 na predchádzajúcu, 4 na ukončenie."
    else "Řekněte 1 pro zopakování, 2 pro další, 3 pro předchozí, 4 pro ukončení."
  }

  function NavigationMenuText(language: string): string
  {
    if language == "en" then "Navigation menu: 1 - Repeat lesson, 2 - Next lesson, 3 - Previous lesson, 4 - End session."
    else if language == "de" then "Navigationsmenü: 1 - Lektion wiederholen, 2 - Nächste Lektion, 3 - Vorherige Lektion, 4 - Sitzung beenden."
    else if language == "sk" then "Navigačné menu: 1 - Zopakovať lekciu, 2 - Ďalšia lekcia, 3 - Predchádzajúca lekcia, 4 - Ukončiť reláciu."
    else "Navigační menu: 1 - Zopakovat lekci, 2 - Další lekce, 3 - Předchozí lekce, 4 - Ukončit relaci."
  }

  // ----- Test feedback ---------------------------------------------------

  /** `Math.round((score / total) * 100)` as a JavaScript number: NaN for 0/0, +Infinity for k/0. */
  datatype Percent = NaN | PosInfinity | Finite(value: int)

  function Percentage(score: nat, total: nat): Percent
  {
    if total == 0 then (if score == 0 then NaN else PosInfinity)
    else Finite(Round((score as real / total as real) * 100.0))
  }

  /** `generateTestFeedback`; every comparison with NaN is false. */
  function TestFeedback(p: Percent): Feedback
  {
    match p
    case NaN => NeedsPractice
    case PosInfinity => Excellent
    case Finite(v) =>
      if v >= 90 then Excellent
      else if v >= 70 then Good
      else if v >= 50 then Average
      else NeedsPractice
  }

  /** The four feedback buckets of a finite percentage. */
  lemma TestFeedbackBuckets(v: int)
    ensures TestFeedback(Finite(v)) == Excellent <==> v >= 90
    ensures TestFeedback(Finite(v)) == Good <==> 70 <= v < 90
    ensures TestFeedback(Finite(v)) == Average <==> 50 <= v < 70
    ensures TestFeedback(Finite(v)) == NeedsPractice <==> v < 50
  {
  }

  /** A test with no questions ends with the lowest bucket, because 0/0 is NaN. */
  lemma EmptyTestGetsLowestFeedback()
    ensures TestFeedback(Percentage(0, 0)) == NeedsPractice
  {
  }

  function TestCompletedOutcome(score: nat, total: nat): Outcome
  {
    Outcome(KindSessionComplete, TestFeedback(Percentage(score, total)), None, None)
  }

  // ----- Answer matching -------------------------------------------------

  /**
   * The option `checkTestAnswer` compares against: none when `correctAnswer`
   * is missing or 0 (both falsy), out of range, or designates an empty option;
   * none either for a question without options, where the lookup throws.
   */
  function CorrectOption(q: TestQuestion): Option<string>
  {
    if q.correctAnswer.None? || q.correctAnswer.value == 0 || q.options.None? then None
    else
      var k := q.correctAnswer.value;
      var options := q.options.value;
      if 0 <= k < |options| && options[k] != "" then Some(options[k]) else None
  }

  /** `checkTestAnswer` reads `options[correctAnswer]` of a missing array once `correctAnswer` is truthy. */
  predicate AnswerCheckThrows(q: TestQuestion)
  {
    q.options.None? && q.correctAnswer.Some? && q.correctAnswer.value != 0
  }

  /** Whether `w` and `cw` match in the word-overlap rule: one contains the other. */
  predicate WordsMatch(w: string, cw: string)
  {
    Contains(w, cw) || Contains(cw, w)
  }

  /** The number of option words that `w` matches. */
  function PairHits(w: string, cws: seq<string>): nat
  {
    if |cws| == 0 then 0
    else PairHits(w, cws[..|cws| - 1]) + (if WordsMatch(w, cws[|cws| - 1]) then 1 else 0)
  }

  /** The number of matching (input word, option word) pairs. */
  function MatchCount(ws: seq<string>, cws: seq<string>): nat
  {
    if |ws| == 0 then 0 else MatchCount(ws[..|ws| - 1], cws) + PairHits(ws[|ws| - 1], cws)
  }

  function Max(a: int, b: int): int
  {
    if a >= b then a else b
  }

  /** `matchCount / max(|words|, |correctWords|) * 100 >= 50`, in exact arithmetic. */
  predicate OverlapAccepts(ws: seq<string>, cws: seq<string>)
  {
    2 * MatchCount(ws, cws) >= Max(|ws|, |cws|)
  }

  /**
   * The answer rule of `checkTestAnswer`: with a usable correct option at
   * index k, the cleaned input is accepted when it contains the option text,
   * the letter of k, the number k + 1, the Czech numeral of k, or when at
   * least half of the word pairs match.
   */
  predicate AnswerAccepted(input: string, q: TestQuestion)
  {
    match CorrectOption(q)
    case None => false
    case Some(correct) =>
      var clean := CleanInput(input);
      DirectMatch(clean, correct, q.correctAnswer.value)
      || OverlapAccepts(SplitOn(clean, ' '), SplitOn(Lower(correct), ' '))
  }

  /** The four direct checks, in the source's order: option text, letter, number, Czech numeral. */
  predicate DirectMatch(clean: string, correct: string, k: nat)
  {
    Contains(clean, Lower(correct))
    || Contains(clean, [LowerChar(LetterFor(k))])
    || Contains(clean, NatToString(k + 1))
    || Contains(clean, CzechNumeral(k))
  }

  /**
   * `checkTestAnswer`, with the nested word-overlap loop of the source: the
   * verdict of the answer rule, or the TypeError of a missing options array.
   */
  method CheckTestAnswer(input: string, q: TestQuestion) returns (r: Result<bool>)
    ensures r.Err? <==> AnswerCheckThrows(q)
    ensures r.Ok? ==> r.value == AnswerAccepted(input, q)
  {
    if q.correctAnswer.None? || q.correctAnswer.value == 0 {
      return Ok(false);
    }
    var k := q.correctAnswer.value;
    var clean := CleanInput(input);
    if q.options.None? {
      return Err("TypeError: Cannot read properties of undefined");
    }
    var options := q.options.value;
    if !(0 <= k < |options|) || options[k] == "" {
      return Ok(false);
    }
    var correct := options[k];
    assert CorrectOption(q) == Some(correct);
    if DirectMatch(clean, correct, k) {
      return Ok(true);
    }
    var words := SplitOn(clean, ' ');
    var correctWords := SplitOn(Lower(correct), ' ');
    var matchCount := CountMatches(words, correctWords);
    r := Ok(2 * matchCount >= Max(|words|, |correctWords|));
  }

  /** The nested loop of `checkTestAnswer` that counts matching word pairs. */
  method CountMatches(words: seq<string>, correctWords: seq<string>) returns (matchCount: nat)
    ensures matchCount == MatchCount(words, correctWords)
  {
    matchCount := 0;
    for i := 0 to |words|
      invariant matchCount == MatchCount(words[..i], correctWords)
    {
      assert words[..i + 1][..i] == words[..i];
      for j := 0 to |correctWords|
        invariant matchCount == MatchCount(words[..i], correctWords) + PairHits(words[i], correctWords[..j])
      {
        assert correctWords[..j + 1][..j] == correctWords[..j];
        if WordsMatch(words[i], correctWords[j]) {
          matchCount := matchCount + 1;
        }
      }
      assert correctWords[..|correctWords|] == correctWords;
    }
    assert words[..|words|] == words;
  }

  /** A correct option at index 0 is never accepted, whatever is said. */
  lemma IndexZeroNeverAccepted(input: string, q: TestQuestion)
    requires q.correctAnswer == Some(0)
    ensures !AnswerAccepted(input, q)
  {
  }

  lemma {:induction false} PairHitsOfEmpty(cws: seq<string>)
    ensures PairHits("", cws) == |cws|
  {
    if |cws| > 0 {
      PairHitsOfEmpty(cws[..|cws| - 1]);
      ContainsEmpty(cws[|cws| - 1]);
    }
  }

  /** The cleaned form of a blank input is empty. */
  lemma {:induction false} BlankCleansToEmpty(input: string)
    requires forall i :: 0 <= i < |input| ==> IsJsSpace(input[i])
    ensures CleanInput(input) == ""
  {
    var low := Lower(input);
    forall i | 0 <= i < |low| ensures IsJsSpace(low[i]) {
      LowerKeepsSpace(input[i]);
    }
  }

  /**
   * A blank answer is accepted for every question whose correct option is
   * usable: the empty word is contained in every option word.
   */
  lemma BlankAnswerAccepted(input: string, q: TestQuestion)
    requires forall i :: 0 <= i < |input| ==> IsJsSpace(input[i])
    requires CorrectOption(q).Some?
    ensures AnswerAccepted(input, q)
  {
    BlankCleansToEmpty(input);
    var cws := SplitOn(Lower(CorrectOption(q).value), ' ');
    assert SplitOn("", ' ') == [""];
    PairHitsOfEmpty(cws);
    assert MatchCount([""], cws) == MatchCount([], cws) + PairHits("", cws);
  }

  /** An answer consisting of the option's own text (without surrounding blanks) is accepted. */
  lemma OptionTextAccepted(q: TestQuestion)
    requires CorrectOption(q).Some?
    requires var c := CorrectOption(q).value; !IsJsSpace(c[0]) && !IsJsSpace(c[|c| - 1])
    ensures AnswerAccepted(CorrectOption(q).value, q)
  {
    var c := CorrectOption(q).value;
    var low := Lower(c);
    LowerKeepsSpace(c[0]);
    LowerKeepsSpace(c[|c| - 1]);
    assert TrimStart(low, IsJsSpace) == low;
    assert TrimEnd(low, IsJsSpace) == low;
    ContainsSelf(low);
  }

  // ----- Call state and its steps ------------------------------------------

  /** The fields of a per-call state object that the handlers read or write. */
  datatype CallSnapshot = CallSnapshot(
    lesson: LessonData,
    phase: Phase,
    index: nat,
    answers: seq<AnswerRecord>,
    score: nat,
    total: nat,
    language: string)

  /** The number of answers judged correct. */
  function CorrectCount(answers: seq<AnswerRecord>): nat
  {
    if |answers| == 0 then 0
    else CorrectCount(answers[..|answers| - 1]) + (if answers[|answers| - 1].correct then 1 else 0)
  }

  lemma {:induction false} CorrectCountBound(answers: seq<AnswerRecord>)
    ensures CorrectCount(answers) <= |answers|
  {
    if |answers| > 0 {
      CorrectCountBound(answers[..|answers| - 1]);
    }
  }

  /**
   * The invariant every reachable call state keeps: the score counts the
   * answers judged correct, one answer is logged per question passed, and
   * during and after the test the index stays within the question count,
   * reaching it exactly when the test is completed.
   */
  ghost predicate Inv(v: CallSnapshot)
  {
    && v.score == CorrectCount(v.answers)
    && |v.answers| == v.index
    && ((v.phase.TestActive? || v.phase.TestCompleted?) ==> v.index <= v.total == |QuestionsOf(v.lesson)|)
    && (v.phase.TestCompleted? ==> v.index == v.total)
    && (v.phase.LessonCompleted? ==> v.index == 0)
  }

  /** The state `initializeState` creates. */
  function InitialState(lesson: LessonData): (v: CallSnapshot)
    ensures Inv(v)
  {
    CallSnapshot(lesson, LessonPlaying, 0, [], 0, 0, LanguageOf(lesson))
  }

  /** Starting the test: the outcome of `handleLessonPhase` and `handleLessonCompleted`. */
  function TestStartOutcome(v: CallSnapshot): Outcome
  {
    var qs := QuestionsOf(v.lesson);
    if |qs| == 0 then Outcome(KindSessionComplete, LessonDoneNoTest, None, None)
    else Outcome(KindTest, LessonDoneTestStarts, Some(FormatTestQuestion(qs[0])), Some(NavigationOptions(v.language)))
  }

  /** `handleLessonPhase`: any input starts the test from scratch. */
  function LessonPhase(v: CallSnapshot): (CallSnapshot, Outcome)
  {
    (v.(phase := TestActive, index := 0, total := |QuestionsOf(v.lesson)|, score := 0, answers := []), TestStartOutcome(v))
  }

  /** `handleLessonCompleted`: starts the test without clearing the score or the answers. */
  function LessonCompletedPhase(v: CallSnapshot): (CallSnapshot, Outcome)
  {
    (v.(phase := TestActive, index := 0, total := |QuestionsOf(v.lesson)|), TestStartOutcome(v))
  }

  /** The reply to an answer that is not the last: the verdict, then the next question. */
  function AnswerOutcome(ok: bool, next: TestQuestion, language: string): Outcome
  {
    Outcome(KindTest, if ok then Correct else Wrong, Some(FormatTestQuestion(next)), Some(NavigationOptions(language)))
  }

  /** Log the answer to the current question with its verdict `ok`, then ask the next question or complete the test. */
  function RecordAnswer(v: CallSnapshot, input: string, ok: bool): (CallSnapshot, Outcome)
    requires Inv(v) && v.phase.TestActive? && v.index < v.total
    requires QuestionsOf(v.lesson)[v.index].options.Some?
  {
    var qs := QuestionsOf(v.lesson);
    var q := qs[v.index];
    var w := v.(index := v.index + 1, score := v.score + (if ok then 1 else 0),
                answers := v.answers + [AnswerRecord(q.question, input, ok, OptionAt(q.options.value, q.correctAnswer))]);
    if w.index < w.total then (w, AnswerOutcome(ok, qs[w.index], v.language))
    else (w.(phase := TestCompleted), TestCompletedOutcome(w.score, w.total))
  }

  /**
   * `handleTestPhase`: judge one answer, log it and move on, or complete the
   * test. A question without options throws before anything is changed:
   * either in the answer check or when the record reads the correct option.
   */
  function TestPhase(v: CallSnapshot, input: string): (CallSnapshot, Reply)
    requires Inv(v) && v.phase.TestActive?
  {
    if v.index >= v.total then (v.(phase := TestCompleted), Returns(TestCompletedOutcome(v.score, v.total)))
    else if QuestionsOf(v.lesson)[v.index].options.None? then (v, Rejects)
    else
      var r := RecordAnswer(v, input, AnswerAccepted(input, QuestionsOf(v.lesson)[v.index]));
      (r.0, Returns(r.1))
  }

  /**
   * The reply of `handleNavigation`. Loading the next or previous lesson calls
   * helpers the lesson selector does not export, so with a lesson id it always fails.
   */
  function NavigationOutcome(lesson: LessonData, language: string, action: NavAction): Outcome
  {
    var hasId := lesson.lessonId.Some? && lesson.lessonId.value != 0;
    match action
    case RepeatLesson =>
      Outcome(KindLesson, RepeatingLesson, Some(FormatLessonContent(lesson)), Some(NavigationOptions(language)))
    case NextLesson =>
      if hasId then Outcome(KindError, NextLessonFailed, None, None)
      else Outcome(KindNavigationMenu, NoNextLesson, Some(NavigationMenuText(language)), None)
    case PreviousLesson =>
      if hasId then Outcome(KindError, PreviousLessonFailed, None, None)
      else Outcome(KindNavigationMenu, NoPreviousLesson, Some(NavigationMenuText(language)), None)
    case EndSession =>
      Outcome(KindSessionComplete, Goodbye, None, None)
  }

  /** `handleNavigation`: only repeating the lesson changes the state, back to the lesson phase. */
  function NavigationStep(v: CallSnapshot, action: NavAction): (CallSnapshot, Outcome)
  {
    var w := if action == RepeatLesson then v.(phase := LessonPlaying, index := 0, answers := [], score := 0) else v;
    (w, NavigationOutcome(v.lesson, v.language, action))
  }

  /** `handleNavigationMenu`: a recognised command is carried out, anything else repeats the menu. */
  function NavigationMenuPhase(v: CallSnapshot, input: string): (CallSnapshot, Outcome)
  {
    match CheckNavigationCommand(input)
    case Some(a) => NavigationStep(v, a)
    case None =>
      (v, Outcome(KindNavigationMenu, ChooseOption, Some(NavigationMenuText(v.language)), Some(NavigationOptions(v.language))))
  }

  /** `processUserResponse` for a known call: dispatch on the phase. */
  function Step(v: CallSnapshot, input: string): (r: (CallSnapshot, Reply))
    requires Inv(v)
    ensures Inv(r.0)
    ensures r.0.lesson == v.lesson && r.0.language == v.language
    ensures r.1.Rejects? ==> r.0 == v
  {
    match v.phase
    case LessonPlaying => var r := LessonPhase(v); (r.0, Returns(r.1))
    case LessonCompleted => var r := LessonCompletedPhase(v); (r.0, Returns(r.1))
    case TestActive => TestPhase(v, input)
    case TestCompleted => (v, Returns(TestCompletedOutcome(v.score, v.total)))
    case NavigationMenu => var r := NavigationMenuPhase(v, input); (r.0, Returns(r.1))
  }

  /** In every reachable state the score never exceeds the index. */
  lemma ScoreAtMostIndex(v: CallSnapshot)
    requires Inv(v)
    ensures v.score <= v.index
  {
    CorrectCountBound(v.answers);
  }

  /** Any input while the lesson plays starts the test with a clean slate. */
  lemma LessonInputStartsTest(v: CallSnapshot, input: string)
    requires Inv(v) && v.phase.LessonPlaying?
    ensures var w := Step(v, input).0;
            w.phase.TestActive? && w.index == 0 && w.score == 0 && w.answers == [] && w.total == |QuestionsOf(v.lesson)|
    ensures Step(v, input).1.Returns?
    ensures Step(v, input).1.outcome.kind == (if QuestionsOf(v.lesson) == [] then KindSessionComplete else KindTest)
  {
  }

  /**
   * Answering a question appends exactly one record, advances the index by
   * one, and adds one to the score exactly when the answer is accepted.
   */
  lemma AnswerAdvancesByOne(v: CallSnapshot, input: string)
    requires Inv(v) && v.phase.TestActive? && v.index < v.total
    requires QuestionsOf(v.lesson)[v.index].options.Some?
    ensures Step(v, input).1.Returns?
    ensures var w := Step(v, input).0;
            var ok := AnswerAccepted(input, QuestionsOf(v.lesson)[v.index]);
            && w.index == v.index + 1
            && |w.answers| == |v.answers| + 1 && w.answers[..|v.answers|] == v.answers
            && w.answers[|v.answers|].correct == ok
            && w.answers[|v.answers|].userAnswer == input
            && w.score == v.score + (if ok then 1 else 0)
  {
    var w := Step(v, input).0;
    assert w.answers[..|v.answers|] == v.answers;
  }

  /**
   * Answering a question that has no options array rejects and changes
   * nothing, so the call stays on that question and every further answer
   * rejects again.
   */
  lemma OptionlessQuestionRejects(v: CallSnapshot, input: string)
    requires Inv(v) && v.phase.TestActive? && v.index < v.total
    requires QuestionsOf(v.lesson)[v.index].options.None?
    ensures Step(v, input) == (v, Rejects)
  {
  }

  /** During the test, the phase becomes TEST_COMPLETED exactly when the index reaches the question count. */
  lemma CompletionExactlyAtEnd(v: CallSnapshot, input: string)
    requires Inv(v) && v.phase.TestActive?
    ensures var w := Step(v, input).0; w.phase.TestCompleted? <==> w.index == w.total
    ensures var w := Step(v, input).0; w.phase.TestActive? || w.phase.TestCompleted?
  {
  }

  /** Input arriving after the last question completes the test and records nothing. */
  lemma LateInputRecordsNothing(v: CallSnapshot, input: string)
    requires Inv(v) && v.phase.TestActive? && v.index >= v.total
    ensures Step(v, input).0 == v.(phase := TestCompleted)
    ensures Step(v, input).1 == Returns(TestCompletedOutcome(v.score, v.total))
  {
  }

  /** `repeat_lesson` goes back to the lesson with index, score and answers reset. */
  lemma RepeatLessonResets(v: CallSnapshot)
    ensures var w := NavigationStep(v, RepeatLesson).0;
            w.phase.LessonPlaying? && w.index == 0 && w.score == 0 && w.answers == [] && w.lesson == v.lesson
  {
  }

  /** Next/previous navigation never changes the state. */
  lemma LessonSwitchKeepsState(v: CallSnapshot, a: NavAction)
    requires a == NextLesson || a == PreviousLesson
    ensures NavigationStep(v, a).0 == v
    ensures NavigationStep(v, a).1.kind == (if v.lesson.lessonId.Some? && v.lesson.lessonId.value != 0 then KindError else KindNavigationMenu)
  {
  }

  /** The state after feeding `inputs` one by one. */
  function Run(v: CallSnapshot, inputs: seq<string>): (w: CallSnapshot)
    requires Inv(v)
    ensures Inv(w)
    decreases |inputs|
  {
    if |inputs| == 0 then v else Run(Step(v, inputs[0]).0, inputs[1..])
  }

  /** Answering the remaining questions one by one completes the test with one record per question. */
  lemma {:induction false} AnsweringAllCompletes(v: CallSnapshot, inputs: seq<string>)
    requires Inv(v) && v.phase.TestActive? && 0 < |inputs| && v.index + |inputs| == v.total
    requires forall i :: v.index <= i < v.total ==> QuestionsOf(v.lesson)[i].options.Some?
    ensures var w := Run(v, inputs);
            w.phase.TestCompleted? && w.index == w.total == v.total
            && |w.answers| == v.total && w.answers[..|v.answers|] == v.answers
    decreases |inputs|
  {
    var w1 := Step(v, inputs[0]).0;
    AnswerAdvancesByOne(v, inputs[0]);
    if |inputs| > 1 {
      AnsweringAllCompletes(w1, inputs[1..]);
      var w := Run(w1, inputs[1..]);
      assert w.answers[..|v.answers|] == w.answers[..|w1.answers|][..|v.answers|];
    }
  }

  /**
   * A whole call: one input during the lesson and one per question ends in
   * TEST_COMPLETED with one logged answer per question and a score no greater
   * than the number of questions.
   */
  lemma WholeCallCompletes(lesson: LessonData, first: string, replies: seq<string>)
    requires 0 < |replies| == |QuestionsOf(lesson)|
    requires forall i :: 0 <= i < |replies| ==> QuestionsOf(lesson)[i].options.Some?
    ensures var w := Run(InitialState(lesson), [first] + replies);
            w.phase.TestCompleted? && |w.answers| == |replies| && w.score <= |replies|
  {
    var v0 := InitialState(lesson);
    var inputs := [first] + replies;
    var v1 := Step(v0, first).0;
    assert inputs[1..] == replies;
    assert Run(v0, inputs) == Run(v1, replies);
    AnsweringAllCompletes(v1, replies);
    ScoreAtMostIndex(Run(v1, replies));
  }

  // ----- The mutable per-call state and the manager -----------------------

  /** The per-call state object the handlers update in place. */
  class CallState {
    const callSid: string
    var lesson: LessonData
    var phase: Phase
    var index: nat
    var answers: seq<AnswerRecord>
    var score: nat
    var total: nat
    var language: string

    function Snapshot(): CallSnapshot
      reads this
    {
      CallSnapshot(lesson, phase, index, answers, score, total, language)
    }

    ghost predicate Valid()
      reads this
    {
      Inv(Snapshot())
    }

    /** `initializeState`'s record: lesson playing, nothing answered, language defaulting to 'cs'. */
    constructor (callSid: string, lessonData: LessonData)
      ensures this.callSid == callSid
      ensures Snapshot() == InitialState(lessonData) && Valid()
    {
      this.callSid := callSid;
      lesson := lessonData;
      phase := LessonPlaying;
      index := 0;
      answers := [];
      score := 0;
      total := 0;
      language := LanguageOf(lessonData);
    }

    method HandleLessonPhase() returns (o: Outcome)
      modifies this
      ensures (Snapshot(), o) == LessonPhase(old(Snapshot()))
    {
      phase := TestActive;
      index := 0;
      total := |QuestionsOf(lesson)|;
      score := 0;
      answers := [];
      if total == 0 {
        return Outcome(KindSessionComplete, LessonDoneNoTest, None, None);
      }
      var first := FormatTestQuestion(QuestionsOf(lesson)[0]);
      return Outcome(KindTest, LessonDoneTestStarts, Some(first), Some(NavigationOptions(language)));
    }

    method HandleLessonCompleted() returns (o: Outcome)
      modifies this
      ensures (Snapshot(), o) == LessonCompletedPhase(old(Snapshot()))
    {
      phase := TestActive;
      index := 0;
      total := |QuestionsOf(lesson)|;
      if total == 0 {
        return Outcome(KindSessionComplete, LessonDoneNoTest, None, None);
      }
      var first := FormatTestQuestion(QuestionsOf(lesson)[0]);
      return Outcome(KindTest, LessonDoneTestStarts, Some(first), Some(NavigationOptions(language)));
    }

    method HandleTestPhase(input: string) returns (r: Reply)
      requires Valid() && phase.TestActive?
      modifies this
      ensures (Snapshot(), r) == TestPhase(old(Snapshot()), input)
    {
      if index >= total {
        phase := TestCompleted;
        return Returns(TestCompletedOutcome(score, total));
      }
      var q := QuestionsOf(lesson)[index];
      var isCorrect := CheckTestAnswer(input, q);
      if isCorrect.Err? || q.options.None? {
        return Rejects;
      }
      var o := LogAnswer(input, isCorrect.value);
      r := Returns(o);
    }

    /** Log the current answer with its verdict, then ask the next question or complete the test. */
    method LogAnswer(input: string, isCorrect: bool) returns (o: Outcome)
      requires Valid() && phase.TestActive? && index < total
      requires QuestionsOf(lesson)[index].options.Some?
      modifies this
      ensures (Snapshot(), o) == RecordAnswer(old(Snapshot()), input, isCorrect)
    {
      var q := QuestionsOf(lesson)[index];
      if isCorrect {
        score := score + 1;
      }
      answers := answers + [AnswerRecord(q.question, input, isCorrect, OptionAt(q.options.value, q.correctAnswer))];
      index := index + 1;
      if index < total {
        return AnswerOutcome(isCorrect, QuestionsOf(lesson)[index], language);
      }
      phase := TestCompleted;
      return TestCompletedOutcome(score, total);
    }

    method HandleNavigation(action: NavAction) returns (o: Outcome)
      modifies this
      ensures (Snapshot(), o) == NavigationStep(old(Snapshot()), action)
    {
      if action == RepeatLesson {
        phase := LessonPlaying;
        index := 0;
        answers := [];
        score := 0;
      }
      o := NavigationOutcome(lesson, language, action);
    }

    method HandleNavigationMenu(input: string) returns (o: Outcome)
      modifies this
      ensures (Snapshot(), o) == NavigationMenuPhase(old(Snapshot()), input)
    {
      var command := CheckNavigationCommand(input);
      if command.Some? {
        o := HandleNavigation(command.value);
        return;
      }
      return Outcome(KindNavigationMenu, ChooseOption, Some(NavigationMenuText(language)), Some(NavigationOptions(language)));
    }

    /** Dispatch on the phase, as `processUserResponse` does for a known call. */
    method Respond(input: string) returns (r: Reply)
      requires Valid()
      modifies this
      ensures Valid()
      ensures (Snapshot(), r) == Step(old(Snapshot()), input)
    {
      ghost var v := Snapshot();
      match phase
      case LessonPlaying =>
        var o := HandleLessonPhase();
        r := Returns(o);
      case LessonCompleted =>
        var o := HandleLessonCompleted();
        r := Returns(o);
      case TestActive =>
        assert Step(v, input) == TestPhase(v, input);
        r := HandleTestPhase(input);
      case TestCompleted =>
        r := Returns(TestCompletedOutcome(score, total));
      case NavigationMenu =>
        var o := HandleNavigationMenu(input);
        r := Returns(o);
    }
  }

  /** The manager's call table (`conversationStates`), written by one caller at a time. */
  class VoiceNavigationManager {
    var states: map<string, CallState>

    constructor ()
      ensures states == map[]
    {
      states := map[];
    }

    ghost predicate Valid()
      reads this, states.Values
    {
      forall k :: k in states ==> states[k].Valid()
    }

    /** `initializeState`: a fresh state for the call, replacing any earlier one. */
    method InitializeState(callSid: string, lessonData: LessonData)
      requires Valid()
      modifies this
      ensures Valid()
      ensures callSid in states && fresh(states[callSid])
      ensures states[callSid].Snapshot() == InitialState(lessonData)
      ensures forall k :: k in old(states) && k != callSid ==> k in states && states[k] == old(states[k])
      ensures states.Keys == old(states.Keys) + {callSid}
    {
      var s := new CallState(callSid, lessonData);
      states := states[callSid := s];
    }

    /**
     * `processUserResponse`: an unknown call gets the error outcome and
     * changes nothing; a known call takes one `Step`.
     */
    method ProcessUserResponse(input: string, callSid: string) returns (r: Reply)
      requires Valid()
      modifies if callSid in states then {states[callSid]} else {}
      ensures Valid()
      ensures callSid !in states ==> r == Returns(Outcome(KindError, CallError, None, None))
      ensures callSid in states ==> (states[callSid].Snapshot(), r) == Step(old(states[callSid].Snapshot()), input)
    {
      if callSid !in states {
        return Returns(Outcome(KindError, CallError, None, None));
      }
      var s := states[callSid];
      r := s.Respond(input);
    }
  }
}
