/**
 * The translation tables of the voice service
 * (react-dashboard/backend/services/language-translator.js): phrase,
 * Twilio locale, Twilio voice and instruction lookups with their Czech
 * fallbacks, and the character-class language guess. JavaScript object
 * lookups are map lookups; `a || b` falls through on a missing (or empty)
 * entry.
 */
module LanguageTranslator {
  import opened Wrappers
  import opened JsText

  /** The keys of `SUPPORTED_LANGUAGES`, the codes every table is keyed by. */
  datatype Language = Cs | En | De | Es | Fr | Zh | Sk

  function Code(l: Language): string
  {
    match l
    case Cs => "cs" case En => "en" case De => "de" case Es => "es"
    case Fr => "fr" case Zh => "zh" case Sk => "sk"
  }

  /** The supported language with this code, if any. */
  function LanguageOf(code: string): (r: Option<Language>)
    ensures r.Some? ==> Code(r.value) == code
    ensures r.None? ==> forall l: Language :: Code(l) != code
  {
    if code == "cs" then Some(Cs) else if code == "en" then Some(En)
    else if code == "de" then Some(De) else if code == "es" then Some(Es)
    else if code == "fr" then Some(Fr) else if code == "zh" then Some(Zh)
    else if code == "sk" then Some(Sk) else None
  }

  /** `SUPPORTED_LANGUAGES`. */
  function LanguageName(l: Language): string
  {
    match l
    case Cs => "Czech" case En => "English" case De => "German" case Es => "Spanish"
    case Fr => "French" case Zh => "Chinese" case Sk => "Slovak"
  }

  /** `TWILIO_LANGUAGES`. */
  function TwilioLocale(l: Language): string
  {
    match l
    case Cs => "cs-CZ" case En => "en-US" case De => "de-DE" case Es => "es-ES"
    case Fr => "fr-FR" case Zh => "zh-CN" case Sk => "sk-SK"
  }

  /** `TWILIO_VOICES`. */
  function TwilioVoice(l: Language): string
  {
    match l
    case Cs => "Google.cs-CZ-Standard-A" case En => "Google.en-US-Standard-A"
    case De => "Google.de-DE-Standard-A" case Es => "Google.es-ES-Standard-A"
    case Fr => "Google.fr-FR-Standard-A" case Zh => "Google.zh-CN-Standard-A"
    case Sk => "Google.sk-SK-Standard-A"
  }

  /** The keys of `TRANSLATIONS`. */
  datatype Phrase =
    | Welcome | CorrectAnswer | WrongAnswer | NextQuestion | TestCompleted
    | LessonCompleted | SayYourAnswer | ContinuingNextLesson | TrainingCompleted

  /** The phrase a `TRANSLATIONS` key names, if any. */
  function PhraseOf(key: string): Option<Phrase>
  {
    if key == "welcome" then Some(Welcome)
    else if key == "correct_answer" then Some(CorrectAnswer)
    else if key == "wrong_answer" then Some(WrongAnswer)
    else if key == "next_question" then Some(NextQuestion)
    else if key == "test_completed" then Some(TestCompleted)
    else if key == "lesson_completed" then Some(LessonCompleted)
    else if key == "say_your_answer" then Some(SayYourAnswer)
    else if key == "continuing_next_lesson" then Some(ContinuingNextLesson)
    else if key == "training_completed" then Some(TrainingCompleted)
    else None
  }

  /** The column of a language in the tables below: cs, en, de, es, fr, zh, sk. */
  function Column(l: Language): (c: nat)
    ensures c < 7
  {
    match l
    case Cs => 0 case En => 1 case De => 2 case Es => 3 case Fr => 4 case Zh => 5 case Sk => 6
  }

  const WelcomeRow: seq<string> :=
    ["Vítejte v AI tutorovi!",
     "Welcome to AI tutor!",
     "Willkommen beim KI-Tutor!",
     "¡Bienvenido al tutor de IA!",
     "Bienvenue dans le tuteur IA!",
     "欢迎使用AI导师！",
     "Vitajte v AI tutorovi!"]
  const CorrectAnswerRow: seq<string> :=
    ["Správná odpověď!",
     "Correct answer!",
     "Richtige Antwort!",
     "¡Respuesta correcta!",
     "Bonne réponse!",
     "答案正确！",
     "Správna odpoveď!"]
  const WrongAnswerRow: seq<string> :=
    ["Nesprávná odpověď.",
     "Wrong answer.",
     "Falsche Antwort.",
     "Respuesta incorrecta.",
     "Mauvaise réponse.",
     "答案错误。",
     "Nesprávna odpoveď."]
  const NextQuestionRow: seq<string> :=
    ["Další otázka:",
     "Next question:",
     "Nächste Frage:",
     "Siguiente pregunta:",
     "Question suivante:",
     "下一个问题：",
     "Ďalšia otázka:"]
  const TestCompletedRow: seq<string> :=
    ["Test dokončen!",
     "Test completed!",
     "Test abgeschlossen!",
     "¡Test completado!",
     "Test terminé!",
     "测试完成！",
     "Test dokončený!"]
  const LessonCompletedRow: seq<string> :=
    ["Lekce dokončena!",
     "Lesson completed!",
     "Lektion abgeschlossen!",
     "¡Lección completada!",
     "Leçon terminée!",
     "课程完成！",
     "Lekcia dokončená!"]
  const SayYourAnswerRow: seq<string> :=
    ["Řekněte svoji odpověď.",
     "Say your answer.",
     "Sagen Sie Ihre Antwort.",
     "Diga su respuesta.",
     "Dites votre réponse.",
     "请说出您的答案。",
     "Povedzte svoju odpoveď."]
  const ContinuingNextLessonRow: seq<string> :=
    ["Pokračujeme další lekcí.",
     "Continuing with the next lesson.",
     "Wir fahren mit der nächsten Lektion fort.",
     "Continuamos con la siguiente lección.",
     "Nous continuons avec la leçon suivante.",
     "继续下一课。",
     "Pokračujeme ďalšou lekciou."]
  const TrainingCompletedRow: seq<string> :=
    ["Školení dokončeno. Děkuji!",
     "Training completed. Thank you!",
     "Schulung abgeschlossen. Danke!",
     "Entrenamiento completado. ¡Gracias!",
     "Formation terminée. Merci!",
     "培训完成。谢谢！",
     "Školenie dokončené. Ďakujem!"]

  /** A row of the phrase table, one text per column. */
  function Row(p: Phrase): (r: seq<string>)
    ensures |r| == 7
  {
    match p
    case Welcome => WelcomeRow
    case CorrectAnswer => CorrectAnswerRow
    case WrongAnswer => WrongAnswerRow
    case NextQuestion => NextQuestionRow
    case TestCompleted => TestCompletedRow
    case LessonCompleted => LessonCompletedRow
    case SayYourAnswer => SayYourAnswerRow
    case ContinuingNextLesson => ContinuingNextLessonRow
    case TrainingCompleted => TrainingCompletedRow
  }

  /** The phrase table: one text per phrase and supported language. */
  function PhraseText(p: Phrase, l: Language): string
  {
    Row(p)[Column(l)]
  }

  /** `table[code] || fallback` on a table with an entry per supported language. */
  function LookupOr(entry: Language -> string, code: string, fallback: string): string
  {
    match LanguageOf(code)
    case Some(l) => if entry(l) != "" then entry(l) else fallback
    case None => fallback
  }

  /** `translate(key, language)`; callers that omit the language pass "cs". */
  function Translate(key: string, language: string): string
  {
    match PhraseOf(key)
    case None => key
    case Some(p) => LookupOr(l => PhraseText(p, l), language, LookupOr(l => PhraseText(p, l), "cs", key))
  }

  /** No entry of the phrase table is empty, so `||` never skips one. */
  lemma PhrasesNonEmpty(p: Phrase, l: Language)
    ensures |PhraseText(p, l)| > 0
  {
  }

  /** An unknown key comes back as it is. */
  lemma UnknownKeyIsReturned(key: string, language: string)
    requires PhraseOf(key).None?
    ensures Translate(key, language) == key
  {
  }

  /** A known key gives the requested language's phrase, or the Czech one for an unsupported language. */
  lemma KnownKeyTranslates(key: string, language: string)
    requires PhraseOf(key).Some?
    ensures Translate(key, language) == PhraseText(PhraseOf(key).value, LanguageOf(language).GetOr(Cs))
  {
    PhrasesNonEmpty(PhraseOf(key).value, LanguageOf(language).GetOr(Cs));
    PhrasesNonEmpty(PhraseOf(key).value, Cs);
  }

  const DefaultLocale: string := "cs-CZ"
  const DefaultVoice: string := "Google.cs-CZ-Standard-A"

  /** `getTwilioLanguage`. */
  function GetTwilioLanguage(language: string): string
  {
    LookupOr(TwilioLocale, language, DefaultLocale)
  }

  /** `getTwilioVoice`. */
  function GetTwilioVoice(language: string): string
  {
    LookupOr(TwilioVoice, language, DefaultVoice)
  }

  /** Supported languages get their own locale and voice; any other code gets the Czech ones. */
  lemma TwilioLookups(language: string)
    ensures LanguageOf(language).Some? ==>
              && GetTwilioLanguage(language) == TwilioLocale(LanguageOf(language).value)
              && GetTwilioVoice(language) == TwilioVoice(LanguageOf(language).value)
    ensures LanguageOf(language).None? ==>
              GetTwilioLanguage(language) == DefaultLocale && GetTwilioVoice(language) == DefaultVoice
    ensures TwilioLocale(Cs) == DefaultLocale && TwilioVoice(Cs) == DefaultVoice
  {
    if LanguageOf(language).Some? {
      var l := LanguageOf(language).value;
      assert |TwilioLocale(l)| > 0 && |TwilioVoice(l)| > 0;
    }
  }

  /** The instruction table of `getLocalizedInstructions`, by column. */
  const InstructionsRow: seq<string> :=
    ["Poslouchejte pozorně a odpovězte na otázky.",
     "Listen carefully and answer the questions.",
     "Hören Sie aufmerksam zu und beantworten Sie die Fragen.",
     "Escuche atentamente y responda las preguntas.",
     "Écoutez attentivement et répondez aux questions.",
     "仔细听并回答问题。",
     "Počúvajte pozorne a odpovedajte na otázky."]

  function Instructions(l: Language): string
  {
    InstructionsRow[Column(l)]
  }

  /** `getLocalizedInstructions`. */
  function GetLocalizedInstructions(language: string): string
  {
    LookupOr(Instructions, language, Instructions(Cs))
  }

  /** Supported languages get their own instructions; any other code the Czech ones. */
  lemma InstructionsFallBackToCzech(language: string)
    ensures GetLocalizedInstructions(language) == Instructions(LanguageOf(language).GetOr(Cs))
  {
    assert |Instructions(LanguageOf(language).GetOr(Cs))| > 0;
  }

  // ------------------------------------------------------ language detection

  /** `[áčďéěíňóřšťúůýž]`. */
  predicate IsCzechMark(c: char)
  {
    c in {'á', 'č', 'ď', 'é', 'ě', 'í', 'ň', 'ó', 'ř', 'š', 'ť', 'ú', 'ů', 'ý', 'ž'}
  }

  /** `[ľôŕĺ]`. */
  predicate IsSlovakMark(c: char)
  {
    c in {'ľ', 'ô', 'ŕ', 'ĺ'}
  }

  /** `[äöüß]`. */
  predicate IsGermanMark(c: char)
  {
    c in {'ä', 'ö', 'ü', 'ß'}
  }

  /** `[ñáéíóúü¿¡]`. */
  predicate IsSpanishMark(c: char)
  {
    c in {'ñ', 'á', 'é', 'í', 'ó', 'ú', 'ü', '¿', '¡'}
  }

  /** `[àâäéèêëïîôöùûüÿç]`. */
  predicate IsFrenchMark(c: char)
  {
    c in {'à', 'â', 'ä', 'é', 'è', 'ê', 'ë', 'ï', 'î', 'ô', 'ö', 'ù', 'û', 'ü', 'ÿ', 'ç'}
  }

  /** `[\u4e00-\u9fff]`. */
  predicate IsHanChar(c: char)
  {
    0x4E00 <= c as int <= 0x9FFF
  }

  /** `detectLanguage`: the first class, in the source's order, with a character in the text. */
  function DetectLanguage(text: string): (r: string)
    ensures LanguageOf(r).Some?
  {
    if AnyChar(text, IsCzechMark) then "cs"
    else if AnyChar(text, IsSlovakMark) || Contains(Lower(text), "ľ") then "sk"
    else if AnyChar(text, IsGermanMark) then "de"
    else if AnyChar(text, IsSpanishMark) then "es"
    else if AnyChar(text, IsFrenchMark) then "fr"
    else if AnyChar(text, IsHanChar) then "zh"
    else "en"
  }

  /** Any lower-case Czech diacritic wins, whatever else the text holds. */
  lemma CzechMarkWins(text: string, i: nat)
    requires i < |text| && IsCzechMark(text[i])
    ensures DetectLanguage(text) == "cs"
  {
  }

  /** A text with none of the listed characters is English. */
  lemma PlainTextIsEnglish(text: string)
    requires forall i :: 0 <= i < |text| ==>
               !IsCzechMark(text[i]) && !IsSlovakMark(text[i]) && text[i] != 'Ľ' && !IsGermanMark(text[i])
               && !IsSpanishMark(text[i]) && !IsFrenchMark(text[i]) && !IsHanChar(text[i])
    ensures DetectLanguage(text) == "en"
  {
    LowerAvoids(text, 'ľ');
  }

  /** `toLowerCase` produces 'ľ' only from 'ľ' and 'Ľ'. */
  lemma LowerAvoids(text: string, c: char)
    requires c == 'ľ' && forall i :: 0 <= i < |text| ==> text[i] != 'ľ' && text[i] != 'Ľ'
    ensures !Contains(Lower(text), [c])
  {
    var low := Lower(text);
    forall i | 0 <= i < |low| ensures low[i] != c {
      assert low[i] == LowerChar(text[i]);
    }
    forall i | 0 <= i <= |low| ensures !OccursAt(low, [c], i) {
      if i + 1 <= |low| {
        assert low[i..i + 1][0] == low[i];
      }
    }
  }

  /**
   * The earlier classes shadow part of the later ones: Spanish is only
   * ever detected through 'ñ', '¿' or '¡', and French only through a mark
   * that is neither Czech, Slovak nor German.
   */
  lemma ShadowedMarks(text: string)
    ensures DetectLanguage(text) == "es" ==> AnyChar(text, c => c in {'ñ', '¿', '¡'})
    ensures DetectLanguage(text) == "fr" ==>
              AnyChar(text, c => c in {'à', 'â', 'è', 'ê', 'ë', 'ï', 'î', 'ù', 'û', 'ÿ', 'ç'})
  {
    if DetectLanguage(text) == "es" {
      var i :| 0 <= i < |text| && IsSpanishMark(text[i]);
      assert !IsCzechMark(text[i]) && !IsGermanMark(text[i]);
    }
    if DetectLanguage(text) == "fr" {
      var i :| 0 <= i < |text| && IsFrenchMark(text[i]);
      assert !IsCzechMark(text[i]) && !IsGermanMark(text[i]) && !IsSlovakMark(text[i]);
    }
  }

  /** A French word whose only accent is 'é' is taken for Czech. */
  lemma FrenchAcuteReadsAsCzech()
    ensures DetectLanguage("café") == "cs"
  {
    assert IsCzechMark("café"[3]);
  }

  // ------------------------------------------------------ content translation

  const TranslationNoteKey: string := "translation_note"

  /** `translateContent`: a note line and a blank line before the content when the languages differ. */
  function TranslateContent(content: string, fromLanguage: string, toLanguage: string): (r: string)
  {
    if fromLanguage == toLanguage then content
    else
      var note := Translate(TranslationNoteKey, toLanguage);
      var line := if note != "" then note
                  else "[Translated from " + fromLanguage + " to " + toLanguage + "]";
      line + "\n\n" + content
  }

  /**
   * Equal languages leave the content alone; otherwise the note is the key
   * 'translation_note' itself, which the phrase table lacks, so the
   * "[Translated from …]" text is never used.
   */
  lemma TranslateContentRule(content: string, fromLanguage: string, toLanguage: string)
    ensures fromLanguage == toLanguage ==> TranslateContent(content, fromLanguage, toLanguage) == content
    ensures fromLanguage != toLanguage ==>
              TranslateContent(content, fromLanguage, toLanguage) == TranslationNoteKey + "\n\n" + content
  {
    assert PhraseOf(TranslationNoteKey).None?;
  }
}
