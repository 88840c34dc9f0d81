/**
 * The choice of what a caller hears first
 * (react-dashboard/backend/routes/lesson-selector.js): a placement test
 * for unknown callers and callers without a level, otherwise one of two
 * fixed lessons. The user lookup is a parameter: `Err` stands for the
 * lookup throwing, `Ok(None)` for no user with that phone number.
 */
module LessonSelector {
  import opened Wrappers
  import opened JsText

  /** The user columns the selector reads; a null `current_lesson_level` is `None`. */
  datatype UserRecord = UserRecord(id: int, name: string, currentLessonLevel: Option<int>)

  datatype SelectionKind = PlacementTest | Lesson | Error

  /**
   * The object `getLessonForUser` returns. An absent optional key is `None`,
   * an absent `title` is "", and the error object has an empty question list.
   */
  datatype Selection = Selection(
    kind: SelectionKind,
    userId: Option<int>,
    level: Option<int>,
    title: string,
    message: string,
    content: Option<string>,
    questions: seq<string>)

  const AnonymousQuestions: seq<string> :=
    ["Představte se anglicky - řekněte své jméno a odkud jste.", "Popište svou práci nebo školu anglicky.",
     "Co děláte ve volném čase? Odpovězte anglicky."]
  const KnownCallerQuestions: seq<string> :=
    ["Představte se anglicky - řekněte své jméno a odkud jste.", "Popište svou práci nebo činnost anglicky.",
     "Jaké máte plány do budoucna? Odpovězte anglicky."]
  const LessonOneQuestions: seq<string> := ["How old are you?", "Where are you from?", "What do you do for work?"]
  const LessonTwoQuestions: seq<string> := ["Tell me about your family.", "Do you have any siblings?", "Who is your best friend?"]

  const AnonymousTitle: string := "Úvodní test"
  const AnonymousMessage: string := "Vítejte! Prosím odpovězte na několik otázek k určení vaší úrovně."
  const PlacementTitlePrefix: string := "Úvodní test pro "
  const PlacementGreetingRest: string := "! Začneme úvodním testem k určení vaší úrovně angličtiny."
  const ContinuingPrefix: string := "Pokračujeme v lekci "
  const LessonOneTitle: string := "Lekce 1 - Základní představení"
  const LessonOneMessageRest: string := ". Budeme procvičovat základní představení."
  const LessonOneContent: string := "Naučíme se, jak se představit, říct své jméno, věk a odkud jsme."
  const LessonTwoTitle: string := "Lekce 2 - Rodina a přátelé"
  const LessonTwoMessageRest: string := ". Budeme mluvit o rodině."
  const LessonTwoContent: string := "Naučíme se mluvit o rodině, přátelích a vztazích."
  const ErrorMessage: string := "Omlouvám se, došlo k chybě. Zkuste to prosím později."

  const AnonymousPlacement: Selection :=
    Selection(PlacementTest, None, None, AnonymousTitle,
              AnonymousMessage, None,
              AnonymousQuestions)

  function UserPlacement(user: UserRecord): Selection
  {
    Selection(PlacementTest, Some(user.id), None, PlacementTitlePrefix + user.name,
              "Dobrý den " + user.name + PlacementGreetingRest, None,
              KnownCallerQuestions)
  }

  /** The level-1 lesson; its message names the caller's stored level, whatever it is. */
  function LessonOne(storedLevel: int): Selection
  {
    Selection(Lesson, None, Some(1), LessonOneTitle,
              ContinuingPrefix + IntToString(storedLevel) + LessonOneMessageRest,
              Some(LessonOneContent),
              LessonOneQuestions)
  }

  function LessonTwo(storedLevel: int): Selection
  {
    Selection(Lesson, None, Some(2), LessonTwoTitle,
              ContinuingPrefix + IntToString(storedLevel) + LessonTwoMessageRest,
              Some(LessonTwoContent),
              LessonTwoQuestions)
  }

  const ErrorSelection: Selection :=
    Selection(Error, None, None, "", ErrorMessage, None, [])

  /** `getLessonForUser`. */
  function GetLessonForUser(lookup: Result<Option<UserRecord>>): (r: Selection)
    ensures r.kind != Error ==> |r.questions| == 3
    ensures r.kind == Error <==> lookup.Err?
  {
    match lookup
    case Err(_) => ErrorSelection
    case Ok(None) => AnonymousPlacement
    case Ok(Some(user)) =>
      match user.currentLessonLevel
      case None => UserPlacement(user)
      case Some(n) =>
        if n == 0 then UserPlacement(user)
        else if n == 2 then LessonTwo(n)
        else LessonOne(n)
  }

  /** An unknown phone number gets the anonymous placement test, which carries no user id. */
  lemma UnknownPhoneGetsPlacement()
    ensures GetLessonForUser(Ok(None)).kind == PlacementTest
    ensures GetLessonForUser(Ok(None)).userId.None?
  {
  }

  /** A known caller without a level gets a placement test carrying their id and greeting them by name. */
  lemma NoLevelGetsPersonalPlacement(user: UserRecord)
    requires user.currentLessonLevel.None? || user.currentLessonLevel == Some(0)
    ensures GetLessonForUser(Ok(Some(user))).kind == PlacementTest
    ensures GetLessonForUser(Ok(Some(user))).userId == Some(user.id)
    ensures GetLessonForUser(Ok(Some(user))).title == PlacementTitlePrefix + user.name
  {
  }

  /**
   * A placement test is given exactly to unknown callers and callers with
   * no or a zero level; every other caller gets lesson 2 at level 2 and
   * lesson 1 otherwise, including levels 3 and above and negative levels.
   */
  lemma SelectionRule(user: UserRecord)
    ensures GetLessonForUser(Ok(Some(user))).kind == PlacementTest
            <==> (user.currentLessonLevel.None? || user.currentLessonLevel == Some(0))
    ensures GetLessonForUser(Ok(Some(user))).level == Some(2) <==> user.currentLessonLevel == Some(2)
    ensures GetLessonForUser(Ok(Some(user))).level == Some(1)
            <==> (user.currentLessonLevel.Some? && user.currentLessonLevel.value !in {0, 2})
  {
  }

  /** A level above 2 gets lesson 1, whose message still names the stored level. */
  lemma HighLevelFallsBackToLessonOne(user: UserRecord)
    requires user.currentLessonLevel.Some? && user.currentLessonLevel.value >= 3
    ensures GetLessonForUser(Ok(Some(user))) == LessonOne(user.currentLessonLevel.value)
  {
  }

  /** A lookup failure gives the error object, and only a failure does. */
  lemma LookupFailureIsError(e: string)
    ensures GetLessonForUser(Err(e)) == ErrorSelection
  {
  }
}
