/**
 * The scripted English placement conversation
 * (react-dashboard/backend/routes/ai-conversation.js): keyword patterns
 * judge each answer, the context moves introduction -> work -> hobbies ->
 * complete, and the three feedback messages give a CEFR level.
 */
module AiConversation {
  import opened Wrappers
  import opened JsText

  /** The part of `s` between `from` and `to` contains no line terminator (what `.*` may span). */
  predicate NoLineBreak(s: string, from: int, to: int)
    requires 0 <= from <= to <= |s|
  {
    forall k :: from <= k < to ==> !IsLineTerminator(s[k])
  }

  /**
   * The case-insensitive pattern `first.*second` matches: `first` occurs,
   * `second` occurs at or after its end, and no line break lies between.
   * `t` is the lower-cased text; the patterns are ASCII, so lower-casing
   * the text is the regular expression's case folding.
   */
  predicate MatchesSpan(t: string, first: string, second: string)
  {
    exists i, j :: 0 <= i && i + |first| <= j <= |t| && OccursAt(t, first, i) && OccursAt(t, second, j) && NoLineBreak(t, i + |first|, j)
  }

  /** An alternation of literal words: some word occurs in the lower-cased text. */
  predicate MatchesAny(t: string, words: seq<string>)
  {
    exists k :: 0 <= k < |words| && Contains(t, words[k])
  }

  /** `RegExp.prototype.test` converts a missing text to the string "undefined". */
  function TestedText(text: Option<string>): string
  {
    Lower(text.GetOr("undefined"))
  }

  predicate HasName(text: Option<string>)
  {
    MatchesSpan(TestedText(text), "name", "is") || MatchesSpan(TestedText(text), "i", "am")
  }

  predicate HasCountry(text: Option<string>)
  {
    MatchesAny(TestedText(text), ["from", "come", "live", "czech", "republic", "prague"])
  }

  predicate HasWorkWord(text: Option<string>)
  {
    MatchesAny(TestedText(text), ["work", "job", "study", "student", "teacher", "engineer", "manager", "company"])
  }

  predicate HasHobbyWord(text: Option<string>)
  {
    MatchesAny(TestedText(text), ["like", "love", "enjoy", "hobby", "play", "read", "music", "sport", "travel"])
  }

  /** The messages of the conversation; `MessageText` gives their wording. */
  datatype Message =
    | IntroClear | IntroNameOnly | IntroTrying
    | WorkDetailed | WorkTopicOnly | WorkMissing
    | HobbiesClear | HobbiesNice | HobbiesThanks
    | AskWork | AskHobbies | AssessmentDone
    | GenericThanks | NextTopic | FallbackAck | FallbackAsk

  /** The words `generateAssessment` looks for; each opens the top message of its part. */
  const IntroMarker := "Excellent"
  const WorkMarker := "Very good"
  const HobbiesMarker := "Fantastic"

  function MessageText(m: Message): string
  {
    match m
    case IntroClear => IntroMarker + "! Your introduction was clear and well-structured."
    case IntroNameOnly => "Good start with your name. Try to also mention where you're from."
    case IntroTrying => "I can see you're trying. Let's practice more introductions."
    case WorkDetailed => WorkMarker + "! You provided good details about your work."
    case WorkTopicOnly => "Good topic choice. Try to add more details next time."
    case WorkMissing => "I understand. Try to mention what you do for work or study."
    case HobbiesClear => HobbiesMarker + "! You expressed your interests very clearly."
    case HobbiesNice => "Nice! Your hobbies are interesting."
    case HobbiesThanks => "Thank you for sharing. Keep practicing expressing your interests."
    case AskWork => "Great! Now tell me about your work or studies in English."
    case AskHobbies => "Perfect! What are your hobbies or what do you like to do in your free time?"
    case AssessmentDone => "Thank you! That completes our assessment. Based on your answers, I'll now provide feedback."
    case GenericThanks => "Thank you for your response."
    case NextTopic => "Let's continue with the next topic."
    case FallbackAck => "I understand. Let's continue."
    case FallbackAsk => "Can you tell me more?"
  }

  /** `analyzeIntroduction`. */
  function AnalyzeIntroduction(text: Option<string>): Message
  {
    if HasName(text) && HasCountry(text) then IntroClear
    else if HasName(text) then IntroNameOnly
    else IntroTrying
  }

  /** `analyzeWork`; `None` when `text.split` throws on a missing text. */
  function AnalyzeWork(text: Option<string>): Option<Message>
  {
    if text.None? then None
    else if HasWorkWord(text) && |SplitOn(text.value, ' ')| > 5 then Some(WorkDetailed)
    else if HasWorkWord(text) then Some(WorkTopicOnly)
    else Some(WorkMissing)
  }

  /** `analyzeHobbies`; `None` when `text.split` throws on a missing text. */
  function AnalyzeHobbies(text: Option<string>): Option<Message>
  {
    if text.None? then None
    else if HasHobbyWord(text) && |SplitOn(text.value, ' ')| > 8 then Some(HobbiesClear)
    else if HasHobbyWord(text) then Some(HobbiesNice)
    else Some(HobbiesThanks)
  }

  /** The `questionType` that names the next step of the conversation. */
  datatype QuestionType = Work | Hobbies | Complete | General | Fallback

  function QuestionTypeName(t: QuestionType): string
  {
    match t
    case Work => "work"
    case Hobbies => "hobbies"
    case Complete => "complete"
    case General => "general"
    case Fallback => "fallback"
  }

  datatype Reply = Reply(feedback: Message, nextQuestion: Message, questionType: QuestionType)

  /** The reply of the `catch` block. */
  const FallbackReply := Reply(FallbackAck, FallbackAsk, Fallback)

  /** The conversation contexts the manager distinguishes. */
  datatype Context = Introduction | WorkContext | HobbiesContext | OtherContext

  function ContextOf(context: string): Context
  {
    if context == "introduction" then Introduction
    else if context == "work" then WorkContext
    else if context == "hobbies" then HobbiesContext
    else OtherContext
  }

  /** `ConversationManager.processUserResponse`. */
  function ProcessUserResponse(text: Option<string>, context: string): Reply
  {
    match ContextOf(context)
    case Introduction => Reply(AnalyzeIntroduction(text), AskWork, Work)
    case WorkContext =>
      (match AnalyzeWork(text)
       case None => FallbackReply
       case Some(f) => Reply(f, AskHobbies, Hobbies))
    case HobbiesContext =>
      (match AnalyzeHobbies(text)
       case None => FallbackReply
       case Some(f) => Reply(f, AssessmentDone, Complete))
    case OtherContext => Reply(GenericThanks, NextTopic, General)
  }

  /** Each introduction verdict and exactly the pattern results that select it. */
  lemma IntroductionVerdicts(text: Option<string>)
    ensures AnalyzeIntroduction(text) == IntroClear <==> HasName(text) && HasCountry(text)
    ensures AnalyzeIntroduction(text) == IntroNameOnly <==> HasName(text) && !HasCountry(text)
    ensures AnalyzeIntroduction(text) == IntroTrying <==> !HasName(text)
  {
  }

  /** The context order: each known context names its successor; anything else is 'general'. */
  lemma ContextOrder(text: string, context: string)
    ensures context == "introduction" ==> ProcessUserResponse(Some(text), context).questionType == Work
    ensures context == "work" ==> ProcessUserResponse(Some(text), context).questionType == Hobbies
    ensures context == "hobbies" ==> ProcessUserResponse(Some(text), context).questionType == Complete
    ensures context != "introduction" && context != "work" && context != "hobbies" ==> ProcessUserResponse(Some(text), context).questionType == General
  {
  }

  /** A missing text still gets an introduction verdict, but fails over to the fallback reply for work and hobbies. */
  lemma MissingTextFallsBack(context: string)
    ensures context == "work" || context == "hobbies" ==> ProcessUserResponse(None, context) == FallbackReply
    ensures context == "introduction" ==> ProcessUserResponse(None, context) == Reply(IntroTrying, AskWork, Work)
  {
    assert !HasName(None) by {
      NoNameInUndefined();
    }
  }

  /** The string "undefined" matches neither `name.*is` nor `i.*am`. */
  lemma NoNameInUndefined()
    ensures !HasName(None)
  {
    var t := TestedText(None);
    assert t == "undefined";
    assert forall k :: 0 <= k < |t| ==> t[k] != 'a';
    forall i, j | 0 <= i && i + 4 <= j <= |t|
      ensures !(OccursAt(t, "name", i) && OccursAt(t, "is", j))
    {
      OccursAtChar(t, "name", i, 1);
    }
    forall i, j | 0 <= i && i + 1 <= j <= |t|
      ensures !(OccursAt(t, "i", i) && OccursAt(t, "am", j))
    {
      OccursAtChar(t, "am", j, 0);
    }
  }

  /** An occurrence fixes the characters it covers. */
  lemma OccursAtChar(s: string, sub: string, i: nat, k: nat)
    requires k < |sub|
    ensures OccursAt(s, sub, i) ==> s[i + k] == sub[k]
  {
    if OccursAt(s, sub, i) {
      assert s[i..i + |sub|][k] == sub[k];
    }
  }

  /** The top work message needs a work keyword and more than five space-separated words. */
  lemma WorkTopMessage(text: string)
    ensures AnalyzeWork(Some(text)) == Some(WorkDetailed) <==> HasWorkWord(Some(text)) && |SplitOn(text, ' ')| > 5
  {
  }

  /** The top hobby message needs a hobby keyword and more than eight space-separated words. */
  lemma HobbyTopMessage(text: string)
    ensures AnalyzeHobbies(Some(text)) == Some(HobbiesClear) <==> HasHobbyWord(Some(text)) && |SplitOn(text, ' ')| > 8
  {
  }

  /** The stored feedback of each part; a missing or empty entry is falsy. */
  datatype Responses = Responses(introduction: Option<string>, work: Option<string>, hobbies: Option<string>)

  /** How `generateAssessment` rates one stored feedback. */
  datatype Rating = Missing | Plain | Top

  /** Top for a present response containing its marker, Plain for another present one. */
  function RatingOf(response: Option<string>, marker: string): (r: Rating)
    ensures r != Missing <==> response.Some? && response.value != ""
  {
    if response.None? || response.value == "" then Missing else if Contains(response.value, marker) then Top else Plain
  }

  function Points(r: Rating): nat
  {
    match r
    case Missing => 0
    case Plain => 2
    case Top => 3
  }

  /** The three ratings, with the markers 'Excellent', 'Very good' and 'Fantastic'. */
  function Ratings(r: Responses): (Rating, Rating, Rating)
  {
    (RatingOf(r.introduction, IntroMarker), RatingOf(r.work, WorkMarker), RatingOf(r.hobbies, HobbiesMarker))
  }

  function AssessmentScore(r: Responses): (score: nat)
    ensures score <= 9
  {
    Points(Ratings(r).0) + Points(Ratings(r).1) + Points(Ratings(r).2)
  }

  datatype Level = A1 | A2 | B1

  datatype Assessment = Assessment(level: Level, feedback: string, recommendation: string)

  /** The level from the score: 8 or more is B1, 6 or 7 is A2, less is A1. */
  function LevelFor(score: nat): Level
  {
    if score >= 8 then B1 else if score >= 6 then A2 else A1
  }

  /** The feedback and the recommendation that go with each level. */
  function AssessmentText(level: Level): (string, string)
  {
    match level
    case B1 =>
      ("Excellent work! Your English is at intermediate level. You can express yourself clearly.",
       "Continue with Level 2 lessons focusing on complex conversations.")
    case A2 =>
      ("Good progress! Your English is at elementary level with room for improvement.",
       "Start with Level 1 lessons focusing on basic conversations.")
    case A1 =>
      ("Keep practicing! We'll start with beginner-friendly lessons.",
       "Begin with Level 1 lessons focusing on simple phrases and vocabulary.")
  }

  /** `generateAssessment`. */
  function GenerateAssessment(r: Responses): Assessment
  {
    var level := LevelFor(AssessmentScore(r));
    Assessment(level, AssessmentText(level).0, AssessmentText(level).1)
  }

  /** B1 exactly when no part is missing and at least two are top-rated. */
  predicate B1Ratings(a: Rating, b: Rating, c: Rating)
  {
    a != Missing && b != Missing && c != Missing && ((a == Top && b == Top) || (a == Top && c == Top) || (b == Top && c == Top))
  }

  /** The points of three ratings reach 8 exactly for a B1 rating, and 6 whenever no part is missing. */
  lemma PointsOfRatings(a: Rating, b: Rating, c: Rating)
    ensures Points(a) + Points(b) + Points(c) >= 8 <==> B1Ratings(a, b, c)
    ensures a != Missing && b != Missing && c != Missing ==> Points(a) + Points(b) + Points(c) >= 6
  {
  }

  /**
   * B1 needs all three parts present and at least two of them top-rated;
   * three present parts always reach A2 or better.
   */
  lemma AssessmentLevels(r: Responses, a: Rating, b: Rating, c: Rating)
    requires (a, b, c) == Ratings(r)
    ensures GenerateAssessment(r).level == B1 <==> B1Ratings(a, b, c)
    ensures a != Missing && b != Missing && c != Missing ==> GenerateAssessment(r).level != A1
  {
    var n := AssessmentScore(r);
    ScoreOfRatings(r, a, b, c);
    LevelOfScore(r, n);
    LevelThresholds(n);
    PointsOfRatings(a, b, c);
  }

  /** Without any stored feedback the level is A1. */
  lemma NoResponsesGiveA1()
    ensures GenerateAssessment(Responses(None, None, None)).level == A1
  {
    assert AssessmentScore(Responses(None, None, None)) == 0;
  }

  /** The score is the sum of the points of the three ratings. */
  lemma ScoreOfRatings(r: Responses, a: Rating, b: Rating, c: Rating)
    requires (a, b, c) == Ratings(r)
    ensures AssessmentScore(r) == Points(a) + Points(b) + Points(c)
  {
  }

  /** The assessment's level is the level of its score. */
  lemma LevelOfScore(r: Responses, n: nat)
    requires n == AssessmentScore(r)
    ensures GenerateAssessment(r).level == LevelFor(n)
  {
  }

  /** The level thresholds: 8 points for B1, fewer than 6 for A1. */
  lemma LevelThresholds(n: nat)
    ensures LevelFor(n) == B1 <==> n >= 8
    ensures LevelFor(n) == A1 <==> n < 6
  {
  }

  /** Each top message of the conversation carries the marker its assessment looks for. */
  lemma TopMessagesCarryMarkers()
    ensures Contains(MessageText(IntroClear), IntroMarker)
    ensures Contains(MessageText(WorkDetailed), WorkMarker)
    ensures Contains(MessageText(HobbiesClear), HobbiesMarker)
  {
    PrefixContained(IntroMarker, "! Your introduction was clear and well-structured.");
    PrefixContained(WorkMarker, "! You provided good details about your work.");
    PrefixContained(HobbiesMarker, "! You expressed your interests very clearly.");
  }

  lemma PrefixContained(a: string, b: string)
    ensures Contains(a + b, a)
  {
    assert OccursAt(a + b, a, 0);
  }

  /** The stored top messages rate Top in every part. */
  lemma TopMessagesRateTop()
    ensures Ratings(Responses(Some(MessageText(IntroClear)), Some(MessageText(WorkDetailed)), Some(MessageText(HobbiesClear)))) == (Top, Top, Top)
  {
    TopMessagesCarryMarkers();
  }

  /** The feedback replies of a conversation whose three answers all earn the top message are assessed B1. */
  lemma TopConversationIsB1(intro: string, work: string, hobbies: string)
    requires AnalyzeIntroduction(Some(intro)) == IntroClear
    requires AnalyzeWork(Some(work)) == Some(WorkDetailed)
    requires AnalyzeHobbies(Some(hobbies)) == Some(HobbiesClear)
    ensures GenerateAssessment(Responses(
              Some(MessageText(ProcessUserResponse(Some(intro), "introduction").feedback)),
              Some(MessageText(ProcessUserResponse(Some(work), "work").feedback)),
              Some(MessageText(ProcessUserResponse(Some(hobbies), "hobbies").feedback)))).level == B1
  {
    assert ProcessUserResponse(Some(intro), "introduction").feedback == IntroClear;
    assert ProcessUserResponse(Some(work), "work").feedback == WorkDetailed;
    assert ProcessUserResponse(Some(hobbies), "hobbies").feedback == HobbiesClear;
    var r := Responses(Some(MessageText(IntroClear)), Some(MessageText(WorkDetailed)), Some(MessageText(HobbiesClear)));
    TopMessagesRateTop();
    AssessmentLevels(r, Top, Top, Top);
  }
}
