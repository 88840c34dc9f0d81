# A verified model of the innovate-begin learning platform core

innovate-begin is a language-training platform. Companies upload training
material. A language model turns it into lessons and test questions. Learners
take placement tests and answer lessons by phone, and administrators manage
users, roles and results through a dashboard.

This project models the deterministic logic of that platform in Dafny, one
module per source file:

- **Review scheduling and attempt scoring** (`Models`): the review interval of a
  scored attempt, the mean answer score, and the rotation to the next question.
- **The voice test session** (`VoiceNavigation`): a class whose methods update
  the per-call state in place. Each method is proved to agree with a pure step
  function, and the invariants of the session (score at most the index, one
  answer record per answered question, completion exactly at the end) are
  proved over that function. The module also holds the answer matcher, the
  command parser and the feedback buckets.
- **Heuristic scorers and classifiers**: the answer evaluator (`AiEvaluator`),
  the scripted placement conversation (`AiConversation`), the length-based
  placement estimate (`AiProxy`), the starting-lesson choice and the guards of
  the Python AI services (`AiServices`), lesson choice by level
  (`LessonSelector`) and question lists for uploaded content (`ContentLoader`).
- **Text processing**: the question normaliser (`AiQuestionGenerator`), the
  lesson parser and keyword ranking (`AiLessonGenerator`, with the two heading
  patterns matched over the whole text in `LessonMarkdown`), the PDF checks, text
  cleaner and section splitter (`PdfExtractor`), and the phrase tables and
  language detection (`LanguageTranslator`).
- **Aggregation and export**: grouping test responses into sessions, with
  averages, feedback and a CSV export with a proved read-back (`TestResults`),
  and per-user averages (`Analytics`).
- **Access control and the user table**: the role tables (`Permissions`,
  `Rbac`), session helpers (`Auth`), and the two form validators
  (`AuthForms`). The user table is a class holding a map from id to row
  (`UserStore`). The user routes (`UsersRoutes`, `UsersManagement`) create,
  update and delete rows on it under their guards. The last-admin rule is
  proved as an invariant of every route that enforces it.

Shared pieces live in `Wrappers` (Option and Result), `JsText` (the JavaScript
and Python string primitives used: white-space classes, trim, split,
case mapping, `Math.round`, `Math.ceil`) and `Collections`.

Conventions:
- Strings are sequences of characters.
- Regular expressions are explicit character-class predicates.
- Clock readings, random suffixes, bcrypt hashes, the verdict of the email
  validator library, token decoding and the language model's parsed replies are
  parameters.
- Database queries are sequences or maps given in the order the query's
  `ORDER BY` produces.

## Model

| member | source | states |
|---|---|---|
| Models.ReviewIntervalBrackets | app/models.py:360-368 | the review interval is 1 day exactly for a missing score, 3 exactly below 80, 7 exactly for 80 up to (not including) 90, 30 exactly from 90 upwards |
| Models.ReviewIntervalMonotone | app/models.py:363-368 | for scored attempts the interval never shrinks as the score grows and is one of 3, 7 or 30 days |
| Models.Attempt.CalculateNextDue | app/models.py:360-368 | `next_due` becomes `now` plus the bracket's interval in seconds; score and answers are unchanged |
| Models.MeanBetween | app/models.py:373-374 | the mean of a non-empty score list lies between any lower and upper bound of its elements |
| Models.SumBounds | app/models.py:373 | the sum of n scores each in lo..hi lies in n·lo..n·hi |
| Models.Attempt.OverallScore | app/models.py:370-374 | 0.0 without answers; otherwise the mean answer score, within every bound of the answer scores |
| Models.FirstIndexOf | app/models.py:265-269 | the index found holds `current` and no earlier question does; no index means no question holds it |
| Models.FirstMatchIsFound | app/models.py:265-269 | the first matching question is the one the scan finds |
| Models.NextQuestionIsSuccessor | app/models.py:262-277 | with a match at k, the result is question k+1, or question 0 when k is the last |
| Models.NextQuestionWrapsWhenUnmatched | app/models.py:270-271 | an unmatched or null `current` selects the first question |
| Models.NextQuestionEdgeCases | app/models.py:262-269 | a missing or empty list gives no question; a non-empty list with no `current` key raises |
| Models.Attempt.constructor | app/models.py:345-358 | a new attempt holds the given score and answer scores and no review date yet |
| VoiceNavigation.CommandIndex | react-dashboard/backend/routes/voice-navigation.js:106-113 | the index found is the first command key, from the given position on, that occurs in the cleaned input; none found means no such key occurs |
| VoiceNavigation.CheckNavigationCommand | react-dashboard/backend/routes/voice-navigation.js:103-114 | no action exactly when no key of the command table occurs in the trimmed lower-cased input; otherwise the action of the first key in table order that occurs (the command table is at lines 5-18) |
| VoiceNavigation.TestFeedbackBuckets | react-dashboard/backend/routes/voice-navigation.js:406-416 | the four feedback buckets of a percentage: at least 90, 70 up to 90, 50 up to 70, below 50, each exactly |
| VoiceNavigation.EmptyTestGetsLowestFeedback | react-dashboard/backend/routes/voice-navigation.js:406-416 | a test with no questions ends in the lowest bucket, because 0/0 is NaN and every comparison with NaN fails (the question count is taken at lines 196-197) |
| VoiceNavigation.CheckTestAnswer | react-dashboard/backend/routes/voice-navigation.js:522-582 | a TypeError exactly when the question has no options array and a truthy correct index; otherwise the nested matching loop returns exactly the verdict of the answer rule `AnswerAccepted` |
| VoiceNavigation.CountMatches | react-dashboard/backend/routes/voice-navigation.js:561-572 | the loop counts exactly the word pairs where either word contains the other |
| VoiceNavigation.IndexZeroNeverAccepted | react-dashboard/backend/routes/voice-navigation.js:523 | a question whose correct option is at index 0 never accepts any answer |
| VoiceNavigation.BlankCleansToEmpty | react-dashboard/backend/routes/voice-navigation.js:525 | a blank input is the empty text once lower-cased and trimmed |
| VoiceNavigation.PairHitsOfEmpty | react-dashboard/backend/routes/voice-navigation.js:566-572 | the empty word is contained in every option word, so it hits each of them |
| VoiceNavigation.BlankAnswerAccepted | react-dashboard/backend/routes/voice-navigation.js:522-578 | a blank answer is accepted for every question with a usable correct option |
| VoiceNavigation.OptionTextAccepted | react-dashboard/backend/routes/voice-navigation.js:535-538 | saying the correct option's own text is accepted |
| VoiceNavigation.CorrectCountBound | react-dashboard/backend/routes/voice-navigation.js:468-477 | the number of answers judged correct never exceeds the number of answers |
| VoiceNavigation.InitialState | react-dashboard/backend/routes/voice-navigation.js:34-55 | the new state (lesson playing, index 0, no answers, score 0, language defaulting to 'cs') satisfies the call invariant |
| VoiceNavigation.Step | react-dashboard/backend/routes/voice-navigation.js:71-100 | every phase handler keeps the call invariant (score counts the correct answers, one answer per question passed, index within the question count) and never changes the lesson or the language; a rejected step changes nothing |
| VoiceNavigation.ScoreAtMostIndex | react-dashboard/backend/routes/voice-navigation.js:468-500 | in every reachable state the score is at most the question index |
| VoiceNavigation.LessonInputStartsTest | react-dashboard/backend/routes/voice-navigation.js:419-450 | any input while the lesson plays moves to TEST_ACTIVE with index 0, score 0, no answers and the lesson's question count; with no questions the outcome is session_complete |
| VoiceNavigation.AnswerAdvancesByOne | react-dashboard/backend/routes/voice-navigation.js:465-503 | one answer to a question with options returns an outcome, appends exactly one record with the input and the verdict, advances the index by one and adds one to the score exactly when the answer is accepted |
| VoiceNavigation.OptionlessQuestionRejects | react-dashboard/backend/routes/voice-navigation.js:465-484 | answering a question without an options array rejects with a TypeError (in the check at line 527 or in the record at line 479) and changes nothing, so the call stays on that question |
| VoiceNavigation.CompletionExactlyAtEnd | react-dashboard/backend/routes/voice-navigation.js:458-518 | during the test the phase becomes TEST_COMPLETED exactly when the index reaches the question count |
| VoiceNavigation.LateInputRecordsNothing | react-dashboard/backend/routes/voice-navigation.js:458-462 | input arriving when the index has reached the count completes the test and records nothing |
| VoiceNavigation.RepeatLessonResets | react-dashboard/backend/routes/voice-navigation.js:121-132 | `repeat_lesson` returns to LESSON_PLAYING with index 0, score 0 and no answers, keeping the lesson |
| VoiceNavigation.LessonSwitchKeepsState | react-dashboard/backend/routes/voice-navigation.js:248-354 | next and previous lesson leave the state unchanged; with a lesson id the lookup fails and gives the error outcome, without one the menu (the switch commands are at lines 134-138) |
| VoiceNavigation.Run | react-dashboard/backend/routes/voice-navigation.js:71-100 | any sequence of inputs keeps the call invariant |
| VoiceNavigation.AnsweringAllCompletes | react-dashboard/backend/routes/voice-navigation.js:453-518 | answering the remaining questions, each with options, one by one ends in TEST_COMPLETED with one record per question, earlier records kept |
| VoiceNavigation.WholeCallCompletes | react-dashboard/backend/routes/voice-navigation.js:419-518 | one input during the lesson and one per question, every question having options, end the call in TEST_COMPLETED with one answer per question and a score at most the question count (the lesson phase is at lines 34-55) |
| VoiceNavigation.CallState.constructor | react-dashboard/backend/routes/voice-navigation.js:34-55 | the state object `initializeState` builds, satisfying the call invariant |
| VoiceNavigation.CallState.HandleLessonPhase | react-dashboard/backend/routes/voice-navigation.js:419-450 | updates the object in place exactly as the lesson-phase step prescribes |
| VoiceNavigation.CallState.HandleLessonCompleted | react-dashboard/backend/routes/voice-navigation.js:155-182 | updates the object in place as the lesson-completed step prescribes: test started, score and answers kept |
| VoiceNavigation.CallState.HandleTestPhase | react-dashboard/backend/routes/voice-navigation.js:453-519 | updates the object in place exactly as the test-phase step prescribes, including the rejection that leaves the object unchanged |
| VoiceNavigation.CallState.LogAnswer | react-dashboard/backend/routes/voice-navigation.js:468-518 | for a question with options: bumps the score on a correct answer, pushes the record, advances the index, then asks the next question or completes the test |
| VoiceNavigation.CallState.HandleNavigation | react-dashboard/backend/routes/voice-navigation.js:117-152 | updates the object in place as the navigation step prescribes |
| VoiceNavigation.CallState.HandleNavigationMenu | react-dashboard/backend/routes/voice-navigation.js:232-245 | a recognised command is carried out; anything else repeats the menu |
| VoiceNavigation.CallState.Respond | react-dashboard/backend/routes/voice-navigation.js:80-100 | dispatches on the phase and keeps the call invariant |
| VoiceNavigation.VoiceNavigationManager.constructor | react-dashboard/backend/routes/voice-navigation.js:31 | the manager starts with no call states |
| VoiceNavigation.VoiceNavigationManager.InitializeState | react-dashboard/backend/routes/voice-navigation.js:34-55 | a fresh state is stored under the call id, replacing any earlier one; the other calls' states are untouched |
| VoiceNavigation.VoiceNavigationManager.ProcessUserResponse | react-dashboard/backend/routes/voice-navigation.js:71-100 | an unknown call gets the error outcome and nothing changes; a known call takes exactly one step, which returns an outcome or rejects |
| AiEvaluator.Clamp | react-dashboard/backend/services/ai-evaluator.js:67 | `Math.min(100, Math.max(0, x))` lies in 0..100 and leaves values already there unchanged (the same clamp is at line 99) |
| AiEvaluator.CompletionPercentage | react-dashboard/backend/services/ai-evaluator.js:40-68 | the completion score lies in 0..100 and is 0 for a response whose trimmed length is below 10 |
| AiEvaluator.ShortResponseCompletionCap | react-dashboard/backend/services/ai-evaluator.js:47-65 | a response of at most 50 characters earns no length bonus, so it scores at most 60 (relevance at most 40, sentences at most 20) |
| AiEvaluator.CompletionIsLengthOnlyWithoutRelevance | react-dashboard/backend/services/ai-evaluator.js:47-65 | with no matched relevant word and at most one sentence the score is exactly the +30/+20/+10 length bonus for lengths above 50, 100 and 200 |
| AiEvaluator.UnknownTypeAddsNothing | react-dashboard/backend/services/ai-evaluator.js:119-143 | an unknown training type adds no type words to the question words longer than 3 characters, and has no vocabulary |
| AiEvaluator.QualityScore | react-dashboard/backend/services/ai-evaluator.js:71-100 | the quality score lies in 0..100 and is 0 for an empty response |
| AiEvaluator.LetterAEarnsConnectiveBonus | react-dashboard/backend/services/ai-evaluator.js:95-97 | any response containing the letter 'a' earns the +20 connective bonus, because 'a' is in the connective list |
| AiEvaluator.UnknownTypeQualityCap | react-dashboard/backend/services/ai-evaluator.js:83-87 | with an unknown training type the vocabulary bonus is 0, so quality is at most 70 (the quality sum is at line 142) |
| AiEvaluator.FeedbackRegions | react-dashboard/backend/services/ai-evaluator.js:103-116 | each of the four messages is chosen exactly in its score region: both at least 80; both at least 60; completion at least 40; the rest |
| AiEvaluator.ShortResponseGetsLastMessage | react-dashboard/backend/services/ai-evaluator.js:103-116 | a response whose trimmed length is below 10 always gets the last message (the trimmed length is taken at line 41) |
| AiEvaluator.EvaluateResponse | react-dashboard/backend/services/ai-evaluator.js:5-37 | as written, every evaluation is the default one: scores 0 and 0, never complete (the default evaluation is at lines 146-158) |
| AiEvaluator.EvaluationIgnoresScores | react-dashboard/backend/services/ai-evaluator.js:11-36 | even a response whose completion score reaches 70 is reported incomplete with completion 0 |
| AiEvaluator.IntendedEvaluation | react-dashboard/backend/services/ai-evaluator.js:11-23 | the intended evaluation carries both scores and is complete exactly when completion is at least 70 |
| AiEvaluator.IntendedCompleteNeedsLength | react-dashboard/backend/services/ai-evaluator.js:47-65 | under the intended rule only a response longer than 50 characters can be complete (the completion threshold is at line 23) |
| AiConversation.IntroductionVerdicts | react-dashboard/backend/routes/ai-conversation.js:48-59 | the clear message exactly with a name pattern and a country word, the name-only message exactly with a name and no country, the third exactly without a name |
| AiConversation.ContextOrder | react-dashboard/backend/routes/ai-conversation.js:12-36 | introduction is followed by work, work by hobbies, hobbies by complete; any other context gives 'general' |
| AiConversation.MissingTextFallsBack | react-dashboard/backend/routes/ai-conversation.js:38-45 | a missing text still gets an introduction verdict, but `split` throws for work and hobbies and the fallback reply is returned (the same fallback is at lines 12-17, 63 and 76) |
| AiConversation.NoNameInUndefined | react-dashboard/backend/routes/ai-conversation.js:49 | a missing answer is tested as the text "undefined", which matches neither `name.*is` nor `i.*am` |
| AiConversation.WorkTopMessage | react-dashboard/backend/routes/ai-conversation.js:61-72 | the top work message exactly when a work keyword occurs and the text has more than 5 space-separated pieces |
| AiConversation.HobbyTopMessage | react-dashboard/backend/routes/ai-conversation.js:74-85 | the top hobby message exactly when a hobby keyword occurs and the text has more than 8 space-separated pieces |
| AiConversation.RatingOf | react-dashboard/backend/routes/ai-conversation.js:91-93 | a stored feedback earns points exactly when it is present and non-empty |
| AiConversation.AssessmentScore | react-dashboard/backend/routes/ai-conversation.js:90-93 | the assessment score is at most 9 |
| AiConversation.PointsOfRatings | react-dashboard/backend/routes/ai-conversation.js:91-101 | three ratings reach 8 points exactly when all are present and at least two are top; three present parts give at least 6 |
| AiConversation.AssessmentLevels | react-dashboard/backend/routes/ai-conversation.js:88-113 | the level is B1 exactly when all three parts are present and at least two carry their marker; three present parts never give A1 |
| AiConversation.NoResponsesGiveA1 | react-dashboard/backend/routes/ai-conversation.js:88-113 | with no stored feedback the level is A1 |
| AiConversation.ScoreOfRatings | react-dashboard/backend/routes/ai-conversation.js:90-93 | the score is the sum of 3 per top-rated, 2 per other present and 0 per missing part |
| AiConversation.LevelOfScore | react-dashboard/backend/routes/ai-conversation.js:95-113 | the level of the assessment is the level of its score |
| AiConversation.LevelThresholds | react-dashboard/backend/routes/ai-conversation.js:95-113 | B1 exactly from 8 points, A1 exactly below 6 |
| AiConversation.TopMessagesCarryMarkers | react-dashboard/backend/routes/ai-conversation.js:53-93 | each top message contains the marker its part is rated by |
| AiConversation.TopMessagesRateTop | react-dashboard/backend/routes/ai-conversation.js:91-93 | the three top messages, stored as feedback, are each rated top |
| AiConversation.TopConversationIsB1 | react-dashboard/backend/routes/ai-conversation.js:88-100 | a conversation whose three answers all earn the top message is assessed B1 (the ratings come from lines 7-30) |
| AiProxy.LevelRule | react-dashboard/backend/routes/ai-proxy.js:37-61 | A1 exactly below 50 characters, A2 exactly for 50 up to 150, B1 exactly for 150 up to 300 with at most 15 words per sentence, B2 otherwise; B1 with more than 15 words per sentence is promoted and no other level moves |
| AiProxy.ConfidenceRule | react-dashboard/backend/routes/ai-proxy.js:37-61 | confidence 0.6, 0.75, 0.85 or 0.9 by length bracket; a promoted B1 gets min(0.85 + 0.1, 0.95) = 0.95 |
| AiProxy.AnalysisUsesPlacement | react-dashboard/backend/routes/ai-proxy.js:33-61 | the route's level and confidence are those of the text length and the average words per sentence (0 without sentences) |
| AiProxy.MissingTextIsA1 | react-dashboard/backend/routes/ai-proxy.js:33-55 | a missing text is analysed as '': A1 with confidence 0.6, no words, no sentences, average 0 |
| AiProxy.FocusAndListsRule | react-dashboard/backend/routes/ai-proxy.js:68-81 | the focus depends only on the final level; the third strength exactly above 200 characters and the first weakness exactly below 100 |
| AiProxy.AverageRounding | react-dashboard/backend/routes/ai-proxy.js:85 | the reported average is within 0.05 of the true average (rounded to one decimal) |
| AiServices.FirstMissing | app/ai_services.py:100-104 | none exactly when every required field is present; otherwise the first field, in checking order, that the analysis lacks |
| AiServices.AnalyzePlacementText | app/ai_services.py:41-113 | text whose stripped form is under 50 characters is refused as too short; an accepted analysis comes only from a long enough text and is what the model parsed |
| AiServices.AcceptedAnalysisHasRequiredFields | app/ai_services.py:100-106 | for a long enough text and a parsable reply, the analysis is accepted exactly when it holds level, confidence, strengths, weaknesses and recommended_focus |
| AiServices.MissingLevelIsReportedFirst | app/ai_services.py:101-104 | a reply without `level` is refused naming `level`, the first field checked |
| AiServices.ShortTextIgnoresModel | app/ai_services.py:53-54 | a too-short text is refused with the same error whatever the model would answer |
| AiServices.FirstQualifying | app/ai_services.py:141-144 | none exactly when no lesson of the course is at or after the start number; otherwise a qualifying lesson with the smallest lesson number |
| AiServices.StartLessonTable | app/ai_services.py:129-138 | A1, A2, B1, B2, C1, C2 map to lessons 1, 3, 6, 10, 15, 20, and any other level to 1 |
| AiServices.StartLessonMonotone | app/ai_services.py:129-136 | a higher CEFR level starts strictly later in the course |
| AiServices.StartingLessonIsFirstQualifying | app/ai_services.py:115-146 | the chosen id belongs to a qualifying lesson of the course no other qualifying lesson precedes by number; none exactly when the course has no qualifying lesson |
| AiServices.OtherCoursesIgnored | app/ai_services.py:141-143 | adding a lesson of another course never changes the starting lesson |
| AiServices.OtherCoursesIgnoredRows | app/ai_services.py:141-144 | the first qualifying row is unchanged by a row of another course |
| AiServices.ProcessContentToCourse | app/ai_services.py:170-254 | missing or empty raw content is refused; an accepted course always holds a non-empty lesson list |
| AiServices.OnlyFirst8000CharactersMatter | app/ai_services.py:186 | two sources agreeing on their first 8000 characters produce the same course |
| AiServices.CourseWithLessonsAccepted | app/ai_services.py:236-247 | a parsable reply with at least one lesson is returned unchanged |
| AiServices.LastTen | app/ai_services.py:497 | the result is a suffix of the attempts of length min(10, count) |
| AiServices.LastTenSlides | app/ai_services.py:497 | appending an attempt to a window of ten drops the oldest attempt and keeps the rest |
| AiServices.AnalyzeUserProgress | app/ai_services.py:465-553 | succeeds exactly when the model's reply on the progress and the last ten attempts parses; a failure is the parse error |
| LessonSelector.GetLessonForUser | react-dashboard/backend/routes/lesson-selector.js:4-81 | the result is the error object exactly when the user lookup fails; every other result carries three questions |
| LessonSelector.UnknownPhoneGetsPlacement | react-dashboard/backend/routes/lesson-selector.js:13-25 | an unknown phone number gets the placement test without a user id |
| LessonSelector.NoLevelGetsPersonalPlacement | react-dashboard/backend/routes/lesson-selector.js:30-42 | a caller with no or a zero level gets a placement test carrying their id and a title naming them |
| LessonSelector.SelectionRule | react-dashboard/backend/routes/lesson-selector.js:30-72 | placement exactly for no or zero level; lesson 2 exactly at level 2; lesson 1 exactly for every other stored level, including 3 and above and negative ones |
| LessonSelector.HighLevelFallsBackToLessonOne | react-dashboard/backend/routes/lesson-selector.js:45-72 | a level of 3 or more gets lesson 1, whose message still names the stored level |
| LessonSelector.LookupFailureIsError | react-dashboard/backend/routes/lesson-selector.js:74-80 | a failed lookup gives the error object |
| ContentLoader.FirstReady | react-dashboard/backend/routes/content-loader.js:17-20 | none exactly when no source is ready; otherwise the first ready source, with no ready source before it |
| ContentLoader.GenerateQuestionsForContent | react-dashboard/backend/routes/content-loader.js:48-71 | four questions: the first names the material's title, the last is the one for the training type |
| ContentLoader.DefaultQuestions | react-dashboard/backend/routes/content-loader.js:74-104 | every training type gets exactly three fallback questions |
| ContentLoader.UnknownTypeGetsBasicDefaults | react-dashboard/backend/routes/content-loader.js:103 | a type outside the table gets english_basic's questions |
| ContentLoader.LoadContentForTraining | react-dashboard/backend/routes/content-loader.js:4-45 | content is found exactly when the request succeeds with a source list holding a ready source; then the first ready source's title, id and word count (0 when missing) and its four questions; otherwise the defaults of the type |
| ContentLoader.ReadySourceIsFirst | react-dashboard/backend/routes/content-loader.js:17-20 | the first ready source is chosen even when later sources are ready too |
| AiQuestionGenerator.WithCommonFields | react-dashboard/backend/services/ai-question-generator.js:222-231 | every question is marked generated, gets the language, an id and a time stamp, and keeps a truthy difficulty or gets `medium` |
| AiQuestionGenerator.Enhanced | react-dashboard/backend/services/ai-question-generator.js:222-266 | the repaired question is marked generated in the request's language and keeps its type |
| AiQuestionGenerator.ValidateAndEnhanceQuestion | react-dashboard/backend/services/ai-question-generator.js:222-266 | the spread copy, updated in place, equals the repaired question for the id built from the clock and the random suffix |
| AiQuestionGenerator.EnhanceKeepsOriginalFields | react-dashboard/backend/services/ai-question-generator.js:224-231 | type, text, explanation and every unknown key survive; the common fields are set |
| AiQuestionGenerator.MultipleChoiceRepair | react-dashboard/backend/services/ai-question-generator.js:235-243 | a multiple-choice question ends with at least two options (its own when it had two or more, else the four placeholders) and a correct answer that is its own when truthy, else the first option; other lists are untouched |
| AiQuestionGenerator.ListDefaults | react-dashboard/backend/services/ai-question-generator.js:244-255 | free-text questions get an empty key-word list and fill-in-blank questions an empty alternatives list, only where theirs is missing |
| AiQuestionGenerator.MatchingRepair | react-dashboard/backend/services/ai-question-generator.js:256-264 | a matching question ends with at least two pairs, keeping its own when it had two or more |
| AiQuestionGenerator.UnknownTypeGetsCommonFieldsOnly | react-dashboard/backend/services/ai-question-generator.js:222-266 | a question of no known type gets only the common fields |
| AiQuestionGenerator.EnhanceIdempotent | react-dashboard/backend/services/ai-question-generator.js:222-266 | repairing a repaired question changes only its id and time stamp |
| AiQuestionGenerator.PromptLanguageOf | react-dashboard/backend/services/ai-question-generator.js:115-169 | the English system prompt exactly for `en`, the Czech one for every other code |
| AiQuestionGenerator.TypeDescriptions | react-dashboard/backend/services/ai-question-generator.js:175-191 | each table describes exactly the four question types |
| AiQuestionGenerator.UnknownLanguageUsesCzech | react-dashboard/backend/services/ai-question-generator.js:169-191 | every code other than `en` gets the Czech descriptions and system prompt |
| AiQuestionGenerator.SelectedTypes | react-dashboard/backend/services/ai-question-generator.js:87 | the requested types when there are any, else all four types |
| AiQuestionGenerator.PromptTypeLines | react-dashboard/backend/services/ai-question-generator.js:97 | one type line per selected type |
| AiQuestionGenerator.NoRequestListsAllTypes | react-dashboard/backend/services/ai-question-generator.js:87-97 | without a request the prompt lists the four types, each with its description, in table order |
| AiQuestionGenerator.RequestedTypesListedInOrder | react-dashboard/backend/services/ai-question-generator.js:87-97 | requested types are listed as given, in order, duplicates included |
| AiQuestionGenerator.FallbackQuestions | react-dashboard/backend/services/ai-question-generator.js:272-289 | one generated multiple-choice question with the four placeholder options, the first of them correct, in the request's language |
| AiQuestionGenerator.FallbackIsRepaired | react-dashboard/backend/services/ai-question-generator.js:222-289 | repairing the fallback question changes only its id and time stamp |
| AiQuestionGenerator.ParseAIResponse | react-dashboard/backend/services/ai-question-generator.js:197-217 | an unparsable reply gives the fallback; a parsed array gives as many questions, each repaired, generated, in the language and of the type it had |
| AiQuestionGenerator.GenerateQuestions | react-dashboard/backend/services/ai-question-generator.js:32-66 | without a client the fallback question; with a parsed reply, one repaired question per question of the reply, type kept |
| LessonMarkdown.BlankRunEnd | react-dashboard/backend/services/ai-lesson-generator.js:152 | the greedy `\s+` takes only white space, line terminators included, and stops at the first other character or at the end of the text |
| LessonMarkdown.LineEnd | react-dashboard/backend/services/ai-lesson-generator.js:152 | the greedy `.+` takes no line terminator and stops at the first one or at the end of the text, where `$` holds |
| LessonMarkdown.LastOnLine | react-dashboard/backend/services/ai-lesson-generator.js:152 | the character `\s+` gives back so that `(.+)` can take it: the last one in the range that is not a line terminator, every later one being a terminator; none when all are terminators |
| LessonMarkdown.MatchAt | react-dashboard/backend/services/ai-lesson-generator.js:152 | a match at a position puts its group after the marker and at least one blank, and inside the text |
| LessonMarkdown.MatchAtIsSplit | react-dashboard/backend/services/ai-lesson-generator.js:152 | a match found is a valid way for `^<marker>\s+(.+)$` to match: the marker at a line start, white space only (possibly across line ends) up to the group, the group on one line, and a line end or the text end after it; no match found means no valid way exists |
| LessonMarkdown.MatchAtIsGreedy | react-dashboard/backend/services/ai-lesson-generator.js:152 | whenever the pattern can match at a position, a match is found there, and its group starts no earlier than in any other valid way: `\s+` is as long as backtracking allows |
| LessonMarkdown.Search | react-dashboard/backend/services/ai-lesson-generator.js:152 | the first position from the start where the pattern matches, with no match at any position before it; none exactly when it matches at no position up to the end |
| LessonMarkdown.FirstTitle | react-dashboard/backend/services/ai-lesson-generator.js:152-153 | none exactly when the title pattern matches at no position; otherwise the group of the match at the first position where it matches |
| LessonMarkdown.SectionMarkerIsNoTitle | react-dashboard/backend/services/ai-lesson-generator.js:152 | the title pattern never matches where `##` begins, since `#` is not white space |
| LessonMarkdown.SectionMatches | react-dashboard/backend/services/ai-lesson-generator.js:157 | every element is a match of the section pattern: its position, the start of its group and its end |
| LessonMarkdown.SectionMatchesScan | react-dashboard/backend/services/ai-lesson-generator.js:157 | the list is the global scan: each match is the first from where the previous one ended (the first from the start), and no match starts after the last |
| LessonMarkdown.ScanIsUnique | react-dashboard/backend/services/ai-lesson-generator.js:157 | any list that is such a scan is the list of matches |
| LessonMarkdown.ScansAgree | react-dashboard/backend/services/ai-lesson-generator.js:157 | two scans from the same position are the same list |
| LessonMarkdown.SearchFindsFirst | react-dashboard/backend/services/ai-lesson-generator.js:157 | after a stretch without matches, the search finds the match that ends it, or nothing when the stretch reaches past the end |
| LessonMarkdown.SectionText | react-dashboard/backend/services/ai-lesson-generator.js:160-161 | the text `replace(/^##\s+/, '')` leaves of a matched heading: the group when it starts with a non-blank, and "" when the group is a blank (the marker is followed by white space only up to the end) |
| LessonMarkdown.SectionTexts | react-dashboard/backend/services/ai-lesson-generator.js:159-163 | one pushed text per match |
| LessonMarkdown.TitleAfterBlanks | react-dashboard/backend/services/ai-lesson-generator.js:152-153 | a title marker, white space that may include line ends, then a line starting with a non-blank: the title is that whole line |
| LessonMarkdown.SectionAfterBlanks | react-dashboard/backend/services/ai-lesson-generator.js:157-163 | a section marker, white space that may include line ends, then a line starting with a non-blank: the one section is that whole line |
| LessonMarkdown.TitleCrossesLineEnd | react-dashboard/backend/services/ai-lesson-generator.js:152-153 | "#\n" followed by "Intro" has the title "Intro" |
| LessonMarkdown.TitleTakesNextHeading | react-dashboard/backend/services/ai-lesson-generator.js:152-153 | "# \n" followed by "## Intro" has the title "## Intro" |
| LessonMarkdown.SectionCrossesLineEnd | react-dashboard/backend/services/ai-lesson-generator.js:157-163 | "##  \n" followed by "Text" has the one section "Text" |
| LessonMarkdown.BlankTitleAtEnd | react-dashboard/backend/services/ai-lesson-generator.js:152-153 | a title marker followed only by two or more blanks, the last not a line terminator, has that last blank as its title |
| LessonMarkdown.BlankSectionAtEnd | react-dashboard/backend/services/ai-lesson-generator.js:157-163 | a section marker followed only by two or more blanks, the last not a line terminator, gives one empty section |
| LessonMarkdown.LoneBlankNoTitle | react-dashboard/backend/services/ai-lesson-generator.js:152-153 | a title marker followed by a single blank has no title |
| LessonMarkdown.BlankHeadingsAtEnd | react-dashboard/backend/services/ai-lesson-generator.js:152-163 | "#" and two blanks gives the title " ", "##" and two blanks the section "", and "#" with one blank no title |
| LessonMarkdown.PlainReplyKeepsTitle | react-dashboard/backend/services/ai-lesson-generator.js:152-163 | a reply with no `#` at the start of any line keeps the original title and has no sections |
| AiLessonGenerator.MinutesToRead | react-dashboard/backend/services/ai-lesson-generator.js:174 | the rounded-up number of thousands: 0 for no text, else the r with (r-1)*1000 < length <= r*1000 |
| AiLessonGenerator.ParseGeneratedLesson | react-dashboard/backend/services/ai-lesson-generator.js:149-176 | the group of the first title match or the original title; the texts pushed for the section matches in scan order ("" for a marker followed by blanks only), and their count; the content unchanged; the reading time from its length |
| AiLessonGenerator.LanguageOf | react-dashboard/backend/services/ai-lesson-generator.js:143 | every code but `en`, `de` and `sk` is treated as Czech (the same choice is at line 86) |
| AiLessonGenerator.UnknownLanguageIsCzech | react-dashboard/backend/services/ai-lesson-generator.js:135-143 | an unsupported code gets the Czech instruction and system prompt (the system prompt choice is at lines 79-86) |
| AiLessonGenerator.ExcerptRule | react-dashboard/backend/services/ai-lesson-generator.js:95 | content of at most 3000 characters is embedded whole; longer content is cut to 3000 characters and followed by the truncation marker |
| AiLessonGenerator.ExcerptIgnoresTail | react-dashboard/backend/services/ai-lesson-generator.js:95 | two long contents agreeing on their first 3000 characters give the same excerpt |
| AiLessonGenerator.BuildLessonPrompt | react-dashboard/backend/services/ai-lesson-generator.js:78-96 | the prompt carries the language's instruction, the title and the excerpt by the 3000-character rule |
| AiLessonGenerator.TemplateOf | react-dashboard/backend/services/ai-lesson-generator.js:197-210 | every code but `en` gets the Czech template |
| AiLessonGenerator.FallbackLesson | react-dashboard/backend/services/ai-lesson-generator.js:194-240 | four sections in the fixed order intro, content, key points, summary; the given title; reading time from the content's length |
| AiLessonGenerator.FallbackLanguages | react-dashboard/backend/services/ai-lesson-generator.js:197-210 | the third section is 'Key Points' exactly for `en`, else 'Klíčové body' (the language is passed at line 232) |
| AiLessonGenerator.GenerateLesson | react-dashboard/backend/services/ai-lesson-generator.js:22-73 | without a client or when the request fails, the fallback lesson; otherwise the parsed reply, content unchanged, sections as the section pattern finds them |
| AiLessonGenerator.Scrub | react-dashboard/backend/services/ai-lesson-generator.js:286 | replacing punctuation by spaces keeps the length |
| AiLessonGenerator.Words | react-dashboard/backend/services/ai-lesson-generator.js:285-288 | every candidate word is longer than 4 characters |
| AiLessonGenerator.FreqOfSnoc | react-dashboard/backend/services/ai-lesson-generator.js:291-293 | counting one more word increments exactly that word's entry |
| AiLessonGenerator.Insert | react-dashboard/backend/services/ai-lesson-generator.js:295-296 | inserting adds exactly the one element |
| AiLessonGenerator.InsertKeepsRanked | react-dashboard/backend/services/ai-lesson-generator.js:295-296 | insertion keeps a list ordered by non-increasing frequency |
| AiLessonGenerator.SortByFrequency | react-dashboard/backend/services/ai-lesson-generator.js:295-296 | the sorted keys are a permutation of the keys, ordered by non-increasing frequency |
| AiLessonGenerator.Take7 | react-dashboard/backend/services/ai-lesson-generator.js:297 | the first min(7, length) elements |
| AiLessonGenerator.ExtractKeyTopicsFallback | react-dashboard/backend/services/ai-lesson-generator.js:283-300 | the loop's result is the key topics of the content: the counted words in `Object.entries` order, stably sorted by decreasing count, the first seven |
| AiLessonGenerator.EntryOrder | react-dashboard/backend/services/ai-lesson-generator.js:295 | `Object.entries` lists exactly the counted keys, each once: a permutation of their insertion order |
| AiLessonGenerator.EntryOrderIndexFirst | react-dashboard/backend/services/ai-lesson-generator.js:295 | in entry order every array-index key (a canonical decimal below 2^32 - 1) precedes every other key, and the array-index keys ascend numerically |
| AiLessonGenerator.EntryOrderWithoutIndices | react-dashboard/backend/services/ai-lesson-generator.js:295 | with no array-index key, entry order is insertion order |
| AiLessonGenerator.EqualCountsKeepOrder | react-dashboard/backend/services/ai-lesson-generator.js:296 | the sort is stable: keys that all have the same count keep their entry order |
| AiLessonGenerator.TiedNumberComesFirst | react-dashboard/backend/services/ai-lesson-generator.js:283-300 | the words "hello world 12345" give the topics 12345, hello, world |
| AiLessonGenerator.CountWords | react-dashboard/backend/services/ai-lesson-generator.js:290-293 | the counting loop yields the distinct words in insertion order and each word's number of occurrences; `Object.entries` then reorders them (`EntryOrder`) |
| AiLessonGenerator.KeyTopicsShape | react-dashboard/backend/services/ai-lesson-generator.js:283-300 | at most seven topics, all different, each a word of the content longer than 4 characters |
| AiLessonGenerator.KeyTopicsRanked | react-dashboard/backend/services/ai-lesson-generator.js:295-297 | topics come in order of non-increasing frequency in the content |
| AiLessonGenerator.KeyTopicsComplete | react-dashboard/backend/services/ai-lesson-generator.js:295-297 | every word of the content is a topic, or there are seven topics and the seventh occurs at least as often |
| PdfExtractor.ValidatePdf | react-dashboard/backend/services/pdf-extractor.js:244-261 | valid exactly for a present buffer with the `%PDF` signature and at least 1024 bytes; an empty-buffer error exactly for a missing or empty buffer; too small only after the signature passed |
| PdfExtractor.SignatureCheckedFirst | react-dashboard/backend/services/pdf-extractor.js:249-257 | a short buffer with a wrong header is reported as an invalid signature |
| PdfExtractor.TrimEach | react-dashboard/backend/services/pdf-extractor.js:93 | one trimmed line per line, in order |
| PdfExtractor.CollapsedHasNoBreaks | react-dashboard/backend/services/pdf-extractor.js:81-95 | a collapsed string holds no line break, carriage return or form feed, and no two spaces in a row |
| PdfExtractor.CollapsedSlice | react-dashboard/backend/services/pdf-extractor.js:81-95 | any piece of a collapsed string is collapsed |
| PdfExtractor.CleanIsCollapseAndTrim | react-dashboard/backend/services/pdf-extractor.js:76-106 | the whole cleaning pipeline equals collapsing each white-space run to one space and trimming, because the first step already removes every line break |
| PdfExtractor.CollapseRemovesBreaks | react-dashboard/backend/services/pdf-extractor.js:83 | after `\s+` is replaced by a space no line break is left |
| PdfExtractor.OneLinePasses | react-dashboard/backend/services/pdf-extractor.js:85-95 | a line without breaks comes out of the per-line steps as its trimmed self |
| PdfExtractor.TrimmedFixed | react-dashboard/backend/services/pdf-extractor.js:93 | trimming a trimmed string changes nothing |
| PdfExtractor.CollapseAndTrim | react-dashboard/backend/services/pdf-extractor.js:83-95 | collapsing then trimming gives a collapsed, trimmed string with the same non-space characters in order |
| PdfExtractor.CleanedTextShape | react-dashboard/backend/services/pdf-extractor.js:76-106 | the cleaned text has no line break, single spaces only, no white space at either end, and every non-space character of the input in order; a missing text cleans to '' |
| PdfExtractor.CleanIdempotent | react-dashboard/backend/services/pdf-extractor.js:76-106 | cleaning cleaned text changes nothing |
| PdfExtractor.Latin1 | react-dashboard/backend/services/pdf-extractor.js:116 | one character per byte |
| PdfExtractor.NextClose | react-dashboard/backend/services/pdf-extractor.js:119 | the first ')' at or after the position, or none when there is no ')' after it |
| PdfExtractor.ParenTextsAreEnclosed | react-dashboard/backend/services/pdf-extractor.js:119-124 | every scraped text is non-empty, holds no ')' and stands between parentheses in the source string |
| PdfExtractor.SingleGroup | react-dashboard/backend/services/pdf-extractor.js:119-124 | a single parenthesised group is scraped whole |
| PdfExtractor.ScrubSpecials | react-dashboard/backend/services/pdf-extractor.js:127 | same length; each character kept when it is a word character, white space or `. , ! ? -`, else a space |
| PdfExtractor.FallbackText | react-dashboard/backend/services/pdf-extractor.js:116-134 | the fallback text always has at least 50 characters |
| PdfExtractor.FallbackTextShape | react-dashboard/backend/services/pdf-extractor.js:122-134 | the fallback text is the notice, or collapsed, trimmed and made only of kept characters |
| PdfExtractor.CollapseAndTrimKeepsClass | react-dashboard/backend/services/pdf-extractor.js:127-129 | collapsing and trimming keeps a string inside any character class holding the space |
| PdfExtractor.ReplaceRunsKeepsClass | react-dashboard/backend/services/pdf-extractor.js:128 | replacing runs with a character of a class keeps every character in the class |
| PdfExtractor.ExtractTextFallback | react-dashboard/backend/services/pdf-extractor.js:112-150 | never a success, always the fallback warning, the buffer's length as original length and at least 50 characters of text |
| PdfExtractor.ExtractText | react-dashboard/backend/services/pdf-extractor.js:19-71 | a success exactly when the parser produced text; then the cleaned text and the raw length; otherwise the fallback extraction |
| PdfExtractor.IdentifySections | react-dashboard/backend/services/pdf-extractor.js:177-239 | the loop yields the specified sections, at least one |
| PdfExtractor.Titles | react-dashboard/backend/services/pdf-extractor.js:177-239 | the title of each section, in order |
| PdfExtractor.ScanTitles | react-dashboard/backend/services/pdf-extractor.js:193-226 | the closed and the open section titles of a scan are the trimmed header lines in order |
| PdfExtractor.SectionTitlesAreHeaders | react-dashboard/backend/services/pdf-extractor.js:177-235 | with headers, the sections are titled by the trimmed header lines in order; without any, one section "Content" holding the whole text |
| PdfExtractor.ScanFromAppend | react-dashboard/backend/services/pdf-extractor.js:193-216 | scanning two blocks of lines is scanning the first, then the second from that state |
| PdfExtractor.NoHeaderOnlyAddsContent | react-dashboard/backend/services/pdf-extractor.js:213-215 | lines without a header close no section and open none |
| PdfExtractor.PreambleDropped | react-dashboard/backend/services/pdf-extractor.js:200-215 | lines before the first header belong to no section and are dropped |
| PdfExtractor.ExtractStructuredText | react-dashboard/backend/services/pdf-extractor.js:155-171 | a failed or shorter-than-100 extraction comes back unchanged; otherwise the extraction with its identified sections |
| PdfExtractor.OneLineIsOneSection | react-dashboard/backend/services/pdf-extractor.js:177-235 | a one-line text is one section: titled by itself when it is a header, else "Content" |
| PdfExtractor.StructuredTextIsOneSection | react-dashboard/backend/services/pdf-extractor.js:155-235 | cleaned text has no line break, so a structured extraction has one section: titled by the whole text when it reads as a header, else "Content" (the cleaner is at lines 76-106) |
| LanguageTranslator.LanguageOf | react-dashboard/backend/services/language-translator.js:5-13 | the supported language with this code, and none exactly when no supported language has it |
| LanguageTranslator.Column | react-dashboard/backend/services/language-translator.js:38-120 | one of the seven columns of the tables |
| LanguageTranslator.Row | react-dashboard/backend/services/language-translator.js:38-120 | each phrase has a text for each of the seven languages |
| LanguageTranslator.PhrasesNonEmpty | react-dashboard/backend/services/language-translator.js:38-130 | no phrase text is empty, so the `||` fallbacks never skip an entry |
| LanguageTranslator.UnknownKeyIsReturned | react-dashboard/backend/services/language-translator.js:123-128 | an unknown key is returned as it is |
| LanguageTranslator.KnownKeyTranslates | react-dashboard/backend/services/language-translator.js:123-131 | a known key gives the phrase of the requested language, or the Czech one for an unsupported code |
| LanguageTranslator.TwilioLookups | react-dashboard/backend/services/language-translator.js:134-141 | a supported code gets its own locale and voice; any other gets cs-CZ and the Czech voice, which are also Czech's own (the code table is at lines 16-36) |
| LanguageTranslator.InstructionsFallBackToCzech | react-dashboard/backend/services/language-translator.js:200-212 | a supported code gets its own instructions, any other the Czech ones |
| LanguageTranslator.DetectLanguage | react-dashboard/backend/services/language-translator.js:144-179 | the detected code is always a supported language |
| LanguageTranslator.CzechMarkWins | react-dashboard/backend/services/language-translator.js:148-150 | any lower-case Czech diacritic makes the text Czech, whatever else it holds |
| LanguageTranslator.PlainTextIsEnglish | react-dashboard/backend/services/language-translator.js:144-178 | a text with none of the listed characters is English |
| LanguageTranslator.LowerAvoids | react-dashboard/backend/services/language-translator.js:153 | lower-casing produces 'ľ' only from 'ľ' or 'Ľ' |
| LanguageTranslator.ShadowedMarks | react-dashboard/backend/services/language-translator.js:148-170 | Spanish is only detected through 'ñ', '¿' or '¡', and French only through a mark no earlier class holds |
| LanguageTranslator.FrenchAcuteReadsAsCzech | react-dashboard/backend/services/language-translator.js:148-170 | 'café' is detected as Czech |
| LanguageTranslator.TranslateContentRule | react-dashboard/backend/services/language-translator.js:182-197 | equal languages leave the content alone; otherwise the note is the missing key 'translation_note' itself, followed by a blank line and the content |
| TestResults.RoundedMean | react-dashboard/backend/routes/test-results.js:55-60 | with values, within one half of the exact mean (rounding half up); 0 without values |
| TestResults.RoundedMeanInRange | react-dashboard/backend/routes/test-results.js:55-60 | a mean of percentages rounds to a value in 0..100 |
| TestResults.CountCompleted | react-dashboard/backend/routes/test-results.js:111 | never more completed rows than rows |
| TestResults.FeedbackTexts | react-dashboard/backend/routes/test-results.js:64-66 | only non-empty feedback texts are kept |
| TestResults.FeedbackTextsComplete | react-dashboard/backend/routes/test-results.js:64-66 | a text is kept exactly when some response carries it as non-empty feedback |
| TestResults.SessionIds | react-dashboard/backend/routes/test-results.js:26-28 | the session id of each response, in order |
| TestResults.InSessionNonEmpty | react-dashboard/backend/routes/test-results.js:26-46 | a session has responses exactly when some response carries its id |
| TestResults.KeysAreSessions | react-dashboard/backend/routes/test-results.js:26-46 | an id is a session key exactly when the session has responses |
| TestResults.GroupingDomain | react-dashboard/backend/routes/test-results.js:26-46 | the grouping has an entry exactly for each session key |
| TestResults.GroupingStep | react-dashboard/backend/routes/test-results.js:26-46 | one more response extends its own session, or opens it when it is the first of its id; no other session changes |
| TestResults.AddToSession | react-dashboard/backend/routes/test-results.js:29-45 | pushing a response and bumping the counters opens the session over one more response |
| TestResults.GroupBySession | react-dashboard/backend/routes/test-results.js:26-46 | the first loop yields the session keys in first-occurrence order and one opened session per key |
| TestResults.FinishedStep | react-dashboard/backend/routes/test-results.js:51-69 | summarising the next session replaces that entry and no other |
| TestResults.FinishedAll | react-dashboard/backend/routes/test-results.js:51-69 | after the second loop every session holds its summary |
| TestResults.GetUserResults | react-dashboard/backend/routes/test-results.js:8-81 | the route's loops yield the specified report |
| TestResults.ResponseInItsSession | react-dashboard/backend/routes/test-results.js:26-46 | every response lands in the session of its id and in no other |
| TestResults.InSessionHasId | react-dashboard/backend/routes/test-results.js:26-46 | a session holds only responses with its id |
| TestResults.SessionSummary | react-dashboard/backend/routes/test-results.js:29-69 | each session counts its responses, never more completed than total; its averages are rounded means with missing values as 0; its feedback is the distinct non-empty feedback; its type and start come from its first response |
| TestResults.FirstOfSession | react-dashboard/backend/routes/test-results.js:29-41 | the first response of a session is the first in the list with that id |
| TestResults.SessionsPartition | react-dashboard/backend/routes/test-results.js:26-46 | the sessions' sizes add up to the number of responses |
| TestResults.ReportTotals | react-dashboard/backend/routes/test-results.js:71-75 | totalSessions is the number of distinct ids and of sessions; the sessions' totals add up to totalResponses |
| TestResults.TrainingStatistics | react-dashboard/backend/routes/test-results.js:84-113 | completedCount never exceeds totalResponses, which is the number of rows; recentResults is the first ten rows, or all when fewer |
| TestResults.UsersWithinResponses | react-dashboard/backend/routes/test-results.js:104 | distinct users never outnumber the responses and exist whenever a response does |
| TestResults.EscapeQuotes | react-dashboard/backend/routes/test-results.js:233-237 | escaping never shortens the text |
| TestResults.CsvFields | react-dashboard/backend/routes/test-results.js:227-238 | ten fields per row |
| TestResults.CsvRows | react-dashboard/backend/routes/test-results.js:227-238 | one row per result, in order |
| TestResults.ReadQuoted | react-dashboard/backend/routes/test-results.js:233-237 | reading a quoted field consumes at least its closing quote |
| TestResults.FieldEnd | react-dashboard/backend/routes/test-results.js:238 | the position of the first comma, or the end |
| TestResults.ReadEscaped | react-dashboard/backend/routes/test-results.js:233-237 | an escaped text and its closing quote read back as the text |
| TestResults.ParseHead | react-dashboard/backend/routes/test-results.js:227-238 | a safe field followed by nothing or a comma reads back as its text |
| TestResults.RecordRoundTrip | react-dashboard/backend/routes/test-results.js:227-238 | writing fields with commas and reading them back gives their texts whenever the bare ones are safe |
| TestResults.CsvRowRoundTrip | react-dashboard/backend/routes/test-results.js:227-238 | a row reads back as its ten values when the bare ones hold no comma or quote; question, response and feedback may hold anything |
| TestResults.HeaderIsOneLine | react-dashboard/backend/routes/test-results.js:226 | the header names ten columns on a single line |
| TestResults.ExportLines | react-dashboard/backend/routes/test-results.js:226-240 | the export is the header line then one line per row, when no value holds a line break |
| TestResults.CommaInNameShiftsColumns | react-dashboard/backend/routes/test-results.js:229 | a comma in the bare user name splits it: the row reads back as eleven values and later values move one column right |
| Analytics.Average | react-dashboard/backend/routes/analytics.js:34-35 | null exactly when there is no numeric score |
| Analytics.CollectedStep | react-dashboard/backend/routes/analytics.js:23-32 | a result of an unknown user changes nothing; otherwise its test is appended to its user's entry only |
| Analytics.AveragedStep | react-dashboard/backend/routes/analytics.js:33-36 | averaging one entry sets its average from its own tests and changes no other entry |
| Analytics.CreateEntries | react-dashboard/backend/routes/analytics.js:20-22 | the first loop gives an empty entry to every company user |
| Analytics.CollectResults | react-dashboard/backend/routes/analytics.js:23-32 | the second loop appends each result to its user's entry and skips unknown users |
| Analytics.FillAverages | react-dashboard/backend/routes/analytics.js:33-36 | the third loop gives every entry its average |
| Analytics.CompanyUserStats | react-dashboard/backend/routes/analytics.js:8-38 | the three loops yield the specified report |
| Analytics.OneEntryPerUser | react-dashboard/backend/routes/analytics.js:19-22 | every company user has exactly one entry, under its own id, and there are no others |
| Analytics.OutsidersSkipped | react-dashboard/backend/routes/analytics.js:24 | a result of a user outside the company changes nothing |
| Analytics.ScoresOfTests | react-dashboard/backend/routes/analytics.js:25-34 | a user's scores keep the bounds of all result scores |
| Analytics.SumBounds | react-dashboard/backend/routes/analytics.js:35 | a sum of n values within lo..hi lies within lo*n..hi*n |
| Analytics.MeanWithin | react-dashboard/backend/routes/analytics.js:35 | the rounded mean of values within lo..hi lies within lo..hi |
| Analytics.AverageOfScores | react-dashboard/backend/routes/analytics.js:23-36 | a user's entry holds exactly their tests; its average is null exactly without a numeric score, and otherwise between the lowest and highest allowed score |
| Analytics.TestsKeepOrder | react-dashboard/backend/routes/analytics.js:14-32 | a user's tests keep the newest-first order of the results |
| UserStore.PublicHidesOnlyPassword | react-dashboard/backend/routes/users.js:28 | the returned view hides the password and nothing else: two rows look the same exactly when they differ at most in the password (the same exclusion is at lines 54, 127 and 177) |
| UserStore.AdminsAfterRemoval | react-dashboard/backend/routes/users.js:211-230 | removing a row lowers the admin count by one exactly when the row was an admin |
| UserStore.AdminsAfterReplace | react-dashboard/backend/routes/users.js:173 | replacing a row changes the admin count by what the old and the new row contribute |
| UserStore.AdminsAfterInsert | react-dashboard/backend/routes/users.js:114-123 | inserting a row raises the admin count by one exactly when it is an admin |
| UserStore.UserTable.Create | react-dashboard/backend/routes/users.js:114-123 | the new row is stored under the next id of the sequence, which no row had, and the table stays consistent |
| UserStore.UserTable.Save | react-dashboard/backend/routes/users.js:185-188 | the row is replaced exactly when no other row holds its email; otherwise nothing changes (the update is issued at line 173) |
| UserStore.UserTable.Destroy | react-dashboard/backend/routes/users.js:230 | the row is removed and nothing else changes |
| UserStore.Check | react-dashboard/backend/routes/users.js:88-100 | a validator reports its one message exactly when its check fails |
| UserStore.PagingOf | react-dashboard/backend/routes/users.js:11-13 | page 1 and offset 0 without a page, limit 10 without a limit, and never a zero limit (`parseInt(...) \|\| d`) |
| UserStore.PageRows | react-dashboard/backend/routes/users.js:25-26 | at most `limit` rows, the matching rows from the offset on in order, and some row whenever the offset is inside the result |
| UserStore.FirstPagesArePrefix | react-dashboard/backend/routes/users.js:11-41 | the first n pages together are the first n*limit rows of the result |
| UserStore.PagesCoverResult | react-dashboard/backend/routes/users.js:11-41 | the announced number of pages holds the whole result, no row twice, and the last announced page is not empty |
| UserStore.OffsetSign | react-dashboard/backend/routes/users.js:11-13 | offset and limit are both non-negative exactly for pages from 1 on with a positive limit |
| UserStore.PublicAll | react-dashboard/backend/routes/users.js:28 | the password-free view of each row, in order |
| UserStore.ListingOf | react-dashboard/backend/routes/users.js:9-47 | a listing succeeds exactly when the page is at least 1 and the limit positive; otherwise the route's 500 error |
| UserStore.ListedPage | react-dashboard/backend/routes/users.js:9-43 | a listing shows the page's rows of the query result in order without passwords, at most `limit` of them, with the total count, the page number and the page count |
| UsersManagement.ListedUsersMatch | react-dashboard/backend/routes/users-management.js:9-55 | every user the admin listing shows has the requested role, when one is given, and the requested company, when one is given |
| UsersManagement.ChangeRole | react-dashboard/backend/routes/users-management.js:63-119 | checked in order: a role of the four, not the caller's own role, an existing user, not demoting the last admin; a failure changes nothing; a success changes only that user's role; the table keeps an admin when it had one |
| UsersManagement.CompanyListingScoped | react-dashboard/backend/routes/users-management.js:122-154 | the company listing shows only users of that company, and none for a company that does not exist |
| UsersManagement.CreateErrors | react-dashboard/backend/routes/users-management.js:157-171 | no validator message exactly when the name is non-empty, the email valid, the password at least 6 characters and the role, if given, regular_user or contact_person |
| UsersManagement.CreateInCompany | react-dashboard/backend/routes/users-management.js:157-225 | checked in order: the validators, an unused email, an existing company; a success adds one row under the next id with the hash, the role or regular_user, the phone or null and the path's company; the 403 branch never fires and the admin count never changes |
| UsersManagement.DeleteUser | react-dashboard/backend/routes/users-management.js:266-296 | checked in order: not the caller's own account, an existing user, not the last admin; a success removes only that row; the table keeps an admin when it had one |
| UsersRoutes.ListAllWithoutSearch | react-dashboard/backend/routes/users.js:14-41 | without a search text the listing counts every row of the table |
| UsersRoutes.GetUser | react-dashboard/backend/routes/users.js:51-84 | the user without its password with status 200 exactly when the id exists, otherwise 404 |
| UsersRoutes.CreateErrors | react-dashboard/backend/routes/users.js:87-100 | no validator message exactly when the name is non-empty, the email valid, the password at least 6 characters, the role, if given, admin or user, and the company id, if given, an integer (line 95) |
| UsersRoutes.CompanyIdValidator | react-dashboard/backend/routes/users.js:95 | `optional().isInt()` passes an absent value, a number and a signed digit text, and refuses null, other values, "", "-" and "12a"; the column reads "+007" as 7 and "-12" as -12 |
| UsersRoutes.NewRowDefaults | react-dashboard/backend/routes/users.js:102-123 | role 'user' and language 'cs' unless given, lesson level 0, the hash as password, null for a missing company or the number 0 (the text "0" is truthy and stored as 0) and for a missing or empty phone |
| UsersRoutes.CreateUser | react-dashboard/backend/routes/users.js:87-142 | checked in order: the validators, an unused email; a failure changes nothing; a success adds the new row under the next id and returns it without the password; the admin count never drops |
| UsersRoutes.UpdateErrors | react-dashboard/backend/routes/users.js:145-158 | no validator message exactly when a supplied name is non-empty, a supplied email valid, a supplied password at least 6 characters, a supplied role admin or user and a supplied company id an integer (line 152) |
| UsersRoutes.PatchedFields | react-dashboard/backend/routes/users.js:165-173 | the hash is stored exactly when a password is supplied; a supplied company id is stored as its integer; every other supplied field is copied and every missing one kept |
| UsersRoutes.UpdateUser | react-dashboard/backend/routes/users.js:145-192 | checked in order: the validators, an existing user, the unique email; a failure changes nothing; a success replaces only that row by the patched one; it succeeds exactly when no other row holds the resulting email |
| UsersRoutes.UpdateCanRemoveLastAdmin | react-dashboard/backend/routes/users.js:145-173 | the only admin, patched with role 'user', passes every check and leaves no admin |
| UsersRoutes.UpdateUserKeepingAdmin | react-dashboard/backend/routes/users.js:145-192 | the update with the last-admin guard of the other routes: same checks and effect, and the table keeps an admin when it had one |
| UsersRoutes.DeleteUser | react-dashboard/backend/routes/users.js:195-238 | checked in order: an existing user, not the last admin, no related records unless force is 'true'; a success removes only that row with the '(forced)' suffix when forced |
| UsersRoutes.CallUser | react-dashboard/backend/routes/users.js:241-262 | the user's id, name and phone exactly when the id exists |
| Permissions.GetRolePermissions | react-dashboard/frontend/src/utils/permissions.ts:4-47 | every role sees either all data or only its own company, never both or neither |
| Permissions.UnknownRoleIsRegular | react-dashboard/frontend/src/utils/permissions.ts:102-105 | a role outside the four gets regular_user's permissions and colour (the role table is at lines 36-46) |
| Permissions.Rank | react-dashboard/frontend/src/utils/permissions.ts:51-56 | a rank exactly for the four roles, at most 3 |
| Permissions.RoleOrderIsTotal | react-dashboard/frontend/src/utils/permissions.ts:50-59 | on the four roles the order is reflexive, antisymmetric, transitive and total; a role outside them is neither above nor below any role, since comparisons with `undefined` are false |
| Permissions.RoleOrderChain | react-dashboard/frontend/src/utils/permissions.ts:51-56 | regular_user < contact_person < superuser < admin, strictly |
| Permissions.CanManageUsers | react-dashboard/frontend/src/utils/permissions.ts:62-63 | exactly admin and contact_person |
| Permissions.CanManageCompanies | react-dashboard/frontend/src/utils/permissions.ts:65-66 | exactly admin and superuser |
| Permissions.CanManageTrainings | react-dashboard/frontend/src/utils/permissions.ts:68-69 | exactly admin, superuser and contact_person |
| Permissions.CanManageTests | react-dashboard/frontend/src/utils/permissions.ts:71-72 | exactly admin, superuser and contact_person |
| Permissions.CanViewAllData | react-dashboard/frontend/src/utils/permissions.ts:74-75 | exactly admin and superuser |
| Permissions.CapabilitiesByRank | react-dashboard/frontend/src/utils/permissions.ts:4-75 | viewing all data and managing companies exactly from superuser up; trainings and tests exactly from contact_person up |
| Permissions.ManageUsersNotByRank | react-dashboard/frontend/src/utils/permissions.ts:16-35 | managing users does not follow the order: a contact person may, the superuser above them may not |
| Permissions.GetRoleDisplayName | react-dashboard/frontend/src/utils/permissions.ts:78-91 | any other role is shown as 'Neznámá role' |
| Permissions.DisplayNamesDistinct | react-dashboard/frontend/src/utils/permissions.ts:78-91 | different roles get different names, none of them the unknown one |
| Permissions.GetRoleColor | react-dashboard/frontend/src/utils/permissions.ts:94-107 | always one of the five colours of the result type |
| Permissions.CanAccessCompany | react-dashboard/frontend/src/utils/permissions.ts:110-122 | exactly when the role views all data or the two company ids are equal, two missing ids counting as equal |
| Rbac.Level | src/lib/rbac.ts:9-13 | a level exactly for standard, superuser and admin, between 1 and 3 |
| Rbac.PermissionsNested | src/lib/rbac.ts:47-67 | each role's permissions contain those of the role below it |
| Rbac.GetUserPermissions | src/lib/rbac.ts:127-137 | none without a user; the user's own list when it has one, else its role's list |
| Rbac.HasPermissionIsListed | src/lib/rbac.ts:127-137 | a permission is held exactly when it is in the user's permission list (the permission table lookup is at lines 97-108) |
| Rbac.OwnListOverridesRole | src/lib/rbac.ts:97-108 | an own list overrides the role even when empty: an admin with [] holds no permission |
| Rbac.HigherRoleHasMore | src/lib/rbac.ts:97-108 | without an own list, a user at or above a role holds every permission of that role (the hierarchy is at lines 81-84) |
| Rbac.HasAllMeansEach | src/lib/rbac.ts:113-115 | all permissions are held exactly when each listed one is; trivially for none |
| Rbac.HasAnyMeansOne | src/lib/rbac.ts:120-122 | some permission is held exactly when one listed one is; never for none |
| Rbac.GetRoleDisplayName | src/lib/rbac.ts:142-150 | a role outside the table is shown as itself |
| Rbac.GetRoleColor | src/lib/rbac.ts:155-163 | a role outside the table gets the muted colour |
| Rbac.AccessWithoutOrganizations | src/lib/rbac.ts:168-179 | a user without an organization reaches the missing organization, and, unless an admin, no named one |
| Rbac.FilterByOrganizationAccess | src/lib/rbac.ts:184-197 | nothing without a user, everything for an admin, never more items than given |
| Rbac.VisibleItemsExactly | src/lib/rbac.ts:194-196 | a user other than an admin sees, in order, exactly the items without an organization or of the user's organization |
| Auth.CurrentTime | src/lib/auth.ts:123-140 | the whole seconds of the clock in milliseconds, rounded down |
| Auth.ExpiredIsDueForRefresh | src/lib/auth.ts:116-148 | without a token the session counts as expired and no refresh is attempted; an expired decodable token is due for refresh; a token due for refresh decodes and expires within five minutes |
| Auth.GetUserDisplayName | src/lib/auth.ts:324-327 | never empty: the name when truthy, else the email when truthy, else 'User'; 'Anonymous' without a user |
| Auth.FirstChar | src/lib/auth.ts:337-340 | the first character, or the empty text for an empty word |
| Auth.GetUserInitials | src/lib/auth.ts:332-341 | at most two characters; 'U' without a user or a name |
| Auth.InitialsOfOneWord | src/lib/auth.ts:335-337 | a name without spaces gives its first letter upper-cased |
| Auth.InitialsOfTwoWords | src/lib/auth.ts:335-340 | first and last name give both first letters upper-cased |
| Auth.EmptyTextsAreFalsy | src/lib/auth.ts:346-350 | an empty or missing token signs nobody in and any token with a user does; onboarding is complete exactly with a non-empty organization id (the same test is at lines 107-111) |
| AuthForms.EmailPatternExamples | src/pages/auth/register.tsx:55-59 | the email pattern accepts a plain address and one inside longer text, and refuses one without a dot after the '@' |
| AuthForms.ValidateRegister | src/pages/auth/register.tsx:47-79 | each field holds exactly the message of its rule, and the form is valid exactly when no message was recorded |
| AuthForms.RegisterRulesPass | src/pages/auth/register.tsx:47-79 | every rule passes exactly when the name is not blank, the email matches the pattern, the password has at least 8 characters, the confirmation repeats it and the terms are accepted |
| AuthForms.RegisterValidExactly | src/pages/auth/register.tsx:47-79 | the validator's dictionary is empty exactly when the trimmed name is non-empty and every other rule passes |
| AuthForms.ValidateLogin | src/pages/auth/login.tsx:46-63 | only email and password can hold messages, each the message of the first failing check; the form is valid exactly when the email matches the pattern and the password has at least 6 characters |
| JsText.BlankIsTrimmedEmpty | src/pages/auth/register.tsx:51 | `!name.trim()` holds exactly for the blank texts |
| JsText.Round | react-dashboard/backend/routes/analytics.js:35 | `Math.round`: the integer within one half of the value, halves rounded up |
| JsText.CeilDiv | react-dashboard/backend/routes/users.js:41 | `Math.ceil(a / b)`: the least multiple count covering `a` for a positive divisor |
| JsText.Take | app/ai_services.py:186 | the first n characters, or all when shorter |

## Left out

- Language-model calls: the requests in `app/ai_services.py`, `generateQuestions`, `generateLesson` and `extractKeyTopics` are foreign and nondeterministic. Their parsed replies are parameters (`None` for an unparsable reply), and only the guards and fallbacks around them are modelled.
- `extractKeyTopics` with a client (ai-lesson-generator.js:245-277) is not modelled, because its result is the model's reply. Its fallback `extractKeyTopicsFallback` is modelled.
- AiQuestionGenerator.GenerateQuestions: a request that throws is re-thrown as an error (ai-question-generator.js:70-73). The model covers only the client-missing and replied cases.
- PDF parsing: pdf-parse is foreign code, so `ExtractText` takes its text, or `None` when it is missing or throws. PyPDF2 in app/ai_services.py is not part of this model.
- PdfExtractor.IdentifySections: the four header patterns carry the `g` flag, so `test` resumes at `lastIndex` and its answer depends on the lines before. Header detection is therefore a parameter `isHeader`, and the regular expressions themselves are not modelled.
- AiLessonGenerator.ParseGeneratedLesson: the `catch` branch (ai-lesson-generator.js:178-187) is not modelled. Nothing in the body can throw for a string argument, so the branch is unreachable in this model. The regular-expression engine is not modelled in general: the two heading patterns are modelled by functions that compute the match the backtracking engine finds, proved against a declarative description of every valid match.
- KeyTopics, ExtractKeyTopicsFallback, CountWords: the words "constructor" and "__proto__" are counted like any other word. In the source, `frequency["constructor"]` starts from the inherited `Object.prototype.constructor`, giving a text count and a NaN comparison, and an assignment to `frequency["__proto__"]` is ignored.
- Analytics.CompanyUserStats: `Object.values(byUser)` lists integer keys in ascending order. The model returns the map and does not model that order.
- TestResults.GetUserResults: `Object.keys` and `Object.values` of the session dictionary would list integer-like session ids first, and a session id such as `__proto__` would hit the prototype. Session ids are treated as plain keys in first-occurrence order.
- TestResults: `GET /response/:responseId` and `GET /stats/overview` are single database queries (a lookup and SQL aggregates) with no logic of their own.
- UsersManagement: `GET /stats/roles` is a SQL `GROUP BY` count and is not modelled.
- Listings: `ORDER BY` and the `ILIKE '%search%'` match are applied by the database. The model takes the ordered rows as a parameter, matches the search text as a case-insensitive substring by lower-casing both sides, and ignores `%` and `_` wildcards in it.
- UserStore.ListingOf: a page or limit that makes the offset or limit negative is refused by the database. The model returns the route's 500 error for it; the database's own message is not modelled.
- The users table declares its role column as `ENUM('admin','user')` in one schema, while the management routes use four roles. Roles are plain strings here.
- Bcrypt hashing is the parameter `hashed`, express-validator's `isEmail` is the parameter `emailValid`, and the `parseInt` of path ids is taken as already done.
- UsersRoutes.DeleteUser: the numbers of the user's test sessions and attempts are parameters. The `details` object of the refusal is not modelled.
- The `include` of company, test sessions and attempts in the replies of the user routes is not modelled.
- Creation races: two requests that both pass the email check are settled by the unique constraint. `UserTable.Save` models that refusal, and the create routes check the email first.
- Middleware: `auth`, `adminOnly`, `contactPersonOrHigher` and `checkCompanyAccess` run before the routes and are not modelled. The caller's id and role are parameters.
- Rbac: the initializer at src/lib/rbac.ts:16-44 reads `ROLE_PERMISSIONS` while it is being defined, which fails at module load. The model uses the table assigned at lines 47-66.
- Rbac: the `can` shortcuts (src/lib/rbac.ts:201-232) are one-line calls of `hasPermission` and `hasRoleOrHigher` and are not modelled separately.
- Auth: the localStorage getters and setters, `login`, `register`, `logout`, `refreshAuthToken`, `getCurrentUser`, `forgotPassword`, `resetPassword` and `initializeTokenRefresh` are storage, network and timer code. The stored token and user are parameters, and so are the token decoder and the clock.
- JsText.Upper and JsText.Lower map ASCII, Latin-1 and Latin Extended-A letters one to one. `toUpperCase` turning 'ß' into "SS" and scripts beyond these are not modelled.
- Lengths count characters. JavaScript's `.length` counts UTF-16 code units, which differs only for characters outside the Basic Multilingual Plane.
- AiProxy: confidence values and averages are exact reals. Floating-point rounding is not modelled.
- VoiceNavigation.Percentage: the percentage is computed on exact reals. In doubles a score at a .5 boundary can round the other way: 23 of 40 gives 57, where the model gives 58.
- LanguageTranslator.KnownKeyTranslates, LanguageTranslator.TwilioLookups, LanguageTranslator.InstructionsFallBackToCzech, ContentLoader.UnknownTypeGetsBasicDefaults, AiEvaluator.UnknownTypeAddsNothing, AiQuestionGenerator.UnknownLanguageUsesCzech, AiLessonGenerator.LanguageOf, AiLessonGenerator.TemplateOf, Rbac.GetUserPermissions, Rbac.GetRoleDisplayName, Rbac.GetRoleColor, Rbac.HasPermissionIsListed, AiQuestionGenerator.PromptTypeLines: the lookup tables are maps, so a key such as "constructor" or "toString" is unknown and gets the default. In the source, `table[key] || default` finds the inherited `Object.prototype` member for such keys and returns it (language-translator.js:130, 135, 140, 211; content-loader.js:103; ai-evaluator.js:128, 142; ai-question-generator.js:169, 191; ai-lesson-generator.js:86, 143, 210; rbac.ts:136, 149, 162). In `hasPermission` (rbac.ts:106) that member has no `includes`, so the call throws a TypeError where the model answers false. The prompt template (ai-question-generator.js:97) reads `typeDescriptions[type]` without a default, so an inherited key prints the member's text where the model prints `undefined`.
- AuthForms: the errors are a map keyed by a field enum, and the messages are an enum whose wording `MessageText` gives. React state updates and JSX are not modelled.
- Models: `TestSession.difficulty_score` and `failed_categories` are declared but never updated by the code, so no adaptation rule is modelled.
- VoiceNavigation: the `TestResult.create` writes are not modelled. The conversation-state map is modelled for a single writer.
- Clock and randomness: `datetime.utcnow`, `Date.now` and `Math.random` are parameters (`now`, `nowMs`, `random`, `timestamp`).

## Findings

| source | as written | input that shows it | evidently intended | confidence | as-written member | corrected member |
|---|---|---|---|---|---|---|
| react-dashboard/backend/routes/users.js:145-173 | `PUT /:id` copies any valid role from the request onto the user, with no last-admin check | the only admin updated with `{ role: 'user' }` | refuse to remove the admin role from the last admin, as `DELETE /:id` here and the role-change route of the user management do | not executed | UsersRoutes.UpdateCanRemoveLastAdmin | UsersRoutes.UpdateUserKeepingAdmin |
| react-dashboard/backend/services/ai-evaluator.js:15-23 | `evaluateResponse` calls helpers the class does not define, so it always falls into the catch branch and returns the default evaluation | any response, e.g. a 300-character answer whose completion score is 100 | the computed completion and quality scores, with `isComplete` exactly when completion is at least 70 | not executed | AiEvaluator.EvaluationIgnoresScores | AiEvaluator.IntendedEvaluation |
