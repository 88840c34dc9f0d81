/**
 * The deterministic parts of the Python AI services (app/ai_services.py):
 * the guards around the placement-text analysis, the course-generation
 * request and the progress analysis, and the choice of the first lesson
 * for a placement level. The language model is a function parameter that
 * maps the text it is sent to the parsed reply (`None` when the reply is
 * not valid JSON).
 */
module AiServices {
  import opened Wrappers
  import opened JsText

  /** The `AIServiceError`s the guards raise. */
  datatype ServiceError =
    | TextTooShort
    | AnalysisUnparsable
    | MissingField(field: string)
    | NoRawContent
    | CourseUnparsable
    | NoLessons
    | ProgressUnparsable

  /**
   * The message each error carries to the caller. Errors raised inside a
   * `try` block pass through the generic handler, which wraps the message
   * once more.
   */
  function ErrorMessage(e: ServiceError): string
  {
    match e
    case TextTooShort => "Text too short for accurate analysis (minimum 50 characters)"
    case AnalysisUnparsable => "Failed to parse AI analysis response"
    case MissingField(f) => "AI analysis failed: Missing required field in AI analysis: " + f
    case NoRawContent => "No raw content available for processing"
    case CourseUnparsable => "Failed to parse course generation response"
    case NoLessons => "Course generation failed: No lessons generated from content"
    case ProgressUnparsable => "Failed to parse progress analysis response"
  }

  datatype Outcome<T> = Success(value: T) | Failure(error: ServiceError)

  // ---------------------------------------------------------------- placement

  const MinPlacementLength: nat := 50

  /** The keys an analysis must hold, in the order they are checked. */
  const RequiredFields: seq<string> := ["level", "confidence", "strengths", "weaknesses", "recommended_focus"]

  /** The first required field (in checking order) that the analysis lacks. */
  function FirstMissing(fields: seq<string>, keys: set<string>): (r: Option<string>)
    ensures r.None? <==> forall k :: 0 <= k < |fields| ==> fields[k] in keys
    ensures r.Some? ==> exists k :: 0 <= k < |fields| && fields[k] == r.value && r.value !in keys
                                      && forall j :: 0 <= j < k ==> fields[j] in keys
  {
    if |fields| == 0 then None
    else if fields[0] !in keys then Some(fields[0])
    else
      var rest := FirstMissing(fields[1..], keys);
      assert forall k :: 1 <= k < |fields| ==> fields[k] == fields[1..][k - 1];
      if rest.Some? then
        ghost var k :| 0 <= k < |fields[1..]| && fields[1..][k] == rest.value && rest.value !in keys
                       && forall j :: 0 <= j < k ==> fields[1..][j] in keys;
        assert fields[k + 1] == rest.value;
        assert forall j :: 0 <= j < k + 1 ==> fields[j] in keys by {
          forall j | 0 <= j < k + 1 ensures fields[j] in keys {
            if j > 0 { assert fields[j] == fields[1..][j - 1]; }
          }
        }
        rest
      else
        rest
  }

  /**
   * `analyze_placement_text`: text whose stripped form is shorter than 50
   * characters is refused before the model is consulted; an unparsable
   * reply or one without a required key is refused afterwards. The
   * accepted analysis is abstracted to its set of keys.
   */
  function AnalyzePlacementText(text: string, model: string -> Option<set<string>>): (r: Outcome<set<string>>)
    ensures |PyStrip(text)| < MinPlacementLength ==> r == Failure(TextTooShort)
    ensures r.Success? ==> |PyStrip(text)| >= MinPlacementLength && model(text) == Some(r.value)
  {
    if |PyStrip(text)| < MinPlacementLength then Failure(TextTooShort)
    else
      match model(text)
      case None => Failure(AnalysisUnparsable)
      case Some(keys) =>
        match FirstMissing(RequiredFields, keys)
        case Some(f) => Failure(MissingField(f))
        case None => Success(keys)
  }

  /** An accepted analysis holds every required key, and a reply holding them all is accepted. */
  lemma AcceptedAnalysisHasRequiredFields(text: string, model: string -> Option<set<string>>)
    requires |PyStrip(text)| >= MinPlacementLength && model(text).Some?
    ensures AnalyzePlacementText(text, model).Success?
            <==> forall k :: 0 <= k < |RequiredFields| ==> RequiredFields[k] in model(text).value
  {
  }

  /** A reply without a level is refused by naming `level`, the first field checked. */
  lemma MissingLevelIsReportedFirst(text: string, model: string -> Option<set<string>>)
    requires |PyStrip(text)| >= MinPlacementLength && model(text).Some?
    requires "level" !in model(text).value
    ensures AnalyzePlacementText(text, model) == Failure(MissingField("level"))
  {
  }

  /** A too-short text is refused whatever the model would answer. */
  lemma ShortTextIgnoresModel(text: string, m1: string -> Option<set<string>>, m2: string -> Option<set<string>>)
    requires |PyStrip(text)| < MinPlacementLength
    ensures AnalyzePlacementText(text, m1) == AnalyzePlacementText(text, m2) == Failure(TextTooShort)
  {
  }

  // ----------------------------------------------------------- starting lesson

  /** A lesson row: its id, the course it belongs to and its position in the course. */
  datatype LessonRow = LessonRow(id: int, courseId: int, lessonNumber: int)

  /** `level_mapping.get(level, 1)`. */
  function StartLessonNumber(level: string): int
  {
    if level == "A1" then 1
    else if level == "A2" then 3
    else if level == "B1" then 6
    else if level == "B2" then 10
    else if level == "C1" then 15
    else if level == "C2" then 20
    else 1
  }

  predicate Qualifies(l: LessonRow, courseId: int, start: int)
  {
    l.courseId == courseId && l.lessonNumber >= start
  }

  /**
   * The query's first row: the qualifying lesson with the smallest
   * lesson number (the earliest of equal numbers in table order).
   */
  function FirstQualifying(lessons: seq<LessonRow>, courseId: int, start: int): (r: Option<LessonRow>)
    ensures r.None? <==> forall l :: l in lessons ==> !Qualifies(l, courseId, start)
    ensures r.Some? ==> r.value in lessons && Qualifies(r.value, courseId, start)
    ensures r.Some? ==> forall l :: l in lessons && Qualifies(l, courseId, start) ==> r.value.lessonNumber <= l.lessonNumber
  {
    if |lessons| == 0 then None
    else
      var rest := FirstQualifying(lessons[1..], courseId, start);
      assert forall l :: l in lessons ==> l == lessons[0] || l in lessons[1..];
      if Qualifies(lessons[0], courseId, start) && (rest.None? || lessons[0].lessonNumber <= rest.value.lessonNumber)
      then Some(lessons[0])
      else rest
  }

  /** `determine_starting_lesson`: the id of the chosen lesson, if any. */
  function DetermineStartingLesson(level: string, courseId: int, lessons: seq<LessonRow>): Option<int>
  {
    match FirstQualifying(lessons, courseId, StartLessonNumber(level))
    case None => None
    case Some(l) => Some(l.id)
  }

  /** The mapping of the six CEFR levels, and 1 for anything else. */
  lemma StartLessonTable(level: string)
    ensures StartLessonNumber("A1") == 1 && StartLessonNumber("A2") == 3 && StartLessonNumber("B1") == 6
    ensures StartLessonNumber("B2") == 10 && StartLessonNumber("C1") == 15 && StartLessonNumber("C2") == 20
    ensures level !in {"A1", "A2", "B1", "B2", "C1", "C2"} ==> StartLessonNumber(level) == 1
  {
  }

  /** A higher CEFR level never starts earlier in the course. */
  lemma StartLessonMonotone()
    ensures StartLessonNumber("A1") < StartLessonNumber("A2") < StartLessonNumber("B1")
            < StartLessonNumber("B2") < StartLessonNumber("C1") < StartLessonNumber("C2")
  {
  }

  /**
   * The chosen id belongs to a lesson of the course at or after the start
   * number that no other qualifying lesson precedes; `None` exactly when
   * the course has no such lesson.
   */
  lemma StartingLessonIsFirstQualifying(level: string, courseId: int, lessons: seq<LessonRow>)
    ensures DetermineStartingLesson(level, courseId, lessons).None?
            <==> forall l :: l in lessons ==> !Qualifies(l, courseId, StartLessonNumber(level))
    ensures DetermineStartingLesson(level, courseId, lessons).Some? ==>
              exists l :: l in lessons && l.id == DetermineStartingLesson(level, courseId, lessons).value
                          && Qualifies(l, courseId, StartLessonNumber(level))
                          && forall m :: m in lessons && Qualifies(m, courseId, StartLessonNumber(level)) ==> l.lessonNumber <= m.lessonNumber
  {
    var r := FirstQualifying(lessons, courseId, StartLessonNumber(level));
    if r.Some? {
      assert r.value.id == DetermineStartingLesson(level, courseId, lessons).value;
    }
  }

  /** Lessons of other courses never influence the choice. */
  lemma OtherCoursesIgnored(level: string, courseId: int, lessons: seq<LessonRow>, other: LessonRow)
    requires other.courseId != courseId
    ensures DetermineStartingLesson(level, courseId, lessons + [other]) == DetermineStartingLesson(level, courseId, lessons)
  {
    OtherCoursesIgnoredRows(lessons, courseId, StartLessonNumber(level), other);
  }

  lemma {:induction false} OtherCoursesIgnoredRows(lessons: seq<LessonRow>, courseId: int, start: int, other: LessonRow)
    requires other.courseId != courseId
    ensures FirstQualifying(lessons + [other], courseId, start) == FirstQualifying(lessons, courseId, start)
  {
    if |lessons| == 0 {
      assert FirstQualifying([other][1..], courseId, start) == None;
    } else {
      assert (lessons + [other])[1..] == lessons[1..] + [other];
      OtherCoursesIgnoredRows(lessons[1..], courseId, start, other);
    }
  }

  // -------------------------------------------------------- course generation

  const MaxCourseContent: nat := 8000

  /** The parsed course reply; each lesson is abstracted to its title, and `lessons` is absent when the key is missing or null. */
  datatype CourseData = CourseData(title: string, lessons: Option<seq<string>>)

  /**
   * `process_content_to_course`: missing or empty raw content is refused;
   * the model sees only the first 8000 characters; a reply without a
   * non-empty lesson list is refused.
   */
  function ProcessContentToCourse(rawContent: Option<string>, model: string -> Option<CourseData>): (r: Outcome<CourseData>)
    ensures (rawContent.None? || rawContent.value == "") ==> r == Failure(NoRawContent)
    ensures r.Success? ==> r.value.lessons.Some? && r.value.lessons.value != []
  {
    if rawContent.None? || rawContent.value == "" then Failure(NoRawContent)
    else
      match model(Take(rawContent.value, MaxCourseContent))
      case None => Failure(CourseUnparsable)
      case Some(course) =>
        if course.lessons.None? || course.lessons.value == [] then Failure(NoLessons)
        else Success(course)
  }

  /** Two sources that agree on their first 8000 characters give the same course. */
  lemma OnlyFirst8000CharactersMatter(a: string, b: string, model: string -> Option<CourseData>)
    requires a != "" && b != ""
    requires Take(a, MaxCourseContent) == Take(b, MaxCourseContent)
    ensures ProcessContentToCourse(Some(a), model) == ProcessContentToCourse(Some(b), model)
  {
  }

  /** A reply that parses and lists at least one lesson is returned unchanged. */
  lemma CourseWithLessonsAccepted(raw: string, model: string -> Option<CourseData>)
    requires raw != ""
    requires model(Take(raw, MaxCourseContent)).Some?
    requires model(Take(raw, MaxCourseContent)).value.lessons.Some?
    requires model(Take(raw, MaxCourseContent)).value.lessons.value != []
    ensures ProcessContentToCourse(Some(raw), model) == Success(model(Take(raw, MaxCourseContent)).value)
  {
  }

  // --------------------------------------------------------- progress analysis

  /** `recent_attempts[-10:]`: the last ten attempts, or all of them when there are fewer. */
  function LastTen<T>(attempts: seq<T>): (r: seq<T>)
    ensures |r| == if |attempts| < 10 then |attempts| else 10
    ensures attempts == attempts[..|attempts| - |r|] + r
  {
    if |attempts| <= 10 then attempts else attempts[|attempts| - 10..]
  }

  /** Appending an attempt to a full window drops the oldest one. */
  lemma LastTenSlides<T>(attempts: seq<T>, a: T)
    requires |attempts| >= 10
    ensures LastTen(attempts + [a]) == LastTen(attempts)[1..] + [a]
  {
    var s := attempts + [a];
    assert s[|s| - 10..] == attempts[|attempts| - 9..] + [a];
  }

  /**
   * `analyze_user_progress`: the model is sent the progress record
   * (abstracted to `P`) and the last ten attempts; an unparsable reply is
   * refused.
   */
  function AnalyzeUserProgress<P, A, R>(progress: P, attempts: seq<A>, model: (P, seq<A>) -> Option<R>): (r: Outcome<R>)
    ensures r.Success? <==> model(progress, LastTen(attempts)).Some?
    ensures r.Failure? ==> r.error == ProgressUnparsable
  {
    match model(progress, LastTen(attempts))
    case None => Failure(ProgressUnparsable)
    case Some(a) => Success(a)
  }
}
