/**
 * The test-result reports (react-dashboard/backend/routes/test-results.js):
 * a user's responses grouped into test sessions with counts, rounded
 * averages and de-duplicated feedback; the statistics of one training
 * type; and the CSV export. The database queries are parameters: the rows
 * they return, newest first.
 */
module TestResults {
  import opened Wrappers
  import opened JsText
  import opened Collections

  /** A `TestResponse` row with the joined user's name and email; `None` is a null column. */
  datatype Response = Response(
    userId: int,
    testSession: string,
    trainingType: string,
    lessonTitle: Option<string>,
    createdAt: string,
    isCompleted: bool,
    completionPercentage: Option<int>,
    qualityScore: Option<int>,
    feedback: Option<string>,
    question: string,
    userResponse: Option<string>,
    userName: Option<string>,
    userEmail: Option<string>)

  /** `r.completionPercentage || 0`. */
  function Completion(r: Response): int
  {
    r.completionPercentage.GetOr(0)
  }

  /** `r.qualityScore || 0`. */
  function Quality(r: Response): int
  {
    r.qualityScore.GetOr(0)
  }

  function SumCompletion(rs: seq<Response>): int
  {
    if |rs| == 0 then 0 else SumCompletion(rs[..|rs| - 1]) + Completion(rs[|rs| - 1])
  }

  function SumQuality(rs: seq<Response>): int
  {
    if |rs| == 0 then 0 else SumQuality(rs[..|rs| - 1]) + Quality(rs[|rs| - 1])
  }

  /** `count > 0 ? Math.round(total / count) : 0`. */
  function RoundedMean(total: int, count: nat): (r: int)
    ensures count > 0 ==> total as real / count as real - 1.0 / 2.0 < r as real <= total as real / count as real + 1.0 / 2.0
    ensures count == 0 ==> r == 0
  {
    if count > 0 then Round(total as real / count as real) else 0
  }

  /** A mean of values in 0..100 rounds to a value in 0..100. */
  lemma RoundedMeanInRange(total: int, count: nat)
    requires count > 0 && 0 <= total <= 100 * count
    ensures 0 <= RoundedMean(total, count) <= 100
  {
    var m := total as real / count as real;
    assert 0.0 <= m <= 100.0 by {
      assert m * count as real == total as real;
    }
  }

  function CountCompleted(rs: seq<Response>): (n: nat)
    ensures n <= |rs|
  {
    if |rs| == 0 then 0 else CountCompleted(rs[..|rs| - 1]) + (if rs[|rs| - 1].isCompleted then 1 else 0)
  }

  /** `.map(r => r.aiEvaluation?.feedback).filter(f => f)`: the non-empty feedback texts in order. */
  function FeedbackTexts(rs: seq<Response>): (r: seq<string>)
    ensures forall f :: f in r ==> f != ""
  {
    if |rs| == 0 then []
    else
      var last := rs[|rs| - 1].feedback;
      FeedbackTexts(rs[..|rs| - 1]) + (if last.Some? && last.value != "" then [last.value] else [])
  }

  lemma {:induction false} FeedbackTextsComplete(rs: seq<Response>)
    ensures forall f :: f in FeedbackTexts(rs) <==> exists i :: 0 <= i < |rs| && rs[i].feedback == Some(f) && f != ""
  {
    if |rs| > 0 {
      var p := rs[..|rs| - 1];
      FeedbackTextsComplete(p);
      forall f | (exists i :: 0 <= i < |rs| && rs[i].feedback == Some(f) && f != "")
        ensures f in FeedbackTexts(rs)
      {
        var i :| 0 <= i < |rs| && rs[i].feedback == Some(f) && f != "";
        if i < |p| {
          assert p[i] == rs[i];
        }
      }
      forall f | f in FeedbackTexts(rs)
        ensures exists i :: 0 <= i < |rs| && rs[i].feedback == Some(f) && f != ""
      {
        if f in FeedbackTexts(p) {
          var i :| 0 <= i < |p| && p[i].feedback == Some(f) && f != "";
          assert rs[i] == p[i];
        } else {
          assert rs[|rs| - 1].feedback == Some(f);
        }
      }
    }
  }

  // --------------------------------------------------------------- sessions

  /** One entry of `sessionStats`. */
  datatype Session = Session(
    sessionId: string,
    trainingType: string,
    lessonTitle: Option<string>,
    startTime: string,
    responses: seq<Response>,
    totalQuestions: nat,
    completedQuestions: nat,
    averageCompletion: int,
    averageQuality: int,
    overallFeedback: seq<string>)

  /** The session ids of the responses, in order. */
  function SessionIds(rs: seq<Response>): (ids: seq<string>)
    ensures |ids| == |rs| && forall i :: 0 <= i < |rs| ==> ids[i] == rs[i].testSession
  {
    if |rs| == 0 then [] else SessionIds(rs[..|rs| - 1]) + [rs[|rs| - 1].testSession]
  }

  /** The keys of `sessionStats` in insertion order: each session id at its first response. */
  function SessionKeys(rs: seq<Response>): seq<string>
  {
    Distinct(SessionIds(rs))
  }

  /** The responses of one session, in the order of the list. */
  function InSession(rs: seq<Response>, k: string): seq<Response>
  {
    if |rs| == 0 then []
    else InSession(rs[..|rs| - 1], k) + (if rs[|rs| - 1].testSession == k then [rs[|rs| - 1]] else [])
  }

  /** A session as the first loop leaves it: its first response's fields, its responses and its counters. */
  function Opened(k: string, group: seq<Response>): Session
    requires |group| > 0
  {
    Session(k, group[0].trainingType, group[0].lessonTitle, group[0].createdAt, group,
            |group|, CountCompleted(group), 0, 0, [])
  }

  /** A session as the report shows it, after the averages and the feedback are filled in. */
  function Summary(k: string, group: seq<Response>): Session
    requires |group| > 0
  {
    Opened(k, group).(averageCompletion := RoundedMean(SumCompletion(group), |group|),
                      averageQuality := RoundedMean(SumQuality(group), |group|),
                      overallFeedback := Distinct(FeedbackTexts(group)))
  }

  lemma {:induction false} InSessionNonEmpty(rs: seq<Response>, k: string)
    ensures |InSession(rs, k)| > 0 <==> k in SessionIds(rs)
  {
    if |rs| > 0 {
      var p := rs[..|rs| - 1];
      InSessionNonEmpty(p, k);
      assert SessionIds(rs) == SessionIds(p) + [rs[|rs| - 1].testSession];
    }
  }

  lemma KeysAreSessions(rs: seq<Response>, k: string)
    ensures k in SessionKeys(rs) <==> |InSession(rs, k)| > 0
  {
    DistinctElements(SessionIds(rs));
    InSessionNonEmpty(rs, k);
  }

  /** `sessionStats` as the first loop leaves it: each session opened over its responses. */
  function Grouping(rs: seq<Response>): map<string, Session>
  {
    map k | k in SessionKeys(rs) && |InSession(rs, k)| > 0 :: Opened(k, InSession(rs, k))
  }

  lemma InSessionSnoc(p: seq<Response>, r: Response, k: string)
    ensures InSession(p + [r], k) == InSession(p, k) + (if r.testSession == k then [r] else [])
  {
    assert (p + [r])[..|p|] == p;
  }

  lemma GroupingDomain(rs: seq<Response>)
    ensures forall k :: k in Grouping(rs) <==> k in SessionKeys(rs)
  {
    forall k ensures k in Grouping(rs) <==> k in SessionKeys(rs) {
      KeysAreSessions(rs, k);
    }
  }

  /** One more response extends its session, or opens it when it is the first of its id; no other session changes. */
  lemma GroupingStep(p: seq<Response>, r: Response)
    ensures var k := r.testSession;
            var g := InSession(p + [r], k);
            && (k in Grouping(p) <==> k in SessionKeys(p))
            && (k in Grouping(p) ==> |InSession(p, k)| > 0 && Grouping(p)[k] == Opened(k, InSession(p, k)))
            && g == (if k in Grouping(p) then InSession(p, k) else []) + [r]
            && SessionKeys(p + [r]) == (if k in SessionKeys(p) then SessionKeys(p) else SessionKeys(p) + [k])
            && Grouping(p + [r]) == Grouping(p)[k := Opened(k, g)]
  {
    var k := r.testSession;
    var p2 := p + [r];
    assert p2[..|p|] == p;
    KeysAreSessions(p, k);
    KeysAreSessions(p2, k);
    InSessionSnoc(p, r, k);
    forall k' ensures k' in Grouping(p2) <==> k' in Grouping(p) || k' == k {
      KeysAreSessions(p, k');
      KeysAreSessions(p2, k');
      InSessionSnoc(p, r, k');
    }
    forall k' | k' in Grouping(p2) && k' != k ensures k' in Grouping(p) && Grouping(p2)[k'] == Grouping(p)[k'] {
      InSessionSnoc(p, r, k');
      assert InSession(p2, k') == InSession(p, k');
      KeysAreSessions(p, k');
    }
    MapUpdated(Grouping(p2), Grouping(p), k, Opened(k, InSession(p2, k)));
  }

  /** Pushing a response onto a session, new or opened, and bumping its counters opens it over one more response. */
  lemma AddToSession(k: string, g: seq<Response>, s: Session, r: Response)
    requires (|g| == 0 && s == Session(k, r.trainingType, r.lessonTitle, r.createdAt, [], 0, 0, 0, 0, []))
          || (|g| > 0 && s == Opened(k, g))
    ensures s.(responses := s.responses + [r], totalQuestions := s.totalQuestions + 1,
               completedQuestions := if r.isCompleted then s.completedQuestions + 1 else s.completedQuestions)
            == Opened(k, g + [r])
  {
    assert (g + [r])[..|g|] == g;
    if |g| == 0 {
      assert g + [r] == [r];
    }
  }

  /** The first loop: one session per id, opened at its first response, counters bumped per response. */
  method GroupBySession(rs: seq<Response>) returns (keys: seq<string>, stats: map<string, Session>)
    ensures keys == SessionKeys(rs) && stats == Grouping(rs)
  {
    keys := [];
    stats := map[];
    for i := 0 to |rs|
      invariant keys == SessionKeys(rs[..i]) && stats == Grouping(rs[..i])
    {
      var r := rs[i];
      var k := r.testSession;
      ghost var p := rs[..i];
      ghost var stats0 := stats;
      PrefixSnoc(rs, i);
      GroupingStep(p, r);
      ghost var g0 := if k in stats then InSession(p, k) else [];
      if k !in stats {
        stats := stats[k := Session(k, r.trainingType, r.lessonTitle, r.createdAt, [], 0, 0, 0, 0, [])];
        keys := keys + [k];
      }
      var s := stats[k];
      var s' := s.(responses := s.responses + [r],
                   totalQuestions := s.totalQuestions + 1,
                   completedQuestions := if r.isCompleted then s.completedQuestions + 1 else s.completedQuestions);
      AddToSession(k, g0, s, r);
      MapOverwritten(stats0, k, stats, s');
      stats := stats[k := s'];
    }
    assert rs[..|rs|] == rs;
  }

  /** The object the per-user route sends. */
  datatype Report = Report(userId: string, totalSessions: nat, totalResponses: nat, sessions: seq<Session>)

  /** The report the route promises: one summary per session, in key order. */
  function UserReport(userId: string, rs: seq<Response>): Report
  {
    var keys := SessionKeys(rs);
    Report(userId, |keys|, |rs|,
           seq(|keys|, i requires 0 <= i < |keys| =>
             KeysAreSessions(rs, keys[i]);
             Summary(keys[i], InSession(rs, keys[i]))))
  }

  /** `sessionStats` while the second loop runs: the sessions in `done` are summarised, the others still as opened. */
  function Finished(rs: seq<Response>, done: seq<string>): map<string, Session>
  {
    map k | k in SessionKeys(rs) && |InSession(rs, k)| > 0 ::
      if k in done then Summary(k, InSession(rs, k)) else Opened(k, InSession(rs, k))
  }

  lemma FinishedNone(rs: seq<Response>)
    ensures Finished(rs, []) == Grouping(rs)
  {
  }

  /** Summarising the next session changes that entry and no other. */
  lemma FinishedStep(rs: seq<Response>, j: nat)
    requires j < |SessionKeys(rs)|
    ensures var keys := SessionKeys(rs);
            var k := keys[j];
            && k in Finished(rs, keys[..j]) && |InSession(rs, k)| > 0
            && Finished(rs, keys[..j])[k] == Opened(k, InSession(rs, k))
            && Finished(rs, keys[..j + 1]) == Finished(rs, keys[..j])[k := Summary(k, InSession(rs, k))]
  {
    var keys := SessionKeys(rs);
    var k := keys[j];
    DistinctHasNoDuplicates(SessionIds(rs));
    KeysAreSessions(rs, k);
    assert keys[..j + 1] == keys[..j] + [k];
    assert k !in keys[..j];
    var before, after := Finished(rs, keys[..j]), Finished(rs, keys[..j + 1]);
    forall k' | k' in after && k' != k ensures k' in before && after[k'] == before[k'] {
      assert k' in keys[..j + 1] <==> k' in keys[..j];
    }
    MapUpdated(after, before, k, Summary(k, InSession(rs, k)));
  }

  lemma FinishedAll(rs: seq<Response>)
    ensures var keys := SessionKeys(rs);
            forall i :: 0 <= i < |keys| ==>
              && keys[i] in Finished(rs, keys) && |InSession(rs, keys[i])| > 0
              && Finished(rs, keys)[keys[i]] == Summary(keys[i], InSession(rs, keys[i]))
  {
    var keys := SessionKeys(rs);
    forall i | 0 <= i < |keys|
      ensures keys[i] in Finished(rs, keys) && |InSession(rs, keys[i])| > 0
    {
      KeysAreSessions(rs, keys[i]);
    }
  }

  /** `GET /user/:userId`: group, then fill in each session's averages and feedback in place. */
  method GetUserResults(userId: string, rs: seq<Response>) returns (report: Report)
    ensures report == UserReport(userId, rs)
  {
    var keys, stats := GroupBySession(rs);
    FinishedNone(rs);
    for j := 0 to |keys|
      invariant stats == Finished(rs, keys[..j])
    {
      FinishedStep(rs, j);
      var k := keys[j];
      var s := stats[k];
      var completion := RoundedMean(SumCompletion(s.responses), |s.responses|);
      var quality := RoundedMean(SumQuality(s.responses), |s.responses|);
      stats := stats[k := s.(averageCompletion := completion, averageQuality := quality,
                             overallFeedback := Distinct(FeedbackTexts(s.responses)))];
    }
    assert keys[..|keys|] == keys;
    FinishedAll(rs);
    var sessions := seq(|keys|, i requires 0 <= i < |keys| => stats[keys[i]]);
    report := Report(userId, |keys|, |rs|, sessions);
    assert report.sessions == UserReport(userId, rs).sessions;
  }

  /** Every response lands in the session of its id, and in no other. */
  lemma ResponseInItsSession(rs: seq<Response>, i: nat, k: string)
    requires i < |rs|
    ensures rs[i] in InSession(rs, k) <==> k == rs[i].testSession
    ensures rs[i].testSession in SessionKeys(rs)
  {
    InSessionContains(rs, i);
    InSessionHasId(rs, k);
    DistinctElements(SessionIds(rs));
    assert SessionIds(rs)[i] == rs[i].testSession;
  }

  lemma {:induction false} InSessionHasId(rs: seq<Response>, k: string)
    ensures forall x :: x in InSession(rs, k) ==> x.testSession == k
  {
    if |rs| > 0 {
      InSessionHasId(rs[..|rs| - 1], k);
    }
  }

  lemma {:induction false} InSessionContains(rs: seq<Response>, i: nat)
    requires i < |rs|
    ensures rs[i] in InSession(rs, rs[i].testSession)
  {
    var p := rs[..|rs| - 1];
    if i < |p| {
      InSessionContains(p, i);
      assert p[i] == rs[i];
    }
  }

  /**
   * Each session counts its responses, never more completed than total; its
   * averages are the rounded means with missing values as 0; its feedback
   * is the distinct non-empty feedback, first occurrence first; and its
   * type, title and start come from its first response in list order.
   */
  lemma SessionSummary(rs: seq<Response>, k: string)
    requires |InSession(rs, k)| > 0
    ensures var group := InSession(rs, k);
            var s := Summary(k, group);
            && s.totalQuestions == |group| && s.completedQuestions <= s.totalQuestions
            && s.averageCompletion == RoundedMean(SumCompletion(group), |group|)
            && s.averageQuality == RoundedMean(SumQuality(group), |group|)
            && NoDuplicates(s.overallFeedback)
            && (forall f :: f in s.overallFeedback <==> exists r :: r in group && r.feedback == Some(f) && f != "")
            && s.trainingType == group[0].trainingType && s.startTime == group[0].createdAt
  {
    var group := InSession(rs, k);
    DistinctHasNoDuplicates(FeedbackTexts(group));
    DistinctElements(FeedbackTexts(group));
    FeedbackTextsComplete(group);
  }

  /** The first response of a session is the first response in the list with that id. */
  lemma {:induction false} FirstOfSession(rs: seq<Response>, k: string, i: nat)
    requires i < |rs| && rs[i].testSession == k
    requires forall j :: 0 <= j < i ==> rs[j].testSession != k
    ensures |InSession(rs, k)| > 0 && InSession(rs, k)[0] == rs[i]
  {
    var p := rs[..|rs| - 1];
    if i < |p| {
      FirstOfSession(p, k, i);
    } else {
      InSessionNone(p, k);
    }
  }

  lemma {:induction false} InSessionNone(rs: seq<Response>, k: string)
    requires forall j :: 0 <= j < |rs| ==> rs[j].testSession != k
    ensures InSession(rs, k) == []
  {
    if |rs| > 0 {
      InSessionNone(rs[..|rs| - 1], k);
    }
  }

  /** The number of responses over the given sessions. */
  function CountOver(keys: seq<string>, rs: seq<Response>): nat
  {
    if |keys| == 0 then 0 else CountOver(keys[..|keys| - 1], rs) + |InSession(rs, keys[|keys| - 1])|
  }

  lemma {:induction false} CountOverSnoc(keys: seq<string>, p: seq<Response>, r: Response)
    requires NoDuplicates(keys)
    ensures CountOver(keys, p + [r]) == CountOver(keys, p) + (if r.testSession in keys then 1 else 0)
  {
    var rs := p + [r];
    assert rs[..|rs| - 1] == p;
    if |keys| > 0 {
      var ks := keys[..|keys| - 1];
      CountOverSnoc(ks, p, r);
      assert keys == ks + [keys[|keys| - 1]];
    }
  }

  /** The sessions partition the responses: their sizes add up to the number of responses. */
  lemma {:induction false} SessionsPartition(rs: seq<Response>)
    ensures CountOver(SessionKeys(rs), rs) == |rs|
  {
    if |rs| > 0 {
      var p := rs[..|rs| - 1];
      var r := rs[|rs| - 1];
      assert rs == p + [r];
      SessionsPartition(p);
      assert SessionIds(rs) == SessionIds(p) + [r.testSession];
      DistinctHasNoDuplicates(SessionIds(p));
      CountOverSnoc(SessionKeys(p), p, r);
      if r.testSession !in SessionKeys(p) {
        KeysAreSessions(p, r.testSession);
        var keys := SessionKeys(p) + [r.testSession];
        assert keys[..|keys| - 1] == SessionKeys(p);
        assert InSession(rs, r.testSession) == InSession(p, r.testSession) + [r];
      }
    }
  }

  function SumTotals(sessions: seq<Session>): nat
  {
    if |sessions| == 0 then 0 else SumTotals(sessions[..|sessions| - 1]) + sessions[|sessions| - 1].totalQuestions
  }

  lemma {:induction false} SumTotalsIsCountOver(rs: seq<Response>, keys: seq<string>, sessions: seq<Session>)
    requires |sessions| == |keys|
    requires forall i :: 0 <= i < |keys| ==> sessions[i].totalQuestions == |InSession(rs, keys[i])|
    ensures SumTotals(sessions) == CountOver(keys, rs)
  {
    if |keys| > 0 {
      SumTotalsIsCountOver(rs, keys[..|keys| - 1], sessions[..|sessions| - 1]);
    }
  }

  /** totalSessions counts the distinct ids, and the sessions' totals add up to totalResponses. */
  lemma ReportTotals(userId: string, rs: seq<Response>)
    ensures var report := UserReport(userId, rs);
            && report.totalSessions == |SessionKeys(rs)| == |report.sessions|
            && SumTotals(report.sessions) == report.totalResponses == |rs|
  {
    var report := UserReport(userId, rs);
    var keys := SessionKeys(rs);
    forall i | 0 <= i < |keys| ensures report.sessions[i].totalQuestions == |InSession(rs, keys[i])| {
      KeysAreSessions(rs, keys[i]);
    }
    SumTotalsIsCountOver(rs, keys, report.sessions);
    SessionsPartition(rs);
  }

  // ---------------------------------------------------- training statistics

  datatype TrainingStats = TrainingStats(
    trainingType: string,
    totalResponses: nat,
    totalUsers: nat,
    averageCompletion: int,
    averageQuality: int,
    completedCount: nat,
    recentResults: seq<Response>)

  const RecentLimit: nat := 10

  function UserIds(rs: seq<Response>): set<int>
  {
    set i | 0 <= i < |rs| :: rs[i].userId
  }

  /** `GET /training/:trainingType`, over the rows of that type, newest first. */
  function TrainingStatistics(trainingType: string, results: seq<Response>): (r: TrainingStats)
    ensures r.completedCount <= r.totalResponses == |results|
    ensures |r.recentResults| <= RecentLimit && |r.recentResults| <= |results|
    ensures r.recentResults == results[..|r.recentResults|]
    ensures |results| >= RecentLimit ==> |r.recentResults| == RecentLimit
  {
    TrainingStats(trainingType, |results|, |UserIds(results)|,
                  RoundedMean(SumCompletion(results), |results|),
                  RoundedMean(SumQuality(results), |results|),
                  CountCompleted(results),
                  if |results| <= RecentLimit then results else results[..RecentLimit])
  }

  lemma {:induction false} UserIdsBound(rs: seq<Response>)
    ensures |UserIds(rs)| <= |rs|
  {
    if |rs| > 0 {
      var p := rs[..|rs| - 1];
      UserIdsBound(p);
      assert UserIds(rs) == UserIds(p) + {rs[|rs| - 1].userId} by {
        forall x | x in UserIds(rs) ensures x in UserIds(p) + {rs[|rs| - 1].userId} {
          var i :| 0 <= i < |rs| && rs[i].userId == x;
          if i < |p| {
            assert p[i] == rs[i];
          }
        }
        forall x | x in UserIds(p) ensures x in UserIds(rs) {
          var i :| 0 <= i < |p| && p[i].userId == x;
          assert rs[i] == p[i];
        }
      }
    }
  }

  /** Distinct users never outnumber the responses, and there is a user whenever there is a response. */
  lemma UsersWithinResponses(trainingType: string, results: seq<Response>)
    ensures TrainingStatistics(trainingType, results).totalUsers <= |results|
    ensures |results| > 0 ==> TrainingStatistics(trainingType, results).totalUsers > 0
  {
    UserIdsBound(results);
    if |results| > 0 {
      assert results[0].userId in UserIds(results);
    }
  }

  // ------------------------------------------------------------------- CSV

  /** A CSV field as the export writes it: bare, or in double quotes. */
  datatype Field = Plain(text: string) | Quoted(text: string)

  /** `.replace(/"/g, '""')`. */
  function EscapeQuotes(s: string): (r: string)
    ensures |r| >= |s|
  {
    if |s| == 0 then "" else (if s[0] == '"' then "\"\"" else [s[0]]) + EscapeQuotes(s[1..])
  }

  function Render(f: Field): string
  {
    match f
    case Plain(t) => t
    case Quoted(t) => "\"" + EscapeQuotes(t) + "\""
  }

  function RenderAll(fs: seq<Field>): (r: seq<string>)
    ensures |r| == |fs|
  {
    if |fs| == 0 then [] else [Render(fs[0])] + RenderAll(fs[1..])
  }

  /** The values a record of these fields holds. */
  function Texts(fs: seq<Field>): (r: seq<string>)
    ensures |r| == |fs|
  {
    if |fs| == 0 then [] else [fs[0].text] + Texts(fs[1..])
  }

  /** The export's column titles, in order. */
  const CsvColumns: seq<string> :=
    ["Date", "User", "Email", "Training Type", "Lesson", "Question", "Response", "Completion %", "Quality %", "Feedback"]
  const CsvColumnCount: nat := 10
  const CsvHeaderLine: string := Join(CsvColumns, ",")
  const CsvHeader: string := CsvHeaderLine + "\n"

  /** The ten fields of one exported row; question, response and feedback are the quoted ones. */
  function CsvFields(r: Response): (fs: seq<Field>)
    ensures |fs| == CsvColumnCount
  {
    [Plain(r.createdAt), Plain(r.userName.GetOr("")), Plain(r.userEmail.GetOr("")), Plain(r.trainingType),
     Plain(r.lessonTitle.GetOr("")), Quoted(r.question), Quoted(r.userResponse.GetOr("")),
     Plain(IntToString(Completion(r))), Plain(IntToString(Quality(r))), Quoted(r.feedback.GetOr(""))]
  }

  function CsvRow(r: Response): string
  {
    Join(RenderAll(CsvFields(r)), ",")
  }

  function CsvRows(results: seq<Response>): (rows: seq<string>)
    ensures |rows| == |results| && forall i :: 0 <= i < |results| ==> rows[i] == CsvRow(results[i])
  {
    seq(|results|, i requires 0 <= i < |results| => CsvRow(results[i]))
  }

  /** `GET /export/csv`: the header line, then one line per row. */
  function ExportCsv(results: seq<Response>): string
  {
    CsvHeader + Join(CsvRows(results), "\n")
  }

  /** Reads a quoted field after its opening quote: the unescaped text and what follows the closing quote. */
  function ReadQuoted(s: string): (r: Option<(string, string)>)
    ensures r.Some? ==> |r.value.1| < |s|
    decreases |s|
  {
    if |s| == 0 then None
    else if s[0] == '"' then
      if |s| > 1 && s[1] == '"' then
        match ReadQuoted(s[2..])
        case None => None
        case Some(p) => Some(("\"" + p.0, p.1))
      else Some(("", s[1..]))
    else
      match ReadQuoted(s[1..])
      case None => None
      case Some(p) => Some(([s[0]] + p.0, p.1))
  }

  /** The index of the first ',' of `s`, or its length. */
  function FieldEnd(s: string): (n: nat)
    ensures n <= |s| && (forall i :: 0 <= i < n ==> s[i] != ',') && (n < |s| ==> s[n] == ',')
  {
    if |s| == 0 || s[0] == ',' then 0 else FieldEnd(s[1..]) + 1
  }

  /**
   * The fields of one record read as section 2 of RFC 4180 describes: a
   * field in double quotes may hold anything, with `""` for a quote, and
   * a bare field runs to the next comma. `None` for a malformed quote.
   */
  function ParseRecord(s: string): Option<seq<string>>
    decreases |s|
  {
    if |s| > 0 && s[0] == '"' then
      match ReadQuoted(s[1..])
      case None => None
      case Some(p) =>
        if p.1 == "" then Some([p.0])
        else if p.1[0] == ',' then
          match ParseRecord(p.1[1..])
          case None => None
          case Some(rest) => Some([p.0] + rest)
        else None
    else
      var n := FieldEnd(s);
      if n == |s| then Some([s])
      else
        match ParseRecord(s[n + 1..])
        case None => None
        case Some(rest) => Some([s[..n]] + rest)
  }

  /** Escaping, then a closing quote, reads back as the text itself. */
  lemma {:induction false} ReadEscaped(x: string, rest: string)
    requires rest == [] || rest[0] != '"'
    ensures ReadQuoted(EscapeQuotes(x) + "\"" + rest) == Some((x, rest))
  {
    var s := EscapeQuotes(x) + "\"" + rest;
    if |x| > 0 {
      ReadEscaped(x[1..], rest);
      var tail := EscapeQuotes(x[1..]) + "\"" + rest;
      if x[0] == '"' {
        assert s == "\"\"" + tail;
        assert s[2..] == tail;
      } else {
        assert s == [x[0]] + tail;
        assert s[1..] == tail;
      }
      assert [x[0]] + x[1..] == x;
    } else {
      assert s == "\"" + rest;
      assert s[1..] == rest;
    }
  }

  /** A bare field may hold neither a comma nor a double quote. */
  predicate SafePlain(f: Field)
  {
    f.Plain? ==> ',' !in f.text && '"' !in f.text
  }

  lemma {:induction false} FieldEndAt(t: string, tail: string)
    requires ',' !in t && (tail == [] || tail[0] == ',')
    ensures FieldEnd(t + tail) == |t|
  {
    if |t| > 0 {
      assert (t + tail)[0] == t[0];
      assert (t + tail)[1..] == t[1..] + tail;
      FieldEndAt(t[1..], tail);
    }
  }

  /** One field followed by the rest of a record renders as that field, a comma and the rest. */
  lemma JoinCons(fs: seq<Field>)
    requires |fs| >= 2
    ensures Join(RenderAll(fs), ",") == Render(fs[0]) + "," + Join(RenderAll(fs[1..]), ",")
  {
    assert RenderAll(fs)[1..] == RenderAll(fs[1..]);
  }

  /** A quoted field followed by nothing or by a comma reads back as its text. */
  lemma ParseQuotedHead(x: string, tail: string)
    requires tail == "" || tail[0] == ','
    ensures ParseRecord(Render(Quoted(x)) + tail) ==
              if tail == "" then Some([x])
              else match ParseRecord(tail[1..]) case None => None case Some(rest) => Some([x] + rest)
  {
    var s := Render(Quoted(x)) + tail;
    assert s == "\"" + (EscapeQuotes(x) + "\"" + tail);
    ReadEscaped(x, tail);
    assert s[1..] == EscapeQuotes(x) + "\"" + tail;
  }

  /** A safe bare field followed by nothing or by a comma reads back as its text. */
  lemma ParsePlainHead(t: string, tail: string)
    requires ',' !in t && '"' !in t && (tail == "" || tail[0] == ',')
    ensures ParseRecord(t + tail) ==
              if tail == "" then Some([t])
              else match ParseRecord(tail[1..]) case None => None case Some(rest) => Some([t] + rest)
  {
    var s := t + tail;
    FieldEndAt(t, tail);
    if |t| > 0 {
      assert s[0] == t[0];
    }
    if tail == "" {
      assert s == t;
    } else {
      assert s[0] != '"';
      assert s[..|t|] == t;
      assert s[|t| + 1..] == tail[1..];
    }
  }

  /** Any safe field followed by nothing or by a comma reads back as its text. */
  lemma ParseHead(f: Field, tail: string)
    requires SafePlain(f) && (tail == "" || tail[0] == ',')
    ensures ParseRecord(Render(f) + tail) ==
              if tail == "" then Some([f.text])
              else match ParseRecord(tail[1..]) case None => None case Some(rest) => Some([f.text] + rest)
  {
    match f
    case Quoted(x) => ParseQuotedHead(x, tail);
    case Plain(t) => ParsePlainHead(t, tail);
  }

  /** Writing the fields and reading them back gives their texts, whenever the bare ones are safe. */
  lemma {:induction false} RecordRoundTrip(fs: seq<Field>)
    requires |fs| >= 1 && forall i :: 0 <= i < |fs| ==> SafePlain(fs[i])
    ensures ParseRecord(Join(RenderAll(fs), ",")) == Some(Texts(fs))
    decreases |fs|
  {
    if |fs| == 1 {
      RecordOne(fs);
    } else {
      RecordRoundTrip(fs[1..]);
      RecordCons(fs);
    }
  }

  lemma RecordOne(fs: seq<Field>)
    requires |fs| == 1 && SafePlain(fs[0])
    ensures ParseRecord(Join(RenderAll(fs), ",")) == Some(Texts(fs))
  {
    ParseHead(fs[0], "");
    assert Join(RenderAll(fs), ",") == Render(fs[0]) + "";
    assert Texts(fs) == [fs[0].text];
  }

  lemma RecordCons(fs: seq<Field>)
    requires |fs| >= 2 && SafePlain(fs[0])
    requires ParseRecord(Join(RenderAll(fs[1..]), ",")) == Some(Texts(fs[1..]))
    ensures ParseRecord(Join(RenderAll(fs), ",")) == Some(Texts(fs))
  {
    JoinCons(fs);
    ParseHeadCons(fs[0], Join(RenderAll(fs[1..]), ","), Texts(fs[1..]));
    assert Texts(fs) == [fs[0].text] + Texts(fs[1..]);
  }

  lemma ParseHeadCons(f: Field, rest: string, texts: seq<string>)
    requires SafePlain(f) && ParseRecord(rest) == Some(texts)
    ensures ParseRecord(Render(f) + "," + rest) == Some([f.text] + texts)
  {
    ParseHead(f, "," + rest);
    assert ("," + rest)[1..] == rest;
    assert Render(f) + "," + rest == Render(f) + ("," + rest);
  }

  lemma IntToStringIsSafe(i: int)
    ensures ',' !in IntToString(i) && '"' !in IntToString(i)
  {
    var d := NatToString(if i < 0 then -i else i);
    assert forall j :: 0 <= j < |d| ==> d[j] != ',' && d[j] != '"';
    if i < 0 {
      assert IntToString(i) == "-" + d;
    }
  }

  /**
   * A row reads back as its ten values whenever the bare ones hold no
   * comma or quote; question, response and feedback may hold anything.
   */
  lemma CsvRowRoundTrip(r: Response)
    requires forall i :: 0 <= i < 5 ==> SafePlain(CsvFields(r)[i])
    ensures ParseRecord(CsvRow(r)) == Some(Texts(CsvFields(r)))
  {
    IntToStringIsSafe(Completion(r));
    IntToStringIsSafe(Quality(r));
    RecordRoundTrip(CsvFields(r));
  }

  /** The header names one column per field, and is a single line. */
  lemma HeaderIsOneLine()
    ensures |CsvColumns| == CsvColumnCount && '\n' !in CsvHeaderLine
  {
    JoinAvoids(CsvColumns, ",", '\n');
  }

  /** The export is the header line and then one line per row, when no value holds a line break. */
  lemma ExportLines(results: seq<Response>)
    requires |results| > 0
    requires forall i :: 0 <= i < |results| ==> '\n' !in CsvRow(results[i])
    ensures SplitOn(ExportCsv(results), '\n') == [CsvHeaderLine] + CsvRows(results)
  {
    var rows := CsvRows(results);
    var lines := [CsvHeaderLine] + rows;
    HeaderIsOneLine();
    assert lines[1..] == rows;
    assert ExportCsv(results) == Join(lines, "\n");
    SplitOnJoin(lines, '\n');
  }

  /**
   * The user name is written bare, so a comma in it splits it in two: the
   * row reads back as eleven values and every later value moves one
   * column to the right.
   */
  lemma CommaInNameShiftsColumns(r: Response, first: string, second: string)
    requires r.userName == Some(first + "," + second)
    requires SafePlain(Plain(first)) && SafePlain(Plain(second))
    requires SafePlain(CsvFields(r)[0]) && forall i :: 2 <= i < 5 ==> SafePlain(CsvFields(r)[i])
    ensures ParseRecord(CsvRow(r)).Some?
    ensures |ParseRecord(CsvRow(r)).value| == CsvColumnCount + 1
    ensures ParseRecord(CsvRow(r)).value[2] == second
  {
    var fs := CsvFields(r);
    var name := first + "," + second;
    var x := Join(RenderAll(fs[2..]), ",");
    IntToStringIsSafe(Completion(r));
    IntToStringIsSafe(Quality(r));
    JoinCons(fs);
    JoinCons(fs[1..]);
    assert fs[1..][1..] == fs[2..];
    RecordRoundTrip(fs[2..]);
    ParseSplitName(first, second, x, Texts(fs[2..]));
    ParseHeadCons(fs[0], name + "," + x, [first, second] + Texts(fs[2..]));
  }

  /** A bare `a,b` reads as the two values `a` and `b`. */
  lemma ParseSplitName(a: string, b: string, rest: string, texts: seq<string>)
    requires ',' !in a && '"' !in a && ',' !in b && '"' !in b
    requires ParseRecord(rest) == Some(texts)
    ensures ParseRecord(a + "," + b + "," + rest) == Some([a, b] + texts)
  {
    ParseHeadCons(Plain(b), rest, texts);
    ParseHeadCons(Plain(a), b + "," + rest, [b] + texts);
    assert a + "," + (b + "," + rest) == a + "," + b + "," + rest;
    assert [a] + ([b] + texts) == [a, b] + texts;
  }
}
