/**
 * The company analytics route (react-dashboard/backend/routes/analytics.js):
 * one entry per company user with that user's test results, newest first,
 * and the rounded average of the numeric scores. The two database queries
 * are parameters: the company's users, and the results of those users
 * ordered by creation time, newest first.
 */
module Analytics {
  import opened Wrappers
  import opened JsText
  import opened Collections

  datatype CompanyUser = CompanyUser(id: int, name: Option<string>, phone: Option<string>)

  /** A `TestResult` row; `scorePercentage` is `None` when it is not a number. */
  datatype TestResult = TestResult(
    userId: int,
    lessonId: Option<int>,
    question: string,
    isCorrect: bool,
    scorePercentage: Option<int>,
    createdAt: int)

  /** One element of an entry's `tests`. */
  datatype TestEntry = TestEntry(lessonId: Option<int>, question: string, correct: bool, score: Option<int>, at: int)

  /** One element of `byUser`; `avg` is `None` for null. */
  datatype UserStats = UserStats(userId: int, name: Option<string>, phone: Option<string>, tests: seq<TestEntry>, avg: Option<int>)

  function EntryOf(r: TestResult): TestEntry
  {
    TestEntry(r.lessonId, r.question, r.isCorrect, r.scorePercentage, r.createdAt)
  }

  /** The entries of one user's results, in the order of the list. */
  function TestsOf(results: seq<TestResult>, id: int): seq<TestEntry>
  {
    if |results| == 0 then []
    else
      var last := results[|results| - 1];
      TestsOf(results[..|results| - 1], id) + (if last.userId == id then [EntryOf(last)] else [])
  }

  /** `tests.map(t => t.score).filter(s => typeof s === 'number')`. */
  function Scores(tests: seq<TestEntry>): seq<int>
  {
    if |tests| == 0 then []
    else
      var last := tests[|tests| - 1];
      Scores(tests[..|tests| - 1]) + (if last.score.Some? then [last.score.value] else [])
  }

  function Sum(xs: seq<int>): int
  {
    if |xs| == 0 then 0 else Sum(xs[..|xs| - 1]) + xs[|xs| - 1]
  }

  /** `scores.length ? Math.round(sum / scores.length) : null`. */
  function Average(tests: seq<TestEntry>): (r: Option<int>)
    ensures r.None? <==> |Scores(tests)| == 0
  {
    var scores := Scores(tests);
    if |scores| > 0 then Some(Round(Sum(scores) as real / |scores| as real)) else None
  }

  /** The ids of the company's users. */
  function Ids(users: seq<CompanyUser>): set<int>
  {
    if |users| == 0 then {} else Ids(users[..|users| - 1]) + {users[|users| - 1].id}
  }

  /** The user whose entry holds an id: the last one listed with it, since a later assignment replaces an earlier. */
  function Latest(users: seq<CompanyUser>, id: int): (u: CompanyUser)
    requires id in Ids(users)
    ensures u.id == id
  {
    if users[|users| - 1].id == id then users[|users| - 1] else Latest(users[..|users| - 1], id)
  }

  /** `byUser[u.id]` as the first loop creates it. */
  function Blank(u: CompanyUser): UserStats
  {
    UserStats(u.id, u.name, u.phone, [], None)
  }

  /** An entry after the second loop: its user's results pushed in list order. */
  function Collected(users: seq<CompanyUser>, results: seq<TestResult>, id: int): UserStats
    requires id in Ids(users)
  {
    Blank(Latest(users, id)).(tests := TestsOf(results, id))
  }

  /** An entry after the third loop: its average filled in. */
  function Final(users: seq<CompanyUser>, results: seq<TestResult>, id: int): UserStats
    requires id in Ids(users)
  {
    var s := Collected(users, results, id);
    s.(avg := Average(s.tests))
  }

  /** `byUser` after the first loop. */
  function Blanks(users: seq<CompanyUser>): map<int, UserStats>
  {
    map id | id in Ids(users) :: Blank(Latest(users, id))
  }

  /** `byUser` while the second loop runs, over the results seen so far. */
  function CollectedMap(users: seq<CompanyUser>, results: seq<TestResult>): map<int, UserStats>
  {
    map id | id in Ids(users) :: Collected(users, results, id)
  }

  /** `byUser` while the third loop runs: the entries in `done` have their average. */
  function Averaged(users: seq<CompanyUser>, results: seq<TestResult>, done: set<int>): map<int, UserStats>
  {
    map id | id in Ids(users) :: if id in done then Final(users, results, id) else Collected(users, results, id)
  }

  /** The entries the route sends, by user id. */
  function Report(users: seq<CompanyUser>, results: seq<TestResult>): map<int, UserStats>
  {
    map id | id in Ids(users) :: Final(users, results, id)
  }

  // ------------------------------------------------------------ loop steps

  lemma BlanksStep(p: seq<CompanyUser>, u: CompanyUser)
    ensures Blanks(p + [u]) == Blanks(p)[u.id := Blank(u)]
  {
    var q := p + [u];
    assert q[..|p|] == p;
    assert Ids(q) == Ids(p) + {u.id};
    MapUpdated(Blanks(q), Blanks(p), u.id, Blank(u));
  }

  lemma TestsOfSnoc(q: seq<TestResult>, r: TestResult, id: int)
    ensures TestsOf(q + [r], id) == TestsOf(q, id) + (if r.userId == id then [EntryOf(r)] else [])
  {
    assert (q + [r])[..|q|] == q;
  }

  lemma CollectedNone(users: seq<CompanyUser>)
    ensures CollectedMap(users, []) == Blanks(users)
  {
    forall id | id in Ids(users) ensures Collected(users, [], id) == Blank(Latest(users, id)) {
    }
  }

  lemma CollectedStep(users: seq<CompanyUser>, q: seq<TestResult>, r: TestResult)
    ensures r.userId !in Ids(users) ==> CollectedMap(users, q + [r]) == CollectedMap(users, q)
    ensures r.userId in Ids(users) ==>
              var prev := CollectedMap(users, q)[r.userId];
              CollectedMap(users, q + [r]) ==
                CollectedMap(users, q)[r.userId := prev.(tests := prev.tests + [EntryOf(r)])]
  {
    var before, after := CollectedMap(users, q), CollectedMap(users, q + [r]);
    forall id | id in Ids(users) ensures after[id] == before[id].(tests := TestsOf(q + [r], id)) {
      TestsOfSnoc(q, r, id);
    }
    forall id | id in Ids(users) && id != r.userId ensures after[id] == before[id] {
      TestsOfSnoc(q, r, id);
    }
    if r.userId in Ids(users) {
      TestsOfSnoc(q, r, r.userId);
      var s := before[r.userId];
      MapUpdated(after, before, r.userId, s.(tests := s.tests + [EntryOf(r)]));
    }
  }

  lemma AveragedStep(users: seq<CompanyUser>, results: seq<TestResult>, done: set<int>, id: int)
    requires id in Ids(users) && id !in done
    ensures var s := Averaged(users, results, done)[id];
            && s == Collected(users, results, id)
            && Averaged(users, results, done + {id}) ==
                 Averaged(users, results, done)[id := s.(avg := Average(s.tests))]
  {
    var before, after := Averaged(users, results, done), Averaged(users, results, done + {id});
    MapUpdated(after, before, id, Final(users, results, id));
  }

  /** The first loop: an empty entry for every company user. */
  method CreateEntries(users: seq<CompanyUser>) returns (byUser: map<int, UserStats>)
    ensures byUser == Blanks(users)
  {
    byUser := map[];
    for i := 0 to |users|
      invariant byUser == Blanks(users[..i])
    {
      var u := users[i];
      assert users[..i + 1] == users[..i] + [u];
      BlanksStep(users[..i], u);
      byUser := byUser[u.id := Blank(u)];
    }
    assert users[..|users|] == users;
  }

  /** The second loop: each result pushed onto its user's entry, results of unknown users skipped. */
  method CollectResults(users: seq<CompanyUser>, results: seq<TestResult>, entries: map<int, UserStats>)
    returns (byUser: map<int, UserStats>)
    requires entries == Blanks(users)
    ensures byUser == CollectedMap(users, results)
  {
    byUser := entries;
    CollectedNone(users);
    for i := 0 to |results|
      invariant byUser == CollectedMap(users, results[..i])
    {
      var r := results[i];
      assert results[..i + 1] == results[..i] + [r];
      CollectedStep(users, results[..i], r);
      if r.userId in byUser {
        var s := byUser[r.userId];
        byUser := byUser[r.userId := s.(tests := s.tests + [EntryOf(r)])];
      }
    }
    assert results[..|results|] == results;
  }

  /** The third loop: every entry gets its average. */
  method FillAverages(users: seq<CompanyUser>, results: seq<TestResult>, collected: map<int, UserStats>)
    returns (byUser: map<int, UserStats>)
    requires collected == CollectedMap(users, results)
    ensures byUser == Report(users, results)
  {
    byUser := collected;
    var remaining := byUser.Keys;
    assert byUser == Averaged(users, results, {});
    while remaining != {}
      invariant remaining <= Ids(users)
      invariant byUser == Averaged(users, results, Ids(users) - remaining)
      decreases remaining
    {
      var id :| id in remaining;
      AveragedStep(users, results, Ids(users) - remaining, id);
      var s := byUser[id];
      byUser := byUser[id := s.(avg := Average(s.tests))];
      assert Ids(users) - (remaining - {id}) == (Ids(users) - remaining) + {id};
      remaining := remaining - {id};
    }
    assert Averaged(users, results, Ids(users)) == Report(users, results);
  }

  /** `GET /company/:companyId/users`, given the company's users and their results, newest first. */
  method CompanyUserStats(users: seq<CompanyUser>, results: seq<TestResult>) returns (byUser: map<int, UserStats>)
    ensures byUser == Report(users, results)
  {
    byUser := CreateEntries(users);
    byUser := CollectResults(users, results, byUser);
    byUser := FillAverages(users, results, byUser);
  }

  // ------------------------------------------------------------ properties

  lemma {:induction false} IdsListed(users: seq<CompanyUser>)
    ensures forall id :: id in Ids(users) <==> exists i :: 0 <= i < |users| && users[i].id == id
  {
    if |users| > 0 {
      var p := users[..|users| - 1];
      IdsListed(p);
      forall id | id in Ids(users) ensures exists i :: 0 <= i < |users| && users[i].id == id {
        if id in Ids(p) {
          var i :| 0 <= i < |p| && p[i].id == id;
          assert users[i] == p[i];
        }
      }
      forall i | 0 <= i < |users| ensures users[i].id in Ids(users) {
        if i < |p| {
          assert p[i] == users[i];
        }
      }
    }
  }

  /** Every company user has exactly one entry, under its own id, and there are no other entries. */
  lemma OneEntryPerUser(users: seq<CompanyUser>, results: seq<TestResult>)
    ensures forall i :: 0 <= i < |users| ==>
              users[i].id in Report(users, results) && Report(users, results)[users[i].id].userId == users[i].id
    ensures forall id :: id in Report(users, results) ==> exists i :: 0 <= i < |users| && users[i].id == id
  {
    IdsListed(users);
  }

  /** A result of a user outside the company changes nothing. */
  lemma OutsidersSkipped(users: seq<CompanyUser>, results: seq<TestResult>, r: TestResult)
    requires r.userId !in Ids(users)
    ensures Report(users, results + [r]) == Report(users, results)
  {
    forall id | id in Ids(users) ensures Report(users, results + [r])[id] == Report(users, results)[id] {
      TestsOfSnoc(results, r, id);
      assert TestsOf(results + [r], id) == TestsOf(results, id);
      assert Collected(users, results + [r], id) == Collected(users, results, id);
    }
  }

  lemma ScoresSnoc(tests: seq<TestEntry>, t: TestEntry)
    ensures Scores(tests + [t]) == Scores(tests) + (if t.score.Some? then [t.score.value] else [])
  {
    assert (tests + [t])[..|tests|] == tests;
  }

  lemma {:induction false} ScoresOfTests(results: seq<TestResult>, id: int, lo: int, hi: int)
    requires forall j :: 0 <= j < |results| && results[j].scorePercentage.Some? ==>
               lo <= results[j].scorePercentage.value <= hi
    ensures forall k :: 0 <= k < |Scores(TestsOf(results, id))| ==> lo <= Scores(TestsOf(results, id))[k] <= hi
  {
    if |results| > 0 {
      var p := results[..|results| - 1];
      var last := results[|results| - 1];
      ScoresOfTests(p, id, lo, hi);
      if last.userId == id {
        assert TestsOf(results, id) == TestsOf(p, id) + [EntryOf(last)];
        ScoresSnoc(TestsOf(p, id), EntryOf(last));
      } else {
        assert TestsOf(results, id) == TestsOf(p, id);
      }
    }
  }

  lemma {:induction false} SumBounds(xs: seq<int>, lo: int, hi: int)
    requires forall k :: 0 <= k < |xs| ==> lo <= xs[k] <= hi
    ensures lo * |xs| <= Sum(xs) <= hi * |xs|
  {
    if |xs| > 0 {
      var n := |xs| - 1;
      SumBounds(xs[..n], lo, hi);
      assert lo * |xs| == lo * n + lo && hi * |xs| == hi * n + hi;
    }
  }

  /** The exact mean of `n` values each within `lo..hi` is within `lo..hi`. */
  lemma ExactMeanWithin(total: int, n: nat, lo: int, hi: int)
    requires n > 0 && lo * n <= total <= hi * n
    ensures lo as real <= total as real / n as real <= hi as real
  {
    var t, k := total as real, n as real;
    assert lo as real * k <= t <= hi as real * k;
    assert (t / k) * k == t;
  }

  lemma MeanWithin(total: int, n: nat, lo: int, hi: int)
    requires n > 0 && lo * n <= total <= hi * n
    ensures lo <= Round(total as real / n as real) <= hi
  {
    ExactMeanWithin(total, n, lo, hi);
    var r := Round(total as real / n as real);
    assert lo as real - 1.0 / 2.0 < r as real <= hi as real + 1.0 / 2.0;
  }

  /**
   * The average is null exactly when the user has no numeric score, and
   * otherwise lies between the lowest and highest score allowed: a
   * percentage average stays within 0..100.
   */
  lemma AverageOfScores(users: seq<CompanyUser>, results: seq<TestResult>, id: int, lo: int, hi: int)
    requires id in Ids(users)
    requires forall j :: 0 <= j < |results| && results[j].scorePercentage.Some? ==>
               lo <= results[j].scorePercentage.value <= hi
    ensures var e := Report(users, results)[id];
            && e.tests == TestsOf(results, id)
            && (e.avg.None? <==> |Scores(e.tests)| == 0)
            && (e.avg.Some? ==> lo <= e.avg.value <= hi)
  {
    var tests := TestsOf(results, id);
    var scores := Scores(tests);
    if |scores| > 0 {
      ScoresOfTests(results, id, lo, hi);
      SumBounds(scores, lo, hi);
      MeanWithin(Sum(scores), |scores|, lo, hi);
    }
  }

  predicate NewestFirst(results: seq<TestResult>)
  {
    forall i, j :: 0 <= i < j < |results| ==> results[i].createdAt >= results[j].createdAt
  }

  predicate TestsNewestFirst(tests: seq<TestEntry>)
  {
    forall i, j :: 0 <= i < j < |tests| ==> tests[i].at >= tests[j].at
  }

  lemma {:induction false} TestsNotBefore(results: seq<TestResult>, id: int, bound: int)
    requires forall j :: 0 <= j < |results| ==> results[j].createdAt >= bound
    ensures forall k :: 0 <= k < |TestsOf(results, id)| ==> TestsOf(results, id)[k].at >= bound
  {
    if |results| > 0 {
      var p := results[..|results| - 1];
      TestsNotBefore(p, id, bound);
      var t := TestsOf(results, id);
      if results[|results| - 1].userId == id {
        assert t[..|t| - 1] == TestsOf(p, id);
      }
    }
  }

  /** A user's tests keep the newest-first order of the results. */
  lemma {:induction false} TestsKeepOrder(results: seq<TestResult>, id: int)
    requires NewestFirst(results)
    ensures TestsNewestFirst(TestsOf(results, id))
  {
    if |results| > 0 {
      var p := results[..|results| - 1];
      var last := results[|results| - 1];
      assert NewestFirst(p);
      TestsKeepOrder(p, id);
      if last.userId == id {
        TestsNotBefore(p, id, last.createdAt);
        var t := TestsOf(results, id);
        assert t == TestsOf(p, id) + [EntryOf(last)];
      }
    }
  }
}
