/**
 * The learner's certificate page: the courses the learner has completed
 * anything of, the passed quiz attempts, their rounded average score and
 * the completion date printed on each certificate.
 */
module Certificates {
  import opened Optional
  import opened Seqs
  import opened Rounding
  import opened Entities
  import opened Seed
  import opened Metrics
  import opened Learner

  /** `(q) => q.user_id === user && q.passed`. */
  function PassedBy(user: Id): QuizAttempt -> bool {
    (q: QuizAttempt) => q.user_id == user && q.passed
  }

  /** The learner's passed attempts, in list order. */
  function PassedAttempts(attempts: seq<QuizAttempt>, user: Id): (r: seq<QuizAttempt>)
    ensures forall q :: q in r <==> q in attempts && q.user_id == user && q.passed
  {
    Filter(attempts, PassedBy(user))
  }

  /** `new Set(rows.filter((p) => p.completed).map((p) => p.course_id))`. */
  function CompletedCourseIds(rows: seq<Progress>): (r: set<Id>)
    ensures forall c :: c in r <==> exists p :: p in rows && p.completed && p.course_id == c
  {
    var done := Filter(rows, IsCompleted());
    var ids := Map(done, (p: Progress) => p.course_id);
    assert forall c :: c in ids <==> exists p :: p in rows && p.completed && p.course_id == c by {
      forall c ensures c in ids <==> exists p :: p in rows && p.completed && p.course_id == c {
        if c in ids {
          var k :| 0 <= k < |ids| && ids[k] == c;
          assert done[k] in done;
        }
        if exists p :: p in rows && p.completed && p.course_id == c {
          var p :| p in rows && p.completed && p.course_id == c;
          var k :| 0 <= k < |done| && done[k] == p;
          assert ids[k] == c;
        }
      }
    }
    ToSet(ids)
  }

  /**
   * The certified courses: every catalogue course of which the learner has
   * at least one completed row, in catalogue order; one completed video is
   * enough.
   */
  function CertifiedCourses(courses: seq<Course>, rows: seq<Progress>): (r: seq<Course>)
    ensures r == Filter(courses, CompletedIn(rows))
    ensures |r| <= |courses|
    ensures forall c :: c in r <==> c in courses && exists p :: p in rows && p.completed && p.course_id == c.id
  {
    var ids := CompletedCourseIds(rows);
    assert Filter(courses, (c: Course) => c.id in ids) == Filter(courses, CompletedIn(rows)) by {
      FilterCongruent(courses, (c: Course) => c.id in ids, CompletedIn(rows));
    }
    Filter(courses, (c: Course) => c.id in ids)
  }

  /** A course of which some row is completed. */
  function CompletedIn(rows: seq<Progress>): Course -> bool {
    (c: Course) => exists p :: p in rows && p.completed && p.course_id == c.id
  }

  /** A course is certified as soon as one of its videos is completed: the seed learner holds the certificate of a course whose card shows 50%. */
  lemma SeedCertificateAtHalfway(now: Timestamp)
    ensures var st := SeedStore(now);
            && st.courses[0] in CertifiedCourses(st.courses, UserProgress(st.progress, Lee))
            && CardFor(st.assignments[0], st, Lee).percent == 50
  {
    var st := SeedStore(now);
    SeedLeeHalfway(now);
    assert st.progress[0] in UserProgress(st.progress, Lee);
  }

  /** `(a) => a.score_percent`. */
  function Score(): QuizAttempt -> int {
    (q: QuizAttempt) => q.score_percent
  }

  /**
   * The "Average Score" card: the rounded mean of the scores, 0 without
   * attempts; it lies within the range of the scores.
   */
  function AverageScore(attempts: seq<QuizAttempt>): (r: int)
    ensures attempts == [] ==> r == 0
    ensures attempts != [] ==> 2 * |attempts| * r <= 2 * Sum(attempts, Score()) + |attempts| < 2 * |attempts| * (r + 1)
  {
    if |attempts| > 0 then RoundDiv(Sum(attempts, Score()), |attempts|) else 0
  }

  /** Scores between `lo` and `hi` average between `lo` and `hi`. */
  lemma AverageWithinScores(attempts: seq<QuizAttempt>, lo: int, hi: int)
    requires attempts != []
    requires forall q :: q in attempts ==> lo <= q.score_percent <= hi
    ensures lo <= AverageScore(attempts) <= hi
  {
    var n := |attempts|;
    SumBounds(attempts, Score(), lo, hi);
    RoundDivMonotone(n * lo, Sum(attempts, Score()), n);
    RoundDivMonotone(Sum(attempts, Score()), n * hi, n);
    RoundDivExact(lo, n);
    RoundDivExact(hi, n);
    assert n * lo == lo * n && n * hi == hi * n;
  }

  /**
   * Every passed attempt reaches its quiz's threshold, so the average of the
   * passed attempts reaches the lowest threshold among their quizzes.
   */
  lemma AveragePassedReachesThreshold(attempts: seq<QuizAttempt>, quizzes: seq<Quiz>, user: Id, floor: int)
    requires PassedAgreesWithThreshold(attempts, quizzes)
    requires forall q :: q in attempts ==> exists z :: z in quizzes && z.id == q.quiz_id && z.pass_threshold >= floor
    requires PassedAttempts(attempts, user) != []
    ensures AverageScore(PassedAttempts(attempts, user)) >= floor
  {
    var passed := PassedAttempts(attempts, user);
    var hi := Sum(passed, Score());
    forall q | q in passed ensures floor <= q.score_percent {
      var z :| z in quizzes && z.id == q.quiz_id && z.pass_threshold >= floor;
    }
    var n := |passed|;
    SumAtLeast(passed, Score(), floor);
    RoundDivMonotone(n * floor, hi, n);
    RoundDivExact(floor, n);
    assert n * floor == floor * n;
  }

  /** `(p) => p.course_id === c && p.completed`. */
  function CompletedOf(c: Id): Progress -> bool {
    (p: Progress) => p.course_id == c && p.completed
  }

  /**
   * The date printed on a certificate: the update time of the learner's
   * first completed row of the course, or `now` when there is none.
   */
  function CompletionDate(rows: seq<Progress>, c: Id, now: Timestamp): (r: Timestamp)
    ensures (forall p :: p in rows ==> !(p.course_id == c && p.completed)) ==> r == now
    ensures (exists p :: p in rows && p.course_id == c && p.completed) ==>
              exists i :: 0 <= i < |rows| && rows[i].course_id == c && rows[i].completed && r == rows[i].updated_at &&
                forall j :: 0 <= j < i ==> !(rows[j].course_id == c && rows[j].completed)
  {
    match Find(rows, CompletedOf(c))
    case Some(p) => p.updated_at
    case None => now
  }

  /** A certified course always has a completed row, so its certificate never falls back to `now`. */
  lemma CertifiedHasCompletionRow(courses: seq<Course>, rows: seq<Progress>, c: Course)
    requires c in CertifiedCourses(courses, rows)
    ensures Find(rows, CompletedOf(c.id)).Some?
  {
    var p :| p in rows && p.completed && p.course_id == c.id;
    assert CompletedOf(c.id)(p);
  }
}
