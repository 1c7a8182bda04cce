/**
 * The demo data every page starts from: one client, five users, two courses
 * with three videos, two quizzes, one track, two assignments, two progress
 * rows and one quiz attempt. The creation times, `new Date().toISOString()`
 * at load time, are the parameter `now`.
 */
module Seed {
  import opened Optional
  import opened Seqs
  import opened Entities

  function SeedClients(now: Timestamp): seq<Client> {
    [Client(1, "Acme Corp", "", "#1E3A8A", true, now)]
  }

  function SeedUsers(now: Timestamp): seq<User> {
    [ User(1, None, "super@airx.app", "Super", "Admin", SuperAdmin, true, now),
      User(2, Some(1), "admin@acme.com", "Alex", "Admin", ClientAdmin, true, now),
      User(3, Some(1), "lee@acme.com", "Lee", "Learner", Learner, true, now),
      User(4, Some(1), "pat@acme.com", "Pat", "Learner", Learner, true, now),
      User(5, Some(1), "sam@acme.com", "Sam", "Learner", Learner, true, now) ]
  }

  function SeedCourses(now: Timestamp): seq<Course> {
    [ Course(1, "AI Risk Foundations", "Basics of AI risk, governance, and safety.",
             "/ai-risk-foundations.jpg", 1, now),
      Course(2, "Responsible AI in Practice", "Everyday usage guidelines and controls.",
             "/responsible-ai-practice.jpg", 1, now) ]
  }

  function SeedVideos(now: Timestamp): seq<Video> {
    [ Video(1, 1, "Intro to AI Risks", "https://example.com/video1.mp4", 1, 300, now),
      Video(2, 1, "Risk Categories", "https://example.com/video2.mp4", 2, 420, now),
      Video(3, 2, "Golden Rule: Purpose-Data-Review", "https://example.com/video3.mp4", 1, 360, now) ]
  }

  function SeedQuizzes(now: Timestamp): seq<Quiz> {
    [Quiz(1, 1, 70, now), Quiz(2, 2, 80, now)]
  }

  function SeedQuestions(): seq<Question> {
    [ Question(1, 1, "Which is NOT an AI risk category?", ["Bias", "Hallucination", "Gravity"], 2,
               "Gravity isn't an AI risk."),
      Question(2, 2, "What are the 3 steps in the daily check?",
               ["Purpose-Data-Review", "Plan-Do-Check", "Collect-Share-Skip"], 0,
               "Purpose–Data–Review is AIRX's golden rule.") ]
  }

  function SeedTracks(now: Timestamp): seq<Track> {
    [Track(1, "AI Risk Awareness Track", "Foundational awareness for all employees.", now)]
  }

  function SeedTrackCourses(): seq<TrackCourse> {
    [TrackCourse(1, 1, 1), TrackCourse(1, 2, 2)]
  }

  function SeedAssignments(now: Timestamp): seq<Assignment> {
    [ Assignment(1, 1, 3, Some(1), None, 2, now, None),
      Assignment(2, 1, 4, None, Some(1), 2, now, None) ]
  }

  function SeedProgress(now: Timestamp): seq<Progress> {
    [ Progress(1, 3, 1, Some(1), 300, true, now),
      Progress(2, 3, 1, Some(2), 180, false, now) ]
  }

  function SeedAttempts(now: Timestamp): seq<QuizAttempt> {
    [QuizAttempt(1, 1, 3, 100, true, now)]
  }

  function SeedStore(now: Timestamp): Store {
    Store(SeedClients(now), SeedUsers(now), SeedCourses(now), SeedVideos(now), SeedQuizzes(now),
          SeedQuestions(), SeedTracks(now), SeedTrackCourses(), SeedAssignments(now),
          SeedProgress(now), SeedAttempts(now))
  }

  /** The only platform user is user 1, without a client; every other user belongs to client 1. */
  lemma SeedRoles(now: Timestamp)
    ensures forall u :: u in SeedUsers(now) ==> (u.role == SuperAdmin <==> u.id == 1)
    ensures forall u :: u in SeedUsers(now) && u.role == SuperAdmin ==> u.client_id == None
    ensures forall u :: u in SeedUsers(now) && u.role != SuperAdmin ==> u.client_id == Some(1)
  {
  }

  /** Course 1 has the first two seed videos, course 2 the third. */
  lemma SeedVideosByCourse(now: Timestamp)
    ensures VideosOf(SeedVideos(now), 1) == SeedVideos(now)[..2]
    ensures VideosOf(SeedVideos(now), 2) == SeedVideos(now)[2..]
  {
    var vs := SeedVideos(now);
    assert [vs[2]] + [] == [vs[2]];
    assert vs[1..] == [vs[1]] + [vs[2]];
    assert vs == [vs[0]] + vs[1..];
    VideosOfCons(vs[2], [], 1);
    VideosOfCons(vs[1], [vs[2]], 1);
    VideosOfCons(vs[0], vs[1..], 1);
    VideosOfCons(vs[2], [], 2);
    VideosOfCons(vs[1], [vs[2]], 2);
    VideosOfCons(vs[0], vs[1..], 2);
    assert VideosOf([], 1) == [] && VideosOf([], 2) == [];
    assert vs[..2] == [vs[0]] + ([vs[1]] + []);
  }

  /** Within each course the seed videos sit at positions 1..k: course 1 at 1 and 2, course 2 at 1. */
  lemma SeedVideoPositions(now: Timestamp)
    ensures PositionsSequential(SeedVideos(now))
  {
    SeedVideosByCourse(now);
  }

  /** Lee's attempt is marked passed, and 100 reaches quiz 1's threshold of 70. */
  lemma SeedAttemptPassed(now: Timestamp)
    ensures PassedAgreesWithThreshold(SeedAttempts(now), SeedQuizzes(now))
    ensures SeedAttempts(now)[0].passed && SeedQuizzes(now)[0].pass_threshold == 70
  {
  }

  /** Track 1 links course 1 at position 1 and course 2 at position 2. */
  lemma SeedTrackOne()
    ensures Filter(SeedTrackCourses(), (tc: TrackCourse) => tc.track_id == 1) ==
            [TrackCourse(1, 1, 1), TrackCourse(1, 2, 2)]
  {
  }

  /** No two seed users share an id. */
  lemma SeedUserIdsUnique(now: Timestamp)
    ensures UniqueBy(SeedUsers(now), (u: User) => u.id)
  {
  }

  /** No two seed records of one kind share an id. */
  lemma SeedIdsUnique(now: Timestamp)
    ensures var st := SeedStore(now);
      && UniqueBy(st.clients, (c: Client) => c.id)
      && UniqueBy(st.users, (u: User) => u.id)
      && UniqueBy(st.courses, (c: Course) => c.id)
      && UniqueBy(st.videos, (v: Video) => v.id)
      && UniqueBy(st.quizzes, (q: Quiz) => q.id)
      && UniqueBy(st.questions, (q: Question) => q.id)
      && UniqueBy(st.tracks, (t: Track) => t.id)
      && UniqueBy(st.assignments, (a: Assignment) => a.id)
      && UniqueBy(st.progress, (p: Progress) => p.id)
  {
    SeedUserIdsUnique(now);
  }

  /** Every seed assignment names exactly one of a course and a track. */
  lemma SeedAssignmentsHaveOneContent(now: Timestamp)
    ensures forall a :: a in SeedAssignments(now) ==> a.client_id == 1 && ExactlyOneContent(a)
  {
  }

  /** The seed records refer to one another consistently: roles, contents, answers, quizzes, progress rows. */
  lemma SeedReferencesValid(now: Timestamp)
    ensures var st := SeedStore(now);
      && (forall u :: u in st.users ==> RoleMatchesClient(u))
      && (forall a :: a in st.assignments ==> ExactlyOneContent(a))
      && (forall q :: q in st.questions ==> CorrectIndexValid(q))
      && OneQuizPerCourse(st.quizzes)
      && (forall p :: p in st.progress ==> ProgressVideoInCourse(p, st.videos))
      && OneRowPerUserVideo(st.progress)
  {
    SeedRoles(now);
    SeedAssignmentsHaveOneContent(now);
    var st := SeedStore(now);
    assert forall p :: p in st.progress ==> ProgressVideoInCourse(p, st.videos) by {
      assert st.videos[0] in st.videos && st.videos[1] in st.videos;
    }
  }

  /** The demo data satisfies every consistency rule of the data model. */
  lemma SeedWellFormed(now: Timestamp)
    ensures WellFormed(SeedStore(now))
  {
    SeedIdsUnique(now);
    SeedReferencesValid(now);
    SeedVideoPositions(now);
    SeedAttemptPassed(now);
  }
}
