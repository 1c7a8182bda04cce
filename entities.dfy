/**
 * The record types of the learning platform (clients, users, courses,
 * videos, quizzes, questions, attempts, tracks, track-course links,
 * assignments and progress rows) and the consistency rules a store of them
 * is meant to satisfy.
 */
module Entities {
  import opened Optional
  import opened Seqs

  /** Record ids. The source always builds them as `String(k)` for a counter `k`, so the natural `k` stands for the id. */
  type Id = nat

  /** An ISO timestamp, treated as an opaque value. */
  type Timestamp = string

  datatype Role = SuperAdmin | ClientAdmin | Learner

  /** A tenant organisation. */
  datatype Client = Client(id: Id, name: string, logo_url: string, primary_color: string,
                           is_active: bool, created_at: Timestamp)

  /** A platform user; `client_id` is None for platform-level users. */
  datatype User = User(id: Id, client_id: Option<Id>, email: string, first_name: string,
                       last_name: string, role: Role, is_active: bool, created_at: Timestamp)

  datatype Course = Course(id: Id, title: string, description: string, thumbnail_url: string,
                           created_by: Id, created_at: Timestamp)

  /** A video of a course; `position` orders the course's videos from 1. */
  datatype Video = Video(id: Id, course_id: Id, title: string, url: string, position: int,
                         duration_seconds: int, created_at: Timestamp)

  datatype Quiz = Quiz(id: Id, course_id: Id, pass_threshold: int, created_at: Timestamp)

  datatype Question = Question(id: Id, quiz_id: Id, prompt: string, options: seq<string>,
                               correct_index: int, explanation: string)

  datatype QuizAttempt = QuizAttempt(id: Id, quiz_id: Id, user_id: Id, score_percent: int,
                                     passed: bool, attempted_at: Timestamp)

  /** An ordered bundle of courses. */
  datatype Track = Track(id: Id, title: string, description: string, created_at: Timestamp)

  /** Links a course into a track at a position. */
  datatype TrackCourse = TrackCourse(track_id: Id, course_id: Id, position: int)

  /** "This user owes this course or this track." */
  datatype Assignment = Assignment(id: Id, client_id: Id, user_id: Id, course_id: Option<Id>,
                                   track_id: Option<Id>, assigned_by: Id, assigned_at: Timestamp,
                                   due_at: Option<Timestamp>)

  /** One user's watch record for one video of a course. */
  datatype Progress = Progress(id: Id, user_id: Id, course_id: Id, video_id: Option<Id>,
                               watched_seconds: int, completed: bool, updated_at: Timestamp)

  /** All collections together. */
  datatype Store = Store(clients: seq<Client>, users: seq<User>, courses: seq<Course>,
                         videos: seq<Video>, quizzes: seq<Quiz>, questions: seq<Question>,
                         tracks: seq<Track>, trackCourses: seq<TrackCourse>,
                         assignments: seq<Assignment>, progress: seq<Progress>,
                         attempts: seq<QuizAttempt>)

  /** No two records of `s` share a key. */
  predicate UniqueBy<T(!new)>(s: seq<T>, key: T -> Id) {
    forall i, j :: 0 <= i < j < |s| ==> key(s[i]) != key(s[j])
  }

  /** Filtering keeps keys unique. */
  lemma {:induction false} FilterUniqueBy<T(!new)>(s: seq<T>, key: T -> Id, p: T -> bool)
    requires UniqueBy(s, key)
    ensures UniqueBy(Filter(s, p), key)
  {
    if s != [] {
      assert UniqueBy(s[1..], key) by {
        forall i, j | 0 <= i < j < |s[1..]| ensures key(s[1..][i]) != key(s[1..][j]) {
          assert s[1..][i] == s[i + 1] && s[1..][j] == s[j + 1];
        }
      }
      FilterUniqueBy(s[1..], key, p);
      var rest := Filter(s[1..], p);
      if p(s[0]) {
        forall i, j | 0 <= i < j < |[s[0]] + rest| ensures key(([s[0]] + rest)[i]) != key(([s[0]] + rest)[j]) {
          if i == 0 {
            var y := rest[j - 1];
            assert y in s[1..];
            var k :| 0 <= k < |s[1..]| && s[1..][k] == y;
            assert s[k + 1] == y;
          }
        }
      }
    }
  }

  /** Platform users have no client; client admins and learners have one. */
  predicate RoleMatchesClient(u: User) {
    (u.role == SuperAdmin) == u.client_id.None?
  }

  /** Exactly one of `course_id` and `track_id` is set. */
  predicate ExactlyOneContent(a: Assignment) {
    a.course_id.Some? != a.track_id.Some?
  }

  /** `(v) => v.course_id === c`. */
  function OfCourse(c: Id): Video -> bool {
    (v: Video) => v.course_id == c
  }

  /** `videos.filter((v) => v.course_id === c)`: the videos of course `c`, in list order. */
  function VideosOf(videos: seq<Video>, c: Id): (r: seq<Video>)
    ensures forall v :: v in r <==> v in videos && v.course_id == c
  {
    Filter(videos, OfCourse(c))
  }

  /** Taking the videos of a course one video at a time. */
  lemma VideosOfCons(v: Video, s: seq<Video>, c: Id)
    ensures VideosOf([v] + s, c) == (if v.course_id == c then [v] else []) + VideosOf(s, c)
  {
    assert ([v] + s)[0] == v && ([v] + s)[1..] == s;
  }

  /**
   * Within each course the video positions are distinct and lie in 1..k, k
   * the number of the course's videos; so they are exactly 1..k.
   */
  predicate PositionsSequential(videos: seq<Video>) {
    && (forall i :: 0 <= i < |videos| ==> 1 <= videos[i].position <= |VideosOf(videos, videos[i].course_id)|)
    && (forall i, j :: 0 <= i < j < |videos| && videos[i].course_id == videos[j].course_id ==>
                        videos[i].position != videos[j].position)
  }

  /** The correct option is one of the options. */
  predicate CorrectIndexValid(q: Question) {
    0 <= q.correct_index < |q.options|
  }

  /** Each course has at most one quiz. */
  predicate OneQuizPerCourse(quizzes: seq<Quiz>) {
    forall i, j :: 0 <= i < j < |quizzes| ==> quizzes[i].course_id != quizzes[j].course_id
  }

  /** An attempt is passed exactly when its score reaches its quiz's threshold. */
  predicate PassedAgreesWithThreshold(attempts: seq<QuizAttempt>, quizzes: seq<Quiz>) {
    forall a, q :: a in attempts && q in quizzes && q.id == a.quiz_id ==>
      a.passed == (a.score_percent >= q.pass_threshold)
  }

  /** A progress row's video belongs to the row's course. */
  predicate ProgressVideoInCourse(p: Progress, videos: seq<Video>) {
    p.video_id.Some? ==> exists v :: v in videos && v.id == p.video_id.value && v.course_id == p.course_id
  }

  /** One progress row per user and video. */
  predicate OneRowPerUserVideo(progress: seq<Progress>) {
    forall i, j :: 0 <= i < j < |progress| && progress[i].user_id == progress[j].user_id ==>
      progress[i].video_id.None? || progress[i].video_id != progress[j].video_id
  }

  /** A course appears in a track at most once. */
  predicate TrackCoursePairsUnique(links: seq<TrackCourse>) {
    forall i, j :: 0 <= i < j < |links| && links[i].track_id == links[j].track_id ==>
      links[i].course_id != links[j].course_id
  }

  /** The consistency rules of the data model. */
  predicate WellFormed(st: Store) {
    && UniqueBy(st.clients, (c: Client) => c.id)
    && UniqueBy(st.users, (u: User) => u.id)
    && UniqueBy(st.courses, (c: Course) => c.id)
    && UniqueBy(st.videos, (v: Video) => v.id)
    && UniqueBy(st.quizzes, (q: Quiz) => q.id)
    && UniqueBy(st.questions, (q: Question) => q.id)
    && UniqueBy(st.tracks, (t: Track) => t.id)
    && UniqueBy(st.assignments, (a: Assignment) => a.id)
    && UniqueBy(st.progress, (p: Progress) => p.id)
    && (forall u :: u in st.users ==> RoleMatchesClient(u))
    && (forall a :: a in st.assignments ==> ExactlyOneContent(a))
    && PositionsSequential(st.videos)
    && (forall q :: q in st.questions ==> CorrectIndexValid(q))
    && OneQuizPerCourse(st.quizzes)
    && PassedAgreesWithThreshold(st.attempts, st.quizzes)
    && (forall p :: p in st.progress ==> ProgressVideoInCourse(p, st.videos))
    && OneRowPerUserVideo(st.progress)
    && TrackCoursePairsUnique(st.trackCourses)
  }
}
