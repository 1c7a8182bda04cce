/**
 * The learner's dashboard and "My Courses" page, both computed for the
 * logged-in learner from the store: the headline counts, one card per
 * assignment (a course card with its video progress, or a track card with
 * its courses), the recent-activity list and the `cn` class-name helper.
 */
module Learner {
  import opened Optional
  import opened Seqs
  import opened Text
  import opened Rounding
  import opened Entities
  import opened Seed
  import opened Metrics
  import Assignments
  import Courses

  /** Both pages show the data of Lee Learner, user 3. */
  const Lee: Id := 3

  /** The headline cards: assigned, in progress, completed and the overall percentage. */
  datatype Headline = Headline(assignedCount: nat, inProgress: nat, completed: nat, overall: nat)

  /**
   * The dashboard's headline for `user`: in-progress and completed rows
   * together are the user's rows, and the overall percentage is the rounded
   * share of completed rows.
   */
  function DashboardHeadline(st: Store, user: Id): (r: Headline)
    ensures r.assignedCount == |Assignments.UserAssignments(st.assignments, user)|
    ensures r.inProgress + r.completed == |UserProgress(st.progress, user)|
    ensures r.overall <= 100
    ensures r.overall == CompletionRate(UserProgress(st.progress, user))
  {
    var rows := UserProgress(st.progress, user);
    OpenAndCompletedPartition(rows);
    Headline(|Assignments.UserAssignments(st.assignments, user)|, OpenCount(rows), CompletedCount(rows),
             CompletionRate(rows))
  }

  /** `(p) => p.course_id === c`. */
  function RowOfCourse(c: Id): Progress -> bool {
    (p: Progress) => p.course_id == c
  }

  /** The user's completed rows of course `c`. */
  function CompletedRows(progress: seq<Progress>, user: Id, c: Id): (r: seq<Progress>)
    ensures forall p :: p in r <==> p in progress && p.user_id == user && p.course_id == c && p.completed
  {
    Filter(Filter(UserProgress(progress, user), RowOfCourse(c)), IsCompleted())
  }

  /** `mockTracks.find((t) => t.id === id)`. */
  function FindTrack(tracks: seq<Track>, id: Id): (r: Option<Track>)
    ensures r.Some? <==> exists t :: t in tracks && t.id == id
    ensures r.Some? ==> r.value in tracks && r.value.id == id
  {
    Find(tracks, (t: Track) => t.id == id)
  }

  /** The course an assignment names, when it names one that exists. */
  function AssignedCourse(a: Assignment, courses: seq<Course>): (r: Option<Course>)
    ensures r.Some? <==> a.course_id.Some? && exists c :: c in courses && c.id == a.course_id.value
    ensures r.Some? ==> r.value in courses && r.value.id == a.course_id.value
  {
    if a.course_id.Some? then FindCourse(courses, a.course_id.value) else None
  }

  /** The track an assignment names, when it names one that exists. */
  function AssignedTrack(a: Assignment, tracks: seq<Track>): (r: Option<Track>)
    ensures r.Some? <==> a.track_id.Some? && exists t :: t in tracks && t.id == a.track_id.value
    ensures r.Some? ==> r.value in tracks && r.value.id == a.track_id.value
  {
    if a.track_id.Some? then FindTrack(tracks, a.track_id.value) else None
  }

  /** A card of the assignment grid. */
  datatype Card =
    | CourseCard(course: Course, completed: nat, total: nat, percent: nat, seconds: int)
    | TrackCard(track: Track, courses: seq<Course>)
    | NoCard

  /**
   * The card both pages render for an assignment: a course card when its
   * course exists, otherwise a track card when its track exists, otherwise
   * nothing. A course card counts the learner's completed rows of the course
   * against the course's videos; a track card lists the catalogue courses
   * linked to the track, in catalogue order.
   */
  function CardFor(a: Assignment, st: Store, user: Id): (r: Card)
    ensures r.CourseCard? <==> AssignedCourse(a, st.courses).Some?
    ensures r.TrackCard? <==> AssignedCourse(a, st.courses).None? && AssignedTrack(a, st.tracks).Some?
    ensures r.CourseCard? ==>
              && r.course.id == a.course_id.value && r.course in st.courses
              && r.total == |VideosOf(st.videos, r.course.id)|
              && r.completed == |CompletedRows(st.progress, user, r.course.id)|
              && r.percent == CoursePercent(r.completed, r.total)
              && r.seconds == Sum(VideosOf(st.videos, r.course.id), (v: Video) => v.duration_seconds)
    ensures r.TrackCard? ==>
              && r.track.id == a.track_id.value && r.track in st.tracks
              && r.courses == Filter(st.courses, LinkedTo(st.trackCourses, r.track.id))
  {
    match AssignedCourse(a, st.courses)
    case Some(course) =>
      var total := |VideosOf(st.videos, course.id)|;
      var completed := |CompletedRows(st.progress, user, course.id)|;
      CourseCard(course, completed, total, CoursePercent(completed, total),
                 Sum(VideosOf(st.videos, course.id), (v: Video) => v.duration_seconds))
    case None =>
      match AssignedTrack(a, st.tracks)
      case Some(track) => TrackCard(track, TrackCoursesByMembership(st.trackCourses, st.courses, track.id))
      case None => NoCard
  }

  /** In a well-formed store every assignment has a card unless its content is missing from the catalogue. */
  lemma CardUnlessContentMissing(a: Assignment, st: Store, user: Id)
    requires ExactlyOneContent(a)
    ensures CardFor(a, st, user) == NoCard <==>
              (a.course_id.Some? && forall c :: c in st.courses ==> c.id != a.course_id.value) ||
              (a.track_id.Some? && forall t :: t in st.tracks ==> t.id != a.track_id.value)
  {
  }

  /** `(a, b) => a.video_id === null || a.video_id !== b.video_id`. */
  function DistinctVideo(): (Progress, Progress) -> bool {
    (a: Progress, b: Progress) => a.video_id.None? || a.video_id != b.video_id
  }

  /**
   * With one row per user and video, every completed row naming a video of
   * its course, a learner's completed rows of a course are no more than the
   * course's videos.
   */
  lemma CompletedRowsBounded(st: Store, user: Id, c: Id)
    requires OneRowPerUserVideo(st.progress)
    requires forall p :: p in st.progress ==> ProgressVideoInCourse(p, st.videos)
    requires forall p :: p in st.progress && p.user_id == user && p.course_id == c && p.completed ==> p.video_id.Some?
    ensures |CompletedRows(st.progress, user, c)| <= |VideosOf(st.videos, c)|
  {
    var rel := DistinctVideo();
    var mine := UserProgress(st.progress, user);
    FilterPairwise(st.progress, OfUser(user), rel);
    var ofCourse := Filter(mine, RowOfCourse(c));
    FilterPairwise(mine, RowOfCourse(c), rel);
    var done := Filter(ofCourse, IsCompleted());
    FilterPairwise(ofCourse, IsCompleted(), rel);
    var course := VideosOf(st.videos, c);
    var ids := Map(course, (v: Video) => Some(v.id));
    forall p | p in done ensures p.video_id in ids {
      var v :| v in st.videos && v.id == p.video_id.value && v.course_id == c;
      var k :| 0 <= k < |course| && course[k] == v;
      assert ids[k] == Some(v.id);
    }
    DistinctKeysBounded(done, (p: Progress) => p.video_id, ids);
  }

  /** Under the same rules a course card never shows more than 100%. */
  lemma CourseCardAtMostFull(a: Assignment, st: Store, user: Id)
    requires OneRowPerUserVideo(st.progress)
    requires forall p :: p in st.progress ==> ProgressVideoInCourse(p, st.videos)
    requires forall p :: p in st.progress && p.completed ==> p.video_id.Some?
    ensures CardFor(a, st, user).CourseCard? ==> CardFor(a, st, user).percent <= 100
  {
    var card := CardFor(a, st, user);
    if card.CourseCard? {
      CompletedRowsBounded(st, user, card.course.id);
    }
  }

  /** The seed store with three completed rows of course 1 that name no video in place of its progress. */
  function VideolessStore(now: Timestamp): Store {
    SeedStore(now).(progress := [Progress(1, Lee, 1, None, 0, true, now),
                                 Progress(2, Lee, 1, None, 0, true, now),
                                 Progress(3, Lee, 1, None, 0, true, now)])
  }

  /** When every row is a completed row of `user` for course `c`, all of them count. */
  lemma OnlyCompletedRows(rows: seq<Progress>, user: Id, c: Id)
    requires forall p :: p in rows ==> p.user_id == user && p.course_id == c && p.completed
    ensures CompletedRows(rows, user, c) == rows
  {
    FilterAll(rows, OfUser(user));
    FilterAll(rows, RowOfCourse(c));
    FilterAll(rows, IsCompleted());
  }

  /** Rows without a video break none of the rules of the data model. */
  lemma VideolessStoreWellFormed(now: Timestamp)
    ensures WellFormed(VideolessStore(now))
  {
    SeedWellFormed(now);
  }

  /**
   * The third requirement of `CourseCardAtMostFull` is not a rule of the data
   * model: `video_id` is nullable, so a progress row may have
   * no video, and a completed one still counts. On the well-formed store
   * `VideolessStore` the seed learner's card for course 1 shows 150%.
   */
  lemma VideolessRowsOverfillCard(now: Timestamp)
    ensures var st := VideolessStore(now);
            var card := CardFor(st.assignments[0], st, Lee);
            card.CourseCard? && card.completed == 3 && card.total == 2 && card.percent == 150
  {
    var st := VideolessStore(now);
    var a := st.assignments[0];
    assert AssignedCourse(a, st.courses).Some? by {
      assert st.courses[0] in st.courses && st.courses[0].id == 1;
    }
    assert |VideosOf(st.videos, 1)| == 2 by { SeedVideosByCourse(now); }
    assert |CompletedRows(st.progress, Lee, 1)| == 3 by { OnlyCompletedRows(st.progress, Lee, 1); }
    assert CoursePercent(3, 2) == 150 by { RoundDivUnique(300, 2, 150); }
  }

  /** The label of a course card's button. */
  datatype Action = Start | Continue | Review

  /** The dashboard's button: `progress === 0 ? "Start" : "Continue"`. */
  function DashboardAction(percent: nat): (r: Action)
    ensures r != Review
    ensures r == Start <==> percent == 0
  {
    if percent == 0 then Start else Continue
  }

  /** The course page's button: "Start Course" at 0, "Review" at 100, "Continue" otherwise. */
  function CoursePageAction(percent: nat): (r: Action)
    ensures r == Start <==> percent == 0
    ensures r == Review <==> percent == 100
    ensures r == Continue <==> 0 < percent && percent != 100
  {
    if percent == 0 then Start else if percent == 100 then Review else Continue
  }

  /** The two pages label a card alike except at 100%, where the dashboard still says "Continue". */
  lemma ActionsAgreeBelowFull(percent: nat)
    ensures percent != 100 ==> DashboardAction(percent) == CoursePageAction(percent)
    ensures DashboardAction(100) == Continue && CoursePageAction(100) == Review
  {
  }

  /**
   * For a course of 1 to 199 videos whose completed rows do not outnumber
   * them, "Start Course" means nothing completed and "Review" means every
   * video completed.
   */
  lemma CourseActionByCompletion(completed: nat, total: nat)
    requires 0 < total < 200 && completed <= total
    ensures CoursePageAction(CoursePercent(completed, total)) == Start <==> completed == 0
    ensures CoursePageAction(CoursePercent(completed, total)) == Review <==> completed == total
  {
    PercentZeroIffNone(completed, total);
    if CoursePercent(completed, total) == 100 {
      PercentFullOnlyIfAll(completed, total);
    }
  }

  /** The running time on a course card: `Math.round(totalDuration / 60)` minutes. */
  function CardMinutes(card: Card): (m: int)
    requires card.CourseCard?
    ensures 60 * m - 30 <= card.seconds < 60 * m + 30
  {
    Courses.DurationMinutes(card.seconds)
  }

  /** The recent-activity videos: the first two of the user's completed rows. */
  function RecentCompleted(rows: seq<Progress>): (r: seq<Progress>)
    ensures |r| == if CompletedCount(rows) < 2 then CompletedCount(rows) else 2
    ensures forall p :: p in r ==> p in rows && p.completed
    ensures r == Filter(rows, IsCompleted())[..|r|]
  {
    Take(Filter(rows, IsCompleted()), 2)
  }

  /** `mockVideos.find((v) => v.id === progress.video_id)?.title`: no title for a row without a video. */
  function RowVideoTitle(videos: seq<Video>, p: Progress): (r: Option<string>)
    ensures p.video_id.None? ==> r.None?
    ensures r.Some? <==> exists v :: v in videos && Some(v.id) == p.video_id
    ensures r.Some? ==> exists v :: v in videos && Some(v.id) == p.video_id && v.title == r.value
  {
    match Find(videos, (v: Video) => Some(v.id) == p.video_id)
    case Some(v) => Some(v.title)
    case None => None
  }

  /** The seed learner has completed one of course 1's two videos, so its card shows 50%. */
  lemma SeedLeeHalfway(now: Timestamp)
    ensures var card := CardFor(SeedAssignments(now)[0], SeedStore(now), Lee);
            card.CourseCard? && card.completed == 1 && card.total == 2 && card.percent == 50
  {
    var st := SeedStore(now);
    var a := SeedAssignments(now)[0];
    assert AssignedCourse(a, st.courses).Some? by {
      assert st.courses[0] in st.courses && st.courses[0].id == 1;
    }
    assert |VideosOf(st.videos, 1)| == 2 by { SeedVideosByCourse(now); }
    assert |CompletedRows(st.progress, Lee, 1)| == 1 by {
      var progress := st.progress;
      FilterAll(progress, OfUser(Lee));
      FilterAll(progress, RowOfCourse(1));
      assert progress[1..] == [progress[1]] && progress[1..][1..] == [];
      assert Filter(progress, IsCompleted()) == [progress[0]];
    }
    assert CoursePercent(1, 2) == 50 by { RoundDivUnique(100, 2, 50); }
  }

  /** An argument of `cn`: a string, a boolean or `undefined`. */
  datatype ClassArg = Str(s: string) | Flag(b: bool) | Undefined

  /** `Boolean(arg)`. */
  function Truthy(): ClassArg -> bool {
    (arg: ClassArg) => match arg
      case Str(s) => s != []
      case Flag(b) => b
      case Undefined => false
  }

  /** How `join` writes a kept argument. */
  function ArgText(): ClassArg -> string {
    (arg: ClassArg) => match arg
      case Str(s) => s
      case Flag(b) => if b then "true" else "false"
      case Undefined => ""
  }

  /** `cn(...classes)`: the truthy arguments joined by single spaces. */
  function Cn(args: seq<ClassArg>): (r: string)
    ensures (forall x :: x in args ==> !Truthy()(x)) ==> r == ""
    ensures forall x :: x in args && Truthy()(x) ==> exists i :: OccursAt(r, ArgText()(x), i)
  {
    var kept := Filter(args, Truthy());
    var parts := Map(kept, ArgText());
    assert forall x :: x in args && Truthy()(x) ==> exists i :: OccursAt(Join(parts, ' '), ArgText()(x), i) by {
      forall x | x in args && Truthy()(x) ensures exists i :: OccursAt(Join(parts, ' '), ArgText()(x), i) {
        assert x in kept;
        var k :| 0 <= k < |kept| && kept[k] == x;
        JoinHasPart(parts, ' ', k);
      }
    }
    assert (forall x :: x in args ==> !Truthy()(x)) ==> kept == [] by {
      if forall x :: x in args ==> !Truthy()(x) {
        FilterNone(args, Truthy());
      }
    }
    Join(parts, ' ')
  }

  /** Falsy arguments (`false`, `undefined`, `""`) leave the class list as it was. */
  lemma {:induction false} CnIgnoresFalsy(args: seq<ClassArg>, more: seq<ClassArg>)
    requires forall x :: x in more ==> !Truthy()(x)
    ensures Cn(args + more) == Cn(args)
  {
    FilterAppend(args, more, Truthy());
    FilterNone(more, Truthy());
    assert Filter(args, Truthy()) + [] == Filter(args, Truthy());
  }

  /**
   * Splitting the class list at spaces gives back the truthy arguments when
   * none of them contains a space.
   */
  lemma CnSplits(args: seq<ClassArg>)
    requires exists x :: x in args && Truthy()(x)
    requires forall x :: x in args && x.Str? ==> ' ' !in x.s
    ensures Split(Cn(args), ' ') == Map(Filter(args, Truthy()), ArgText())
  {
    var kept := Filter(args, Truthy());
    var parts := Map(kept, ArgText());
    var x :| x in args && Truthy()(x);
    assert x in kept;
    forall i | 0 <= i < |parts| ensures ' ' !in parts[i] {
      assert kept[i] in kept;
    }
    SplitJoin(parts, ' ');
  }
}
