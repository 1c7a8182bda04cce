/**
 * The progress arithmetic the dashboards share: scoping progress rows to a
 * user, counting completed rows and turning counts into rounded completion
 * percentages with a guard for an empty denominator.
 */
module Metrics {
  import opened Optional
  import opened Seqs
  import opened Rounding
  import opened Entities

  /** `(p) => p.user_id === user`. */
  function OfUser(user: Id): Progress -> bool {
    (p: Progress) => p.user_id == user
  }

  /** `progress.filter((p) => p.user_id === user)`. */
  function UserProgress(progress: seq<Progress>, user: Id): (r: seq<Progress>)
    ensures forall p :: p in r <==> p in progress && p.user_id == user
  {
    Filter(progress, OfUser(user))
  }

  /** `(p) => p.completed`. */
  function IsCompleted(): Progress -> bool {
    (p: Progress) => p.completed
  }

  /** `(p) => !p.completed`. */
  function IsOpen(): Progress -> bool {
    (p: Progress) => !p.completed
  }

  /** `rows.filter((p) => p.completed).length`. */
  function CompletedCount(rows: seq<Progress>): (n: nat)
    ensures n <= |rows|
  {
    Count(rows, IsCompleted())
  }

  /** `rows.filter((p) => !p.completed).length`, the "In Progress" figure. */
  function OpenCount(rows: seq<Progress>): (n: nat)
    ensures n <= |rows|
  {
    Count(rows, IsOpen())
  }

  /** "In Progress" and "Completed" together account for every row. */
  lemma OpenAndCompletedPartition(rows: seq<Progress>)
    ensures OpenCount(rows) + CompletedCount(rows) == |rows|
  {
    CountComplement(rows, IsCompleted(), IsOpen());
  }

  /**
   * `total > 0 ? Math.round((completed / total) * 100) : 0` over progress
   * rows: the rounded share of completed rows, 0 without rows.
   */
  function CompletionRate(rows: seq<Progress>): (r: nat)
    ensures rows == [] ==> r == 0
    ensures rows != [] ==> 2 * |rows| * r <= 200 * CompletedCount(rows) + |rows| < 2 * |rows| * (r + 1)
    ensures r <= 100
  {
    Percent(CompletedCount(rows), |rows|)
  }

  /** Every row completed gives 100. */
  lemma AllCompletedIsFull(rows: seq<Progress>)
    requires rows != [] && forall p :: p in rows ==> p.completed
    ensures CompletionRate(rows) == 100
  {
    CountAll(rows, IsCompleted());
    PercentOfAll(|rows|);
  }

  /** Below 200 rows, 100 means every row is completed. */
  lemma FullRateMeansAllCompleted(rows: seq<Progress>)
    requires 0 < |rows| < 200 && CompletionRate(rows) == 100
    ensures forall p :: p in rows ==> p.completed
  {
    PercentFullOnlyIfAll(CompletedCount(rows), |rows|);
    CountAll(rows, IsCompleted());
  }

  /** Up to 200 rows, 0 means no row is completed. */
  lemma ZeroRateMeansNoneCompleted(rows: seq<Progress>)
    requires 0 < |rows| <= 200
    ensures CompletionRate(rows) == 0 <==> forall p :: p in rows ==> !p.completed
  {
    PercentZeroIffNone(CompletedCount(rows), |rows|);
    CountSome(rows, IsCompleted());
  }

  /**
   * A course card's percentage: completed rows over the course's video count,
   * 0 for a course without videos; at most 100 while the completed rows do
   * not outnumber the videos.
   */
  function CoursePercent(completed: nat, videoCount: nat): (r: nat)
    ensures videoCount == 0 ==> r == 0
    ensures videoCount > 0 ==> 2 * videoCount * r <= 200 * completed + videoCount < 2 * videoCount * (r + 1)
    ensures completed <= videoCount ==> r <= 100
    ensures 0 < videoCount == completed ==> r == 100
  {
    assert 0 < videoCount == completed ==> Percent(completed, videoCount) == 100 by {
      if 0 < videoCount == completed { PercentOfAll(videoCount); }
    }
    Percent(completed, videoCount)
  }

  /** `mockCourses.find((c) => c.id === id)`. */
  function FindCourse(catalog: seq<Course>, id: Id): (r: Option<Course>)
    ensures r.Some? <==> exists c :: c in catalog && c.id == id
    ensures r.Some? ==> r.value in catalog && r.value.id == id
  {
    Find(catalog, (c: Course) => c.id == id)
  }

  /** `(tc) => tc.track_id === t`. */
  function OfTrack(t: Id): TrackCourse -> bool {
    (l: TrackCourse) => l.track_id == t
  }

  /** `mockTrackCourses.filter((tc) => tc.track_id === t)`. */
  function TrackLinks(links: seq<TrackCourse>, t: Id): (r: seq<TrackCourse>)
    ensures forall l :: l in r <==> l in links && l.track_id == t
  {
    Filter(links, OfTrack(t))
  }

  /** `(tc) => tc.course_id`. */
  function LinkCourse(): TrackCourse -> Id {
    (l: TrackCourse) => l.course_id
  }

  /** `(c) => ids.includes(c.id)`. */
  function IdIn(ids: seq<Id>): Course -> bool {
    (c: Course) => c.id in ids
  }

  /** A course some link of track `t` points at. */
  function LinkedTo(links: seq<TrackCourse>, t: Id): Course -> bool {
    (c: Course) => exists l :: l in links && l.track_id == t && l.course_id == c.id
  }

  /**
   * The learner pages' track resolution: the catalogue courses whose id
   * occurs in the track's links, in catalogue order.
   */
  function TrackCoursesByMembership(links: seq<TrackCourse>, catalog: seq<Course>, t: Id): (r: seq<Course>)
    ensures r == Filter(catalog, LinkedTo(links, t))
    ensures forall c :: c in r <==> c in catalog && exists l :: l in links && l.track_id == t && l.course_id == c.id
  {
    var ids := Map(TrackLinks(links, t), LinkCourse());
    assert Filter(catalog, IdIn(ids)) == Filter(catalog, LinkedTo(links, t)) by {
      forall c | c in catalog ensures IdIn(ids)(c) == LinkedTo(links, t)(c) {
        if c.id in ids {
          var k :| 0 <= k < |ids| && ids[k] == c.id;
          assert TrackLinks(links, t)[k] in TrackLinks(links, t);
        }
        if LinkedTo(links, t)(c) {
          var l :| l in links && l.track_id == t && l.course_id == c.id;
          var k :| 0 <= k < |TrackLinks(links, t)| && TrackLinks(links, t)[k] == l;
          assert ids[k] == c.id;
        }
      }
      FilterCongruent(catalog, IdIn(ids), LinkedTo(links, t));
    }
    Filter(catalog, IdIn(ids))
  }
}
