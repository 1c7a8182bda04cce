/**
 * The super admin's track page: tracks, their course links, the create
 * dialog with its course checklist, and the resolution of a track into its
 * ordered courses.
 */
module Tracks {
  import opened Optional
  import opened Seqs
  import opened Entities
  import opened Seed
  import opened Metrics

  /** The create dialog: title, description and the courses ticked, in ticking order. */
  datatype TrackDraft = TrackDraft(title: string, description: string, selectedCourses: seq<Id>)

  /** The join rows of a new track: the `i`-th selected course at position `i + 1`. */
  function NewTrackLinks(track: Id, selected: seq<Id>): (r: seq<TrackCourse>)
    ensures |r| == |selected|
    ensures forall i :: 0 <= i < |r| ==> r[i].track_id == track && r[i].course_id == selected[i] && r[i].position == i + 1
  {
    seq(|selected|, i requires 0 <= i < |selected| => TrackCourse(track, selected[i], i + 1))
  }

  /** `(tc) => tc.position`. */
  function LinkPosition(): TrackCourse -> int {
    (l: TrackCourse) => l.position
  }

  /** `(tc) => courses.find((c) => c.id === tc.course_id)`. */
  function LookUp(catalog: seq<Course>): TrackCourse -> Option<Course> {
    (l: TrackCourse) => FindCourse(catalog, l.course_id)
  }

  /**
   * `getTrackCourses(t)`: the track's links sorted by position, each looked
   * up in the catalogue, the links whose course is missing dropped. So there
   * is one course per link that resolves, and the links they come from, read
   * in the same order, are in position order and use each resolving link
   * exactly once.
   */
  function TrackCourses(links: seq<TrackCourse>, catalog: seq<Course>, t: Id): (r: seq<Course>)
    ensures |r| == Count(TrackLinks(links, t), Present(LookUp(catalog)))
    ensures forall c :: c in r ==> c in catalog && exists l :: l in links && l.track_id == t && l.course_id == c.id
    ensures exists ls: seq<TrackCourse> ::
              && |ls| == |r| && SortedBy(ls, LinkPosition())
              && multiset(ls) == multiset(Filter(TrackLinks(links, t), Present(LookUp(catalog))))
              && forall i :: 0 <= i < |r| ==> ls[i] in TrackLinks(links, t) && FindCourse(catalog, ls[i].course_id) == Some(r[i])
  {
    var sorted := SortBy(TrackLinks(links, t), LinkPosition());
    ResolvedInOrder(sorted, TrackLinks(links, t), catalog);
    Values(Map(sorted, LookUp(catalog)))
  }

  /**
   * Looking up position-sorted links and dropping the misses: one course per
   * link that resolves, each the course of a link read in position order.
   */
  lemma ResolvedInOrder(sorted: seq<TrackCourse>, base: seq<TrackCourse>, catalog: seq<Course>)
    requires SortedBy(sorted, LinkPosition()) && multiset(sorted) == multiset(base)
    ensures var r := Values(Map(sorted, LookUp(catalog)));
            && |r| == Count(base, Present(LookUp(catalog)))
            && exists ls: seq<TrackCourse> ::
                 && |ls| == |r| && SortedBy(ls, LinkPosition())
                 && multiset(ls) == multiset(Filter(base, Present(LookUp(catalog))))
                 && forall i :: 0 <= i < |r| ==> ls[i] in base && FindCourse(catalog, ls[i].course_id) == Some(r[i])
    ensures forall c :: c in Values(Map(sorted, LookUp(catalog))) ==>
              c in catalog && exists l :: l in base && l.course_id == c.id
  {
    var r := Values(Map(sorted, LookUp(catalog)));
    var ls := Filter(sorted, Present(LookUp(catalog)));
    ResolvedCount(sorted, base, catalog);
    ResolvedLinksSorted(sorted, catalog);
    ResolvedLinksFound(sorted, base, catalog);
    FilterPermutation(sorted, base, Present(LookUp(catalog)));
    forall c | c in r ensures c in catalog && exists l :: l in base && l.course_id == c.id {
      var i :| 0 <= i < |r| && r[i] == c;
      assert ls[i] in base && ls[i].course_id == c.id;
    }
  }

  lemma ResolvedCount(sorted: seq<TrackCourse>, base: seq<TrackCourse>, catalog: seq<Course>)
    requires multiset(sorted) == multiset(base)
    ensures |Values(Map(sorted, LookUp(catalog)))| == |Filter(sorted, Present(LookUp(catalog)))|
                                                   == Count(base, Present(LookUp(catalog)))
  {
    ValuesOfMap(sorted, LookUp(catalog));
    CountPermutation(sorted, base, Present(LookUp(catalog)));
  }

  lemma ResolvedLinksSorted(sorted: seq<TrackCourse>, catalog: seq<Course>)
    requires SortedBy(sorted, LinkPosition())
    ensures SortedBy(Filter(sorted, Present(LookUp(catalog))), LinkPosition())
  {
    FilterPairwise(sorted, Present(LookUp(catalog)), (a: TrackCourse, b: TrackCourse) => a.position <= b.position);
  }

  lemma ResolvedLinksFound(sorted: seq<TrackCourse>, base: seq<TrackCourse>, catalog: seq<Course>)
    requires multiset(sorted) == multiset(base)
    ensures var r := Values(Map(sorted, LookUp(catalog)));
            var ls := Filter(sorted, Present(LookUp(catalog)));
            forall i :: 0 <= i < |r| ==> i < |ls| && ls[i] in base && FindCourse(catalog, ls[i].course_id) == Some(r[i])
  {
    var r := Values(Map(sorted, LookUp(catalog)));
    var ls := Filter(sorted, Present(LookUp(catalog)));
    ValuesOfMap(sorted, LookUp(catalog));
    forall i | 0 <= i < |r| ensures ls[i] in base {
      assert ls[i] in ls;
      assert ls[i] in multiset(sorted);
    }
  }

  /**
   * With distinct catalogue ids, the admin page and the learner pages list
   * the same courses for a track; only the order may differ.
   */
  lemma TrackResolutionsAgree(links: seq<TrackCourse>, catalog: seq<Course>, t: Id)
    requires UniqueBy(catalog, (c: Course) => c.id)
    ensures forall c :: c in TrackCourses(links, catalog, t) <==> c in TrackCoursesByMembership(links, catalog, t)
  {
    var sorted := SortBy(TrackLinks(links, t), LinkPosition());
    var found := Map(sorted, LookUp(catalog));
    assert TrackCourses(links, catalog, t) == Values(found);
    forall c | c in TrackCoursesByMembership(links, catalog, t) ensures Some(c) in found {
      var l :| l in links && l.track_id == t && l.course_id == c.id;
      var k: int :| 0 <= k < |sorted| && sorted[k] == l by {
        assert l in multiset(TrackLinks(links, t));
        assert l in multiset(sorted);
      }
      assert found[k] == Some(c) by {
        var f := FindCourse(catalog, c.id);
        var i :| 0 <= i < |catalog| && catalog[i] == f.value;
        var j :| 0 <= j < |catalog| && catalog[j] == c;
        assert i == j;
      }
    }
  }

  /** The example track of `TrackOrderDiffers`: course 2 at position 1, course 1 at position 2. */
  predicate SwappedTrack(links: seq<TrackCourse>, catalog: seq<Course>) {
    && links == [TrackCourse(1, 2, 1), TrackCourse(1, 1, 2)]
    && |catalog| == 2 && catalog[0].id == 1 && catalog[1].id == 2
  }

  /** In the example catalogue, looking up id `k + 1` finds the course at index `k`. */
  lemma FoundInPair(catalog: seq<Course>, k: nat)
    requires |catalog| == 2 && catalog[0].id == 1 && catalog[1].id == 2 && k < 2
    ensures FindCourse(catalog, k + 1) == Some(catalog[k])
  {
    assert catalog[k] in catalog;
  }

  /** The example track's links are already in position order. */
  lemma SwappedLinksInOrder(links: seq<TrackCourse>, catalog: seq<Course>)
    requires SwappedTrack(links, catalog)
    ensures SortBy(TrackLinks(links, 1), LinkPosition()) == links
  {
    FilterAll(links, OfTrack(1));
    assert SortedBy(links, LinkPosition()) by {
      assert links[0].position == 1 && links[1].position == 2;
    }
    SortBySorted(links, LinkPosition());
  }

  /** Looking up the example track's links finds course 2, then course 1. */
  lemma SwappedLinksFound(links: seq<TrackCourse>, catalog: seq<Course>)
    requires SwappedTrack(links, catalog)
    ensures Map(links, LookUp(catalog)) == [Some(catalog[1]), Some(catalog[0])]
  {
    FoundInPair(catalog, 0);
    FoundInPair(catalog, 1);
  }

  /** The admin page shows the example track by position: course 2, then course 1. */
  lemma SwappedTrackByPosition(links: seq<TrackCourse>, catalog: seq<Course>)
    requires SwappedTrack(links, catalog)
    ensures TrackCourses(links, catalog, 1) == [catalog[1], catalog[0]]
  {
    SwappedLinksInOrder(links, catalog);
    SwappedLinksFound(links, catalog);
    var found := Map(links, LookUp(catalog));
    assert TrackCourses(links, catalog, 1) == Values(found);
  }

  /** The learner pages show the example track in catalogue order: course 1, then course 2. */
  lemma SwappedTrackByMembership(links: seq<TrackCourse>, catalog: seq<Course>)
    requires SwappedTrack(links, catalog)
    ensures TrackCoursesByMembership(links, catalog, 1) == catalog
  {
    FilterAll(links, OfTrack(1));
    var ids := Map(links, LinkCourse());
    assert ids[0] == 2 && ids[1] == 1;
    assert forall c :: c in catalog ==> IdIn(ids)(c);
    FilterAll(catalog, IdIn(ids));
  }

  /**
   * The learner pages list a track's courses in catalogue order, not by
   * position: a track linking course 2 first and course 1 second is shown as
   * 2, 1 on the admin page and as 1, 2 to learners.
   */
  lemma TrackOrderDiffers(links: seq<TrackCourse>, catalog: seq<Course>)
    requires SwappedTrack(links, catalog)
    ensures TrackCourses(links, catalog, 1) != TrackCoursesByMembership(links, catalog, 1)
  {
    SwappedTrackByPosition(links, catalog);
    SwappedTrackByMembership(links, catalog);
    assert TrackCourses(links, catalog, 1)[0] == catalog[1];
  }

  /** "Total Courses": the number of links, so a course in two tracks counts twice. */
  function TotalCourseLinks(links: seq<TrackCourse>): (n: nat)
    ensures n >= DistinctCount(Map(links, (l: TrackCourse) => l.course_id))
  {
    |links|
  }

  /** Tracks are numbered 1, 2, 3, ... in list order; every link names a listed track; no course is linked twice to a track. */
  predicate TracksValid(tracks: seq<Track>, links: seq<TrackCourse>) {
    && (forall i :: 0 <= i < |tracks| ==> tracks[i].id == i + 1)
    && (forall l :: l in links ==> 1 <= l.track_id <= |tracks|)
    && TrackCoursePairsUnique(links)
  }

  /** Creating a track from a duplicate-free selection keeps the page's invariant. */
  lemma CreateKeepsTracksValid(tracks: seq<Track>, links: seq<TrackCourse>, track: Track, selected: seq<Id>)
    requires TracksValid(tracks, links) && NoDup(selected) && track.id == |tracks| + 1
    ensures TracksValid(tracks + [track], links + NewTrackLinks(track.id, selected))
  {
    var added := NewTrackLinks(track.id, selected);
    var all := links + added;
    assert forall k :: 0 <= k < |links| ==> all[k] in links;
    assert forall k :: |links| <= k < |all| ==> all[k].track_id == track.id;
    forall l | l in all ensures 1 <= l.track_id <= |tracks| + 1 {
      if l in added { var k :| 0 <= k < |added| && added[k] == l; }
    }
  }

  /** A fresh track's links are exactly the rows just appended. */
  lemma {:induction false} FreshTrackLinks(links: seq<TrackCourse>, t: Id, selected: seq<Id>)
    requires forall l :: l in links ==> l.track_id != t
    ensures TrackLinks(links + NewTrackLinks(t, selected), t) == NewTrackLinks(t, selected)
  {
    var added := NewTrackLinks(t, selected);
    FilterAppend(links, added, OfTrack(t));
    FilterNone(links, OfTrack(t));
    FilterAll(added, OfTrack(t));
  }

  /**
   * A track created from a selection of catalogue courses resolves to those
   * courses in the order they were ticked.
   */
  lemma CreatedTrackResolvesToSelection(tracks: seq<Track>, links: seq<TrackCourse>, catalog: seq<Course>,
                                        selected: seq<Id>)
    requires TracksValid(tracks, links)
    requires forall id :: id in selected ==> exists c :: c in catalog && c.id == id
    ensures var t := |tracks| + 1;
            var r := TrackCourses(links + NewTrackLinks(t, selected), catalog, t);
            |r| == |selected| && forall i :: 0 <= i < |r| ==> r[i].id == selected[i]
  {
    var t := |tracks| + 1;
    var added := NewTrackLinks(t, selected);
    FreshTrackLinks(links, t, selected);
    SortBySorted(added, LinkPosition());
    var found := Map(added, LookUp(catalog));
    forall k | 0 <= k < |found| ensures found[k].Some? && found[k].value.id == selected[k] {
      assert selected[k] in selected;
    }
    assert TrackCourses(links + added, catalog, t) == Values(found);
  }

  /** The page's state: tracks, links and the create dialog. */
  class TracksPage {
    var tracks: seq<Track>
    var trackCourses: seq<TrackCourse>
    var newTrack: TrackDraft

    ghost predicate Valid()
      reads this
    {
      TracksValid(tracks, trackCourses) && NoDup(newTrack.selectedCourses)
    }

    /** The page opens on the seed tracks and links and an empty dialog. */
    constructor(now: Timestamp)
      ensures tracks == SeedTracks(now) && trackCourses == SeedTrackCourses()
      ensures newTrack == TrackDraft("", "", [])
      ensures Valid()
    {
      tracks, trackCourses, newTrack := SeedTracks(now), SeedTrackCourses(), TrackDraft("", "", []);
      SeedWellFormed(now);
    }

    /** Typing the title and description. */
    method EditDetails(title: string, description: string)
      requires Valid()
      modifies this
      ensures Valid()
      ensures newTrack == old(newTrack).(title := title, description := description)
      ensures tracks == old(tracks) && trackCourses == old(trackCourses)
    {
      newTrack := newTrack.(title := title, description := description);
    }

    /** `toggleCourse`: unticks a ticked course, or ticks it at the end of the selection. */
    method ToggleCourse(course: Id)
      requires Valid()
      modifies this
      ensures Valid()
      ensures newTrack == old(newTrack).(selectedCourses := Toggle(old(newTrack).selectedCourses, course))
      ensures tracks == old(tracks) && trackCourses == old(trackCourses)
    {
      newTrack := newTrack.(selectedCourses := Toggle(newTrack.selectedCourses, course));
    }

    /**
     * `handleCreateTrack`: rejected without a title, a description or a
     * ticked course; otherwise appends track `|tracks| + 1` with one link
     * per ticked course and clears the dialog.
     */
    method CreateTrack(now: Timestamp) returns (ok: bool)
      requires Valid()
      modifies this
      ensures Valid()
      ensures ok <==> old(newTrack).title != [] && old(newTrack).description != [] && old(newTrack).selectedCourses != []
      ensures !ok ==> unchanged(this)
      ensures ok ==>
        var t := |old(tracks)| + 1;
        && tracks == old(tracks) + [Track(t, old(newTrack).title, old(newTrack).description, now)]
        && trackCourses == old(trackCourses) + NewTrackLinks(t, old(newTrack).selectedCourses)
        && newTrack == TrackDraft("", "", [])
    {
      if newTrack.title == [] || newTrack.description == [] || |newTrack.selectedCourses| == 0 {
        return false;
      }
      var track := Track(|tracks| + 1, newTrack.title, newTrack.description, now);
      CreateKeepsTracksValid(tracks, trackCourses, track, newTrack.selectedCourses);
      trackCourses := trackCourses + NewTrackLinks(track.id, newTrack.selectedCourses);
      tracks := tracks + [track];
      newTrack := TrackDraft("", "", []);
      ok := true;
    }
  }
}
