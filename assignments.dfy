/**
 * The client admin's assignment page: a client's list of assignments, the
 * dialog that assigns one course or track to several learners at once, the
 * per-learner detail view with its Pending / In Progress / Completed status,
 * and the summary counts.
 */
module Assignments {
  import opened Optional
  import opened Seqs
  import opened Entities
  import opened Seed

  /** The two tabs of the assign dialog. */
  datatype ContentKind = CourseKind | TrackKind

  datatype Status = Pending | InProgress | Completed

  /** One row of the learner detail view; the assignment date is left out. */
  datatype Detail = Detail(id: Id, title: string, kind: ContentKind, status: Status)

  /** The page belongs to the admin of client 1. */
  const PageClient: Id := 1

  /** Rows are recorded as assigned by the signed-in admin, user 2. */
  const CurrentAdmin: Id := 2

  /**
   * The rows one assign action creates: one per selected user, in selection
   * order, numbered on from the length `existing` of the current list, each
   * carrying the content in the field its kind names and nothing in the other.
   */
  function NewAssignments(existing: nat, client: Id, users: seq<Id>, kind: ContentKind,
                          content: Id, now: Timestamp): (r: seq<Assignment>)
    ensures |r| == |users|
    ensures forall i :: 0 <= i < |r| ==> r[i].id == existing + i + 1 && r[i].user_id == users[i]
    ensures forall i :: 0 <= i < |r| ==>
              && r[i].client_id == client && ExactlyOneContent(r[i])
              && r[i].course_id == (if kind == CourseKind then Some(content) else None)
              && r[i].track_id == (if kind == TrackKind then Some(content) else None)
              && r[i].assigned_by == CurrentAdmin && r[i].due_at == None
  {
    seq(|users|, i requires 0 <= i < |users| => NewAssignment(existing + i + 1, client, users[i], kind, content, now))
  }

  /** One row of an assign action. */
  function NewAssignment(id: Id, client: Id, user: Id, kind: ContentKind, content: Id, now: Timestamp): Assignment {
    Assignment(id, client, user,
               if kind == CourseKind then Some(content) else None,
               if kind == TrackKind then Some(content) else None,
               CurrentAdmin, now, None)
  }

  /** The progress rows of one user in one course. */
  function CourseRows(progress: seq<Progress>, user: Id, course: Id): (r: seq<Progress>)
    ensures forall p :: p in r <==> p in progress && p.user_id == user && p.course_id == course
  {
    Filter(progress, (p: Progress) => p.user_id == user && p.course_id == course)
  }

  /**
   * The status of an assignment for its learner: a track is always Pending;
   * a course is Pending with no progress rows, Completed when there are rows
   * and every one is completed, and In Progress otherwise.
   */
  function AssignmentStatus(a: Assignment, user: Id, progress: seq<Progress>): (s: Status)
    ensures s == Pending <==>
              a.course_id.None? || !exists p :: p in progress && p.user_id == user && p.course_id == a.course_id.value
    ensures s == Completed <==>
              && a.course_id.Some?
              && (exists p :: p in progress && p.user_id == user && p.course_id == a.course_id.value)
              && (forall p :: p in progress && p.user_id == user && p.course_id == a.course_id.value ==> p.completed)
  {
    if a.course_id.Some? then
      var rows := CourseRows(progress, user, a.course_id.value);
      assert |rows| > 0 <==> exists p :: p in progress && p.user_id == user && p.course_id == a.course_id.value by {
        if |rows| > 0 { assert rows[0] in rows; }
      }
      if |rows| > 0 then
        if forall p :: p in rows ==> p.completed then Completed else InProgress
      else Pending
    else Pending
  }

  /** The status in terms of counts: Completed when every row is completed, In Progress when some row is not. */
  lemma StatusByCounts(a: Assignment, user: Id, progress: seq<Progress>)
    ensures var rows := if a.course_id.Some? then CourseRows(progress, user, a.course_id.value) else [];
            var done := Count(rows, (p: Progress) => p.completed);
            && (AssignmentStatus(a, user, progress) == Pending <==> rows == [])
            && (AssignmentStatus(a, user, progress) == Completed <==> 0 < done == |rows|)
            && (AssignmentStatus(a, user, progress) == InProgress <==> done < |rows|)
  {
    if a.course_id.Some? {
      CountAll(CourseRows(progress, a.user_id, a.course_id.value), (p: Progress) => p.completed);
      CountAll(CourseRows(progress, user, a.course_id.value), (p: Progress) => p.completed);
    }
  }

  /** A track assignment stays Pending whatever progress exists. */
  lemma TrackAlwaysPending(a: Assignment, user: Id, progress: seq<Progress>)
    requires ExactlyOneContent(a) && a.track_id.Some?
    ensures AssignmentStatus(a, user, progress) == Pending
  {
  }

  /** The assignment names a course that is in the list. */
  predicate CourseFound(a: Assignment, courses: seq<Course>) {
    a.course_id.Some? && exists c :: c in courses && c.id == a.course_id.value
  }

  /** The assignment names a track that is in the list. */
  predicate TrackFound(a: Assignment, tracks: seq<Track>) {
    a.track_id.Some? && exists k :: k in tracks && k.id == a.track_id.value
  }

  /**
   * `course ? course.title : track ? track.title : "Unknown"`: the title of
   * the assignment's course, else of its track, else "Unknown" (also for an
   * id that names nothing in the lists).
   */
  function ContentTitle(a: Assignment, courses: seq<Course>, tracks: seq<Track>): (t: string)
    ensures CourseFound(a, courses) ==>
              exists c :: c in courses && c.id == a.course_id.value && t == c.title
    ensures !CourseFound(a, courses) && TrackFound(a, tracks) ==>
              exists k :: k in tracks && k.id == a.track_id.value && t == k.title
    ensures !CourseFound(a, courses) && !TrackFound(a, tracks) ==> t == "Unknown"
  {
    var course := if a.course_id.Some? then Find(courses, (c: Course) => c.id == a.course_id.value) else None;
    var track := if a.track_id.Some? then Find(tracks, (k: Track) => k.id == a.track_id.value) else None;
    if course.Some? then course.value.title
    else if track.Some? then track.value.title
    else "Unknown"
  }

  /** Under distinct course ids the title is the title of the one course with that id. */
  lemma ContentTitleOfUniqueCourse(a: Assignment, courses: seq<Course>, tracks: seq<Track>, i: int)
    requires UniqueBy(courses, (c: Course) => c.id)
    requires 0 <= i < |courses| && a.course_id == Some(courses[i].id)
    ensures ContentTitle(a, courses, tracks) == courses[i].title
  {
    var c :| c in courses && c.id == a.course_id.value && ContentTitle(a, courses, tracks) == c.title;
    var j :| 0 <= j < |courses| && courses[j] == c;
    assert j == i;
  }

  /** `(a) => a.user_id === user`. */
  function AssignedTo(user: Id): Assignment -> bool {
    (a: Assignment) => a.user_id == user
  }

  /** The assignments of one learner. */
  function UserAssignments(assignments: seq<Assignment>, user: Id): (r: seq<Assignment>)
    ensures forall a :: a in r <==> a in assignments && a.user_id == user
  {
    Filter(assignments, AssignedTo(user))
  }

  /** `getUserAssignmentDetails(user)`: one detail row per assignment of the learner, in list order. */
  function UserAssignmentDetails(assignments: seq<Assignment>, user: Id, courses: seq<Course>,
                                 tracks: seq<Track>, progress: seq<Progress>): (r: seq<Detail>)
    ensures |r| == Count(assignments, AssignedTo(user))
    ensures forall i :: 0 <= i < |r| ==>
              var a := UserAssignments(assignments, user)[i];
              && r[i].id == a.id
              && r[i].kind == (if a.course_id.Some? then CourseKind else TrackKind)
              && r[i].title == ContentTitle(a, courses, tracks)
              && r[i].status == AssignmentStatus(a, user, progress)
  {
    Map(UserAssignments(assignments, user), (a: Assignment) =>
      Detail(a.id, ContentTitle(a, courses, tracks), if a.course_id.Some? then CourseKind else TrackKind,
             AssignmentStatus(a, user, progress)))
  }

  /** "Course Assignments": the rows with a course; all of them exactly when every row has a course. */
  function CourseAssignmentCount(assignments: seq<Assignment>): (n: nat)
    ensures n <= |assignments|
    ensures n == |assignments| <==> forall a :: a in assignments ==> a.course_id.Some?
    ensures n > 0 <==> exists a :: a in assignments && a.course_id.Some?
  {
    CountAll(assignments, (a: Assignment) => a.course_id.Some?);
    CountSome(assignments, (a: Assignment) => a.course_id.Some?);
    Count(assignments, (a: Assignment) => a.course_id.Some?)
  }

  /** "Track Assignments": the rows with a track; all of them exactly when every row has a track. */
  function TrackAssignmentCount(assignments: seq<Assignment>): (n: nat)
    ensures n <= |assignments|
    ensures n == |assignments| <==> forall a :: a in assignments ==> a.track_id.Some?
    ensures n > 0 <==> exists a :: a in assignments && a.track_id.Some?
  {
    CountAll(assignments, (a: Assignment) => a.track_id.Some?);
    CountSome(assignments, (a: Assignment) => a.track_id.Some?);
    Count(assignments, (a: Assignment) => a.track_id.Some?)
  }

  /** When every row has exactly one content, course and track counts add up to "Total Assignments". */
  lemma CourseAndTrackCountsPartition(assignments: seq<Assignment>)
    requires forall a :: a in assignments ==> ExactlyOneContent(a)
    ensures CourseAssignmentCount(assignments) + TrackAssignmentCount(assignments) == |assignments|
  {
    CountComplement(assignments, (a: Assignment) => a.course_id.Some?, (a: Assignment) => a.track_id.Some?);
  }

  /** "Unique Learners": the number of distinct users with an assignment, at most the number of rows. */
  function UniqueLearners(assignments: seq<Assignment>): (n: nat)
    ensures n == |KeySet(assignments, Assignee())|
    ensures n <= |assignments|
    ensures assignments != [] ==> n >= 1
  {
    DistinctKeys(assignments, Assignee());
    DistinctCount(Map(assignments, Assignee()))
  }

  /** `(a) => a.user_id`. */
  function Assignee(): Assignment -> Id {
    (a: Assignment) => a.user_id
  }

  /** A further row for a learner who already has one leaves "Unique Learners" unchanged. */
  lemma RepeatLearnerNotCounted(assignments: seq<Assignment>, a: Assignment)
    requires exists b :: b in assignments && b.user_id == a.user_id
    ensures UniqueLearners(assignments + [a]) == UniqueLearners(assignments)
    ensures UniqueLearners(assignments) == UniqueLearners([a] + assignments)
  {
    assert KeySet(assignments + [a], Assignee()) == KeySet(assignments, Assignee());
    assert KeySet([a] + assignments, Assignee()) == KeySet(assignments, Assignee());
  }

  /** A row for a learner with no row yet raises "Unique Learners" by one. */
  lemma NewLearnerCounted(assignments: seq<Assignment>, a: Assignment)
    requires forall b :: b in assignments ==> b.user_id != a.user_id
    ensures UniqueLearners(assignments + [a]) == UniqueLearners(assignments) + 1
  {
    var before := KeySet(assignments, Assignee());
    assert KeySet(assignments + [a], Assignee()) == before + {a.user_id} by {
      forall k | k in KeySet(assignments + [a], Assignee()) ensures k in before + {a.user_id} {
        var b :| b in assignments + [a] && b.user_id == k;
        if b != a { assert b in assignments; }
      }
      forall k | k in before ensures k in KeySet(assignments + [a], Assignee()) {
        var b :| b in assignments && b.user_id == k;
        assert b in assignments + [a];
      }
      assert a in assignments + [a];
    }
    assert a.user_id !in before;
  }

  /** Every row of the page's list belongs to the page's client and has exactly one content. */
  predicate RowsValid(assignments: seq<Assignment>, client: Id) {
    forall a :: a in assignments ==> a.client_id == client && ExactlyOneContent(a)
  }

  /**
   * Ids are numbered from the current length, so removing a row and then
   * assigning again hands out an id that is still in use: with rows 1 and 2,
   * removing row 1 and assigning one user creates a second row 2.
   */
  lemma IdReusedAfterRemoval(now: Timestamp)
    ensures var rows := [Assignment(1, 1, 3, Some(1), None, 2, now, None),
                         Assignment(2, 1, 4, None, Some(1), 2, now, None)];
            var kept := Filter(rows, (a: Assignment) => a.id != 1);
            var after := kept + NewAssignments(|kept|, 1, [5], CourseKind, 2, now);
            |after| == 2 && after[0].id == after[1].id == 2
  {
    var rows := [Assignment(1, 1, 3, Some(1), None, 2, now, None),
                 Assignment(2, 1, 4, None, Some(1), 2, now, None)];
    var keep := (a: Assignment) => a.id != 1;
    assert rows[1..] == [rows[1]] && rows[1..][1..] == [];
    assert Filter(rows, keep) == [rows[1]];
  }

  /** The page's state: the client's assignments and the assign dialog's selections. */
  class AssignmentsPage {
    var clientId: Id
    var assignments: seq<Assignment>
    var assignmentType: ContentKind
    var selectedUsers: seq<Id>
    /** The selected course or track; None stands for the empty selection `""`. */
    var selectedContent: Option<Id>

    ghost predicate Valid()
      reads this
    {
      RowsValid(assignments, clientId) && NoDup(selectedUsers)
    }

    /** The page opens on the client's seed assignments, the course tab and empty selections. */
    constructor(now: Timestamp)
      ensures clientId == PageClient
      ensures assignments == Filter(SeedAssignments(now), (a: Assignment) => a.client_id == PageClient)
      ensures assignmentType == CourseKind && selectedUsers == [] && selectedContent == None
      ensures Valid()
    {
      SeedAssignmentsHaveOneContent(now);
      clientId := PageClient;
      assignments := Filter(SeedAssignments(now), (a: Assignment) => a.client_id == PageClient);
      assignmentType := CourseKind;
      selectedUsers := [];
      selectedContent := None;
    }

    /** `handleAssign`: rejected without users or content; otherwise appends one row per selected user and clears the selection. */
    method Assign(now: Timestamp) returns (ok: bool)
      requires Valid()
      modifies this
      ensures Valid()
      ensures ok <==> old(selectedUsers) != [] && old(selectedContent).Some?
      ensures !ok ==> unchanged(this)
      ensures ok ==> && assignments == old(assignments) + NewAssignments(|old(assignments)|, clientId,
                                          old(selectedUsers), assignmentType, old(selectedContent).value, now)
                     && selectedUsers == [] && selectedContent == None
                     && clientId == old(clientId) && assignmentType == old(assignmentType)
    {
      if |selectedUsers| == 0 || selectedContent.None? {
        return false;
      }
      var added := NewAssignments(|assignments|, clientId, selectedUsers, assignmentType,
                                  selectedContent.value, now);
      assignments := assignments + added;
      selectedUsers := [];
      selectedContent := None;
      ok := true;
    }

    /** `handleRemoveAssignment`: keeps exactly the rows with a different id, in order. */
    method RemoveAssignment(id: Id)
      requires Valid()
      modifies this
      ensures Valid()
      ensures assignments == Filter(old(assignments), (a: Assignment) => a.id != id)
      ensures clientId == old(clientId) && assignmentType == old(assignmentType)
      ensures selectedUsers == old(selectedUsers) && selectedContent == old(selectedContent)
    {
      assignments := Filter(assignments, (a: Assignment) => a.id != id);
    }

    /** `toggleUser`: flips the user's membership in the selection. */
    method ToggleUser(user: Id)
      requires Valid()
      modifies this
      ensures Valid()
      ensures selectedUsers == Toggle(old(selectedUsers), user)
      ensures clientId == old(clientId) && assignments == old(assignments)
      ensures assignmentType == old(assignmentType) && selectedContent == old(selectedContent)
    {
      selectedUsers := Toggle(selectedUsers, user);
    }

    /** `toggleContent`: selects the item, or clears the selection when it was the selected one. */
    method ToggleContent(content: Id)
      requires Valid()
      modifies this
      ensures Valid()
      ensures selectedContent == Some(content) <==> old(selectedContent) != Some(content)
      ensures selectedContent.Some? ==> selectedContent == Some(content)
      ensures clientId == old(clientId) && assignments == old(assignments)
      ensures assignmentType == old(assignmentType) && selectedUsers == old(selectedUsers)
    {
      selectedContent := if selectedContent == Some(content) then None else Some(content);
    }

    /** Switching tabs changes the kind and keeps the selected id, which then names content of the other kind. */
    method ChooseType(kind: ContentKind)
      requires Valid()
      modifies this
      ensures Valid()
      ensures assignmentType == kind
      ensures clientId == old(clientId) && assignments == old(assignments)
      ensures selectedUsers == old(selectedUsers) && selectedContent == old(selectedContent)
    {
      assignmentType := kind;
    }
  }
}
