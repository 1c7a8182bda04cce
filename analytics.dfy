/**
 * The super admin's analytics page: the platform figures (learners,
 * completed and total progress rows, the average completion and the
 * assignment count) and one metrics row per client with its learners, its
 * active learners, the distinct content assigned to them and their
 * completion rate.
 */
module Analytics {
  import opened Optional
  import opened Seqs
  import opened Entities
  import opened Metrics
  import opened Clients
  import opened ClientDashboard
  import SuperDashboard

  /** The key metric cards. */
  datatype Overview = Overview(learners: nat, completed: nat, total: nat, avgCompletion: nat, assignments: nat)

  /**
   * The cards: learners of the whole platform, completed rows among all
   * rows, the guarded average completion (the figure the super admin's
   * dashboard shows) and every assignment.
   */
  function PlatformOverview(st: Store): (r: Overview)
    ensures r.completed <= r.total == |st.progress|
    ensures r.learners == SuperDashboard.DashboardCards(st).learners
    ensures r.avgCompletion <= 100 && r.avgCompletion == SuperDashboard.DashboardCards(st).completionRate
    ensures r.total > 0 ==> 2 * r.total * r.avgCompletion <= 200 * r.completed + r.total < 2 * r.total * (r.avgCompletion + 1)
    ensures r.assignments == |st.assignments|
  {
    Overview(TotalLearners(st.users), CompletedCount(st.progress), |st.progress|, CompletionRate(st.progress),
             |st.assignments|)
  }

  /** `(u) => u.is_active`. */
  function IsActiveUser(): User -> bool {
    (u: User) => u.is_active
  }

  /** `(a) => a.course_id || a.track_id`: the course id, or else the track id (or nothing). */
  function ContentKey(): Assignment -> Option<Id> {
    (a: Assignment) => if a.course_id.Some? then a.course_id else a.track_id
  }

  /** One row of the clients table. */
  datatype ClientMetric = ClientMetric(client: Client, totalLearners: nat, activeLearners: nat,
                                       coursesAssigned: nat, completionRate: nat)

  /** The assignments whose assignee is one of the learners (the page scopes by assignee, not by `client_id`). */
  function LearnerAssignments(assignments: seq<Assignment>, learners: seq<User>): (r: seq<Assignment>)
    ensures forall a :: a in r <==> a in assignments && exists u :: u in learners && u.id == a.user_id
  {
    Filter(assignments, AssigneeIn(learners))
  }

  /**
   * The row of `c`: its learners (the count on the clients page), the
   * active ones among them, the distinct content keys of its learners'
   * assignments, and the completion rate the super admin's dashboard shows
   * for the client.
   */
  function MetricFor(st: Store, c: Client): (r: ClientMetric)
    ensures r.client == c
    ensures r.totalLearners == GetClientStats(st.users, c.id).learners
    ensures r.activeLearners <= r.totalLearners
    ensures r.coursesAssigned == |KeySet(LearnerAssignments(st.assignments, ClientLearners(st.users, c.id)), ContentKey())|
    ensures r.coursesAssigned <= |LearnerAssignments(st.assignments, ClientLearners(st.users, c.id))|
    ensures LearnerAssignments(st.assignments, ClientLearners(st.users, c.id)) != [] ==> r.coursesAssigned >= 1
    ensures r.completionRate <= 100 && r.completionRate == SuperDashboard.ActivityFor(st, c).percent
  {
    var learners := ClientLearners(st.users, c.id);
    var given := LearnerAssignments(st.assignments, learners);
    var distinct := DistinctCount(Map(given, ContentKey()));
    assert distinct == |KeySet(given, ContentKey())| by { DistinctKeys(given, ContentKey()); }
    ClientMetric(c, |learners|, Count(learners, IsActiveUser()), distinct,
                 CompletionRate(ClientProgress(st.progress, learners)))
  }

  /** The table: one row per listed client, in list order. */
  function ClientMetrics(st: Store): (r: seq<ClientMetric>)
    ensures |r| == |st.clients|
    ensures forall i :: 0 <= i < |r| ==> r[i] == MetricFor(st, st.clients[i])
  {
    Map(st.clients, (c: Client) => MetricFor(st, c))
  }

  /**
   * Course ids and track ids share one key space, so a course and a track
   * with the same id count as one assigned item (the seed data assigns
   * course 1 and track 1 to two learners of client 1).
   */
  lemma CourseAndTrackWithSameIdCountOnce(st: Store, c: Client, course: Assignment, track: Assignment, k: Id)
    requires LearnerAssignments(st.assignments, ClientLearners(st.users, c.id)) == [course, track]
    requires course.course_id == Some(k) && track.course_id == None && track.track_id == Some(k)
    ensures MetricFor(st, c).coursesAssigned == 1
  {
    var keys: seq<Option<Id>> := Map([course, track], ContentKey());
    assert keys == [Some(k), Some(k)];
    assert keys[1..] == [Some(k)] && |keys[1..][1..]| == 0;
    assert ToSet(keys) == {Some(k)};
  }

  /**
   * The client dashboard scopes assignments by `client_id`, this page by
   * assignee; with distinct user ids the two agree when every assignment is
   * given to a learner and filed under that learner's client.
   */
  lemma AssignmentScopesAgree(st: Store, client: Id)
    requires UniqueBy(st.users, (u: User) => u.id)
    requires forall a :: a in st.assignments ==>
               exists u :: u in st.users && u.id == a.user_id && u.role == Learner && u.client_id == Some(a.client_id)
    ensures LearnerAssignments(st.assignments, ClientLearners(st.users, client)) == ClientAssignments(st.assignments, client)
  {
    var learners := ClientLearners(st.users, client);
    forall a | a in st.assignments ensures AssigneeIn(learners)(a) == FiledUnder(client)(a) {
      var u :| u in st.users && u.id == a.user_id && u.role == Learner && u.client_id == Some(a.client_id);
      var i :| 0 <= i < |st.users| && st.users[i] == u;
      forall v | v in learners && v.id == a.user_id ensures v.client_id == Some(a.client_id) {
        var j :| 0 <= j < |st.users| && st.users[j] == v;
        assert i == j;
      }
      if a.client_id == client {
        assert u in learners;
      }
    }
    FilterCongruent(st.assignments, AssigneeIn(learners), FiledUnder(client));
  }
}
