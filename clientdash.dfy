/**
 * The client admin's dashboard: the client's learners, the assignments filed
 * under the client, the progress rows of those learners, the headline cards
 * and one table row per learner with that learner's assignments and
 * completion rate. The scoping functions here are the ones the super admin's
 * dashboard and the analytics page repeat for every client.
 */
module ClientDashboard {
  import opened Optional
  import opened Seqs
  import opened Rounding
  import opened Entities
  import opened Metrics
  import opened Clients
  import Assignments
  import LearnerPage = Learner

  /** The client the page is fixed to (Acme Corp). */
  const Acme: Id := 1

  /** `users.filter((u) => u.client_id === client && u.role === "learner")`. */
  function ClientLearners(users: seq<User>, client: Id): (r: seq<User>)
    ensures forall u :: u in r <==> u in users && u.client_id == Some(client) && u.role == Learner
  {
    Filter(users, LearnerOf(client))
  }

  /** `(p) => learners.some((u) => u.id === p.user_id)`. */
  function ByLearnerIn(learners: seq<User>): Progress -> bool {
    (p: Progress) => exists u :: u in learners && u.id == p.user_id
  }

  /** The progress rows of the listed learners, in list order. */
  function ClientProgress(progress: seq<Progress>, learners: seq<User>): (r: seq<Progress>)
    ensures forall p :: p in r <==> p in progress && exists u :: u in learners && u.id == p.user_id
  {
    Filter(progress, ByLearnerIn(learners))
  }

  /** `(a) => a.client_id === client`. */
  function FiledUnder(client: Id): Assignment -> bool {
    (a: Assignment) => a.client_id == client
  }

  /** The assignments filed under the client, whoever their assignee is. */
  function ClientAssignments(assignments: seq<Assignment>, client: Id): (r: seq<Assignment>)
    ensures forall a :: a in r <==> a in assignments && a.client_id == client
  {
    Filter(assignments, FiledUnder(client))
  }

  /** The headline cards; "Completion Rate" and "Avg Progress" show one figure. */
  datatype Cards = Cards(learners: nat, assignments: nat, completionRate: nat, avgProgress: nat)

  /**
   * The cards of `client`: its learners, its filed assignments, and the
   * rounded share of completed rows among its learners' rows, pooled over
   * all of them.
   */
  function DashboardCards(st: Store, client: Id): (r: Cards)
    ensures r.learners == Count(st.users, LearnerOf(client)) <= |st.users|
    ensures r.assignments == Count(st.assignments, FiledUnder(client)) <= |st.assignments|
    ensures r.completionRate == r.avgProgress <= 100
    ensures r.completionRate == CompletionRate(ClientProgress(st.progress, ClientLearners(st.users, client)))
  {
    var learners := ClientLearners(st.users, client);
    var rate := CompletionRate(ClientProgress(st.progress, learners));
    Cards(|learners|, |ClientAssignments(st.assignments, client)|, rate, rate)
  }

  /** One row of the learner table. */
  datatype LearnerRow = LearnerRow(user: User, assignments: nat, rate: nat)

  /** The "Assignments" cell: the learner's assignments among those filed under the client. */
  function AssignedCount(filed: seq<Assignment>): User -> int {
    (u: User) => Count(filed, Assignments.AssignedTo(u.id))
  }

  /**
   * The row of learner `u`: the assignments filed under the client that are
   * the learner's, and the rounded share of completed rows among the
   * learner's rows inside the client's rows.
   */
  function RowFor(st: Store, client: Id, u: User): (r: LearnerRow)
    ensures r.user == u
    ensures r.assignments <= Count(st.assignments, FiledUnder(client))
    ensures r.rate <= 100
  {
    var filed := ClientAssignments(st.assignments, client);
    var rows := UserProgress(ClientProgress(st.progress, ClientLearners(st.users, client)), u.id);
    LearnerRow(u, Count(filed, Assignments.AssignedTo(u.id)), CompletionRate(rows))
  }

  /** The table: one row per learner of the client, in user-list order. */
  function LearnerRows(st: Store, client: Id): (r: seq<LearnerRow>)
    ensures |r| == Count(st.users, LearnerOf(client))
    ensures forall i :: 0 <= i < |r| ==> r[i] == RowFor(st, client, ClientLearners(st.users, client)[i])
  {
    Map(ClientLearners(st.users, client), (u: User) => RowFor(st, client, u))
  }

  /**
   * A learner's rate in the table is the overall percentage on that
   * learner's own dashboard: scoping to the client first drops none of the
   * learner's rows.
   */
  lemma RowRateIsLearnerOverall(st: Store, client: Id, u: User)
    requires u in ClientLearners(st.users, client)
    ensures RowFor(st, client, u).rate == LearnerPage.DashboardHeadline(st, u.id).overall
  {
    var learners := ClientLearners(st.users, client);
    FilterNarrowing(st.progress, ByLearnerIn(learners), OfUser(u.id));
  }

  /**
   * A learner's "Assignments" cell is the count on that learner's own
   * dashboard exactly when all of the learner's assignments are filed under
   * the client.
   */
  lemma RowAssignmentsAreLearnerCount(st: Store, client: Id, u: User)
    requires forall a :: a in st.assignments && a.user_id == u.id ==> a.client_id == client
    ensures RowFor(st, client, u).assignments == LearnerPage.DashboardHeadline(st, u.id).assignedCount
  {
    FilterNarrowing(st.assignments, FiledUnder(client), Assignments.AssignedTo(u.id));
  }

  /**
   * The cards pool the rows of all learners, so "Avg Progress" is not the
   * mean of the table's rates: one learner with one completed row and
   * another with three open rows show 100 and 0 in the table and 25 on the
   * card.
   */
  lemma PooledRateIsNotMeanOfRows(done: Progress, open: Progress)
    requires done.completed && !open.completed && done.user_id != open.user_id
    ensures CompletionRate([done, open, open, open]) == 25
    ensures CompletionRate(UserProgress([done, open, open, open], done.user_id)) == 100
    ensures CompletionRate(UserProgress([done, open, open, open], open.user_id)) == 0
  {
    var opens := [open, open, open];
    assert [done, open, open, open] == [done] + opens;
    assert [done][1..] == [];
    assert CompletionRate([done] + opens) == 25 by {
      FilterAppend([done], opens, IsCompleted());
      FilterNone(opens, IsCompleted());
      assert Filter([done], IsCompleted()) == [done];
      assert Percent(1, 4) == 25;
    }
    assert UserProgress([done] + opens, done.user_id) == [done] by {
      FilterAppend([done], opens, OfUser(done.user_id));
      FilterNone(opens, OfUser(done.user_id));
      assert Filter([done], OfUser(done.user_id)) == [done];
    }
    assert CompletionRate([done]) == 100 by {
      assert Filter([done], IsCompleted()) == [done];
    }
    assert UserProgress([done] + opens, open.user_id) == opens by {
      FilterAppend([done], opens, OfUser(open.user_id));
      FilterAll(opens, OfUser(open.user_id));
      assert Filter([done], OfUser(open.user_id)) == [];
    }
    FilterNone(opens, IsCompleted());
  }

  /** `(a) => learners.some((u) => u.id === a.user_id)`. */
  function AssigneeIn(learners: seq<User>): Assignment -> bool {
    (a: Assignment) => exists u :: u in learners && u.id == a.user_id
  }

  /**
   * With distinct user ids, the "Assignments" column sums to the filed
   * assignments whose assignee is one of the listed learners.
   */
  lemma {:induction false} AssignedColumnSum(filed: seq<Assignment>, learners: seq<User>)
    requires UniqueBy(learners, (u: User) => u.id)
    ensures Sum(learners, AssignedCount(filed)) == Count(filed, AssigneeIn(learners))
  {
    if learners == [] {
      FilterNone(filed, AssigneeIn(learners));
    } else {
      var rest := learners[1..];
      assert UniqueBy(rest, (u: User) => u.id) by {
        forall i, j | 0 <= i < j < |rest| ensures rest[i].id != rest[j].id {
          assert rest[i] == learners[i + 1] && rest[j] == learners[j + 1];
        }
      }
      AssignedColumnSum(filed, rest);
      forall u | u in rest ensures u.id != learners[0].id {
        var k :| 0 <= k < |rest| && rest[k] == u;
        assert learners[k + 1] == u;
      }
      forall a | a in filed
        ensures AssigneeIn(learners)(a) == (Assignments.AssignedTo(learners[0].id)(a) || AssigneeIn(rest)(a))
      {
        if AssigneeIn(learners)(a) {
          var u :| u in learners && u.id == a.user_id;
          if u != learners[0] {
            var k :| 0 <= k < |learners| && learners[k] == u;
            assert rest[k - 1] == u;
          }
        }
        if AssigneeIn(rest)(a) {
          var u :| u in rest && u.id == a.user_id;
          var k :| 0 <= k < |rest| && rest[k] == u;
          assert learners[k + 1] == u;
        }
      }
      CountDisjoint(filed, Assignments.AssignedTo(learners[0].id), AssigneeIn(rest), AssigneeIn(learners));
    }
  }

  /**
   * With distinct user ids, the "Assignments" column never adds up to more
   * than the "Active Assignments" card; assignments filed under the client
   * for its admins are on the card and in no row.
   */
  lemma AssignedColumnBounded(st: Store, client: Id)
    requires UniqueBy(st.users, (u: User) => u.id)
    ensures Sum(LearnerRows(st, client), (r: LearnerRow) => r.assignments) <= DashboardCards(st, client).assignments
  {
    var learners := ClientLearners(st.users, client);
    var filed := ClientAssignments(st.assignments, client);
    FilterUniqueBy(st.users, (u: User) => u.id, LearnerOf(client));
    AssignedColumnSum(filed, learners);
    RowsSumIsColumn(st, client, learners);
  }

  /** The table's column, summed row by row, is the per-learner count summed over the learners. */
  lemma {:induction false} RowsSumIsColumn(st: Store, client: Id, learners: seq<User>)
    ensures Sum(Map(learners, (u: User) => RowFor(st, client, u)), (r: LearnerRow) => r.assignments)
         == Sum(learners, AssignedCount(ClientAssignments(st.assignments, client)))
  {
    var f := (u: User) => RowFor(st, client, u);
    if learners != [] {
      assert Map(learners, f)[1..] == Map(learners[1..], f);
      RowsSumIsColumn(st, client, learners[1..]);
    }
  }
}
