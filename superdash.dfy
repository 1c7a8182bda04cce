/**
 * The super admin's dashboard: the platform cards (active clients, learners,
 * courses and the platform completion rate, computed with the `|| 0` idiom
 * instead of a guard) and the "Client Activity" list with each client's
 * completed and total progress rows.
 */
module SuperDashboard {
  import opened Optional
  import opened Seqs
  import opened Rounding
  import opened Entities
  import opened Metrics
  import opened Clients
  import opened ClientDashboard

  /** A JavaScript number as far as the page needs one: NaN or an integer. */
  datatype JsNumber = NaN | Finite(value: int)

  /** `x || 0`: NaN and 0 are falsy, so both give 0. */
  function OrZero(x: JsNumber): (r: int)
    ensures x.NaN? ==> r == 0
    ensures x.Finite? ==> r == x.value
  {
    match x
    case NaN => 0
    case Finite(v) => if v == 0 then 0 else v
  }

  /** `Math.round((completed / rows.length) * 100)` without a guard: `0 / 0` is NaN. */
  function RoundedShare(rows: seq<Progress>): (r: JsNumber)
    ensures r.NaN? <==> rows == []
  {
    if rows == [] then NaN else Finite(RoundDiv(100 * CompletedCount(rows), |rows|))
  }

  /** The "Completion Rate" card: the unguarded share, with NaN turned into 0. */
  function PlatformRate(progress: seq<Progress>): (r: int)
    ensures r == CompletionRate(progress)
  {
    OrZero(RoundedShare(progress))
  }

  /** The four platform cards. */
  datatype PlatformCards = PlatformCards(activeClients: nat, learners: nat, courses: nat, completionRate: int)

  /**
   * The cards: active clients among the listed ones, learners of the whole
   * platform, every course, and the platform completion rate, which is the
   * guarded rate the other pages compute.
   */
  function DashboardCards(st: Store): (r: PlatformCards)
    ensures r.activeClients <= |st.clients| && r.learners <= |st.users| && r.courses == |st.courses|
    ensures r.activeClients == Count(st.clients, IsActiveClient())
    ensures r.learners == Count(st.users, IsLearner())
    ensures 0 <= r.completionRate <= 100 && r.completionRate == CompletionRate(st.progress)
  {
    PlatformCards(ActiveClients(st.clients), TotalLearners(st.users), |st.courses|, PlatformRate(st.progress))
  }

  /** One entry of "Client Activity": "`completed` of `total` items completed" and the bar. */
  datatype Activity = Activity(client: Client, completed: nat, total: nat, percent: nat)

  /**
   * The entry of `c`: its learners' completed and total rows, and the bar,
   * which is the completion rate on that client's own dashboard.
   */
  function ActivityFor(st: Store, c: Client): (r: Activity)
    ensures r.client == c
    ensures r.completed <= r.total == |ClientProgress(st.progress, ClientLearners(st.users, c.id))|
    ensures r.percent <= 100 && r.percent == ClientDashboard.DashboardCards(st, c.id).completionRate
    ensures r.total > 0 ==> 2 * r.total * r.percent <= 200 * r.completed + r.total < 2 * r.total * (r.percent + 1)
  {
    var rows := ClientProgress(st.progress, ClientLearners(st.users, c.id));
    Activity(c, CompletedCount(rows), |rows|, CompletionRate(rows))
  }

  /** "Client Activity": one entry per listed client, in list order. */
  function ClientActivity(st: Store): (r: seq<Activity>)
    ensures |r| == |st.clients|
    ensures forall i :: 0 <= i < |r| ==> r[i] == ActivityFor(st, st.clients[i])
  {
    Map(st.clients, (c: Client) => ActivityFor(st, c))
  }

  /** The "items" of one client's entry. */
  function ClientItems(users: seq<User>, progress: seq<Progress>): Client -> int {
    (c: Client) => |ClientProgress(progress, ClientLearners(users, c.id))|
  }

  /** A progress row of a learner of one of the listed clients. */
  function ByListedClient(users: seq<User>, clients: seq<Client>): Progress -> bool {
    (p: Progress) => exists c :: c in clients && ByLearnerIn(ClientLearners(users, c.id))(p)
  }

  /** A row of a learner of one client is no row of another client's learners when user ids are distinct. */
  lemma RowOfOneClient(users: seq<User>, p: Progress, a: Id, b: Id)
    requires UniqueBy(users, (u: User) => u.id)
    requires a != b && ByLearnerIn(ClientLearners(users, a))(p)
    ensures !ByLearnerIn(ClientLearners(users, b))(p)
  {
    var u :| u in ClientLearners(users, a) && u.id == p.user_id;
    var i :| 0 <= i < |users| && users[i] == u;
    forall v | v in ClientLearners(users, b) ensures v.id != p.user_id {
      var j :| 0 <= j < |users| && users[j] == v;
      assert i != j;
    }
  }

  /** A row of the listed clients is a row of the first client or of the others. */
  lemma ListedClientSplit(users: seq<User>, clients: seq<Client>, p: Progress)
    requires clients != []
    ensures ByListedClient(users, clients)(p) ==
              (ByLearnerIn(ClientLearners(users, clients[0].id))(p) || ByListedClient(users, clients[1..])(p))
  {
    var rest := clients[1..];
    if ByListedClient(users, clients)(p) {
      var c :| c in clients && ByLearnerIn(ClientLearners(users, c.id))(p);
      if c != clients[0] {
        var k :| 0 <= k < |clients| && clients[k] == c;
        assert rest[k - 1] == c;
      }
    }
    if ByListedClient(users, rest)(p) {
      var c :| c in rest && ByLearnerIn(ClientLearners(users, c.id))(p);
      var k :| 0 <= k < |rest| && rest[k] == c;
      assert clients[k + 1] == c;
    }
  }

  /** With distinct ids, no row is both the first client's and another listed client's. */
  lemma ListedClientExclusive(users: seq<User>, clients: seq<Client>, p: Progress)
    requires UniqueBy(users, (u: User) => u.id)
    requires UniqueBy(clients, (c: Client) => c.id)
    requires clients != []
    ensures ByLearnerIn(ClientLearners(users, clients[0].id))(p) ==> !ByListedClient(users, clients[1..])(p)
  {
    var rest := clients[1..];
    if ByLearnerIn(ClientLearners(users, clients[0].id))(p) {
      forall c | c in rest ensures !ByLearnerIn(ClientLearners(users, c.id))(p) {
        var k :| 0 <= k < |rest| && rest[k] == c;
        assert clients[k + 1] == c;
        RowOfOneClient(users, p, clients[0].id, c.id);
      }
    }
  }

  /**
   * With distinct user and client ids, the entries' item counts add up to
   * the rows of the listed clients' learners.
   */
  lemma {:induction false} ActivityTotalsCount(users: seq<User>, progress: seq<Progress>, clients: seq<Client>)
    requires UniqueBy(users, (u: User) => u.id)
    requires UniqueBy(clients, (c: Client) => c.id)
    ensures Sum(clients, ClientItems(users, progress)) == Count(progress, ByListedClient(users, clients))
  {
    if clients == [] {
      FilterNone(progress, ByListedClient(users, clients));
    } else {
      var rest := clients[1..];
      assert UniqueBy(rest, (c: Client) => c.id) by {
        forall i, j | 0 <= i < j < |rest| ensures rest[i].id != rest[j].id {
          assert rest[i] == clients[i + 1] && rest[j] == clients[j + 1];
        }
      }
      ActivityTotalsCount(users, progress, rest);
      var first := ByLearnerIn(ClientLearners(users, clients[0].id));
      forall p | p in progress ensures ByListedClient(users, clients)(p) == (first(p) || ByListedClient(users, rest)(p)) {
        ListedClientSplit(users, clients, p);
      }
      forall p | p in progress ensures !(first(p) && ByListedClient(users, rest)(p)) {
        ListedClientExclusive(users, clients, p);
      }
      CountDisjoint(progress, first, ByListedClient(users, rest), ByListedClient(users, clients));
    }
  }

  /**
   * With distinct user and client ids, the entries never claim more items
   * than there are progress rows: no row is counted for two clients.
   */
  lemma ActivityTotalsBounded(st: Store)
    requires UniqueBy(st.users, (u: User) => u.id)
    requires UniqueBy(st.clients, (c: Client) => c.id)
    ensures Sum(ClientActivity(st), (a: Activity) => a.total) <= |st.progress|
  {
    ActivityTotalsCount(st.users, st.progress, st.clients);
    EntriesSumIsItems(st, st.clients);
  }

  /** The entries' item counts, summed entry by entry, are the clients' items. */
  lemma {:induction false} EntriesSumIsItems(st: Store, clients: seq<Client>)
    ensures Sum(Map(clients, (c: Client) => ActivityFor(st, c)), (a: Activity) => a.total)
         == Sum(clients, ClientItems(st.users, st.progress))
  {
    var f := (c: Client) => ActivityFor(st, c);
    if clients != [] {
      assert Map(clients, f)[1..] == Map(clients[1..], f);
      EntriesSumIsItems(st, clients[1..]);
    }
  }
}
