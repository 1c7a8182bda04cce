/**
 * The super admin's client page: the organisations, their search, the add
 * dialog, deletion, the per-client user statistics and the "assign content"
 * dialog, which checks its selection and then records nothing.
 */
module Clients {
  import opened Optional
  import opened Seqs
  import opened Text
  import opened Entities
  import opened Seed

  /** The colour the add form starts with and returns to after an add. */
  const DefaultColor := "#1E3A8A"

  /** The add form. */
  datatype ClientForm = ClientForm(name: string, logo_url: string, primary_color: string)

  function EmptyForm(): ClientForm {
    ClientForm("", "", DefaultColor)
  }

  /** `client.name.toLowerCase().includes(searchQuery.toLowerCase())`. */
  predicate NameMatches(c: Client, query: string) {
    Contains(Lower(c.name), Lower(query))
  }

  /** `filteredClients`: the clients whose name contains the query, in list order. */
  function FilteredClients(clients: seq<Client>, query: string): (r: seq<Client>)
    ensures forall c :: c in r <==> c in clients && NameMatches(c, query)
  {
    Filter(clients, (c: Client) => NameMatches(c, query))
  }

  /** An empty search keeps every client. */
  lemma EmptyClientSearchKeepsAll(clients: seq<Client>)
    ensures FilteredClients(clients, "") == clients
  {
    forall c | c in clients ensures NameMatches(c, "") {
      ContainsEmpty(Lower(c.name));
    }
    FilterAll(clients, (c: Client) => NameMatches(c, ""));
  }

  /** The client an add builds from the form: numbered `|clients| + 1`, active. */
  function NewClient(clients: seq<Client>, form: ClientForm, now: Timestamp): (c: Client)
    ensures c.id == |clients| + 1 && c.is_active
    ensures c.name == form.name && c.logo_url == form.logo_url && c.primary_color == form.primary_color
  {
    Client(|clients| + 1, form.name, form.logo_url, form.primary_color, true, now)
  }

  /** `(c) => c.id !== id`. */
  function KeepsClient(id: Id): Client -> bool {
    (c: Client) => c.id != id
  }

  /** `clients.filter((c) => c.id !== id)`. */
  function WithoutClient(clients: seq<Client>, id: Id): (r: seq<Client>)
    ensures forall c :: c in r <==> c in clients && c.id != id
  {
    Filter(clients, KeepsClient(id))
  }

  /** `(c) => c.is_active`. */
  function IsActiveClient(): Client -> bool {
    (c: Client) => c.is_active
  }

  /** The "Active Clients" card. */
  function ActiveClients(clients: seq<Client>): (n: nat)
    ensures n <= |clients|
  {
    Count(clients, IsActiveClient())
  }

  /** An add raises both "Total Clients" and "Active Clients" by one. */
  lemma AddRaisesCounts(clients: seq<Client>, form: ClientForm, now: Timestamp)
    ensures var after := clients + [NewClient(clients, form, now)];
            |after| == |clients| + 1 && ActiveClients(after) == ActiveClients(clients) + 1
  {
    var c := NewClient(clients, form, now);
    CountAppend(clients, [c], IsActiveClient());
    assert Count([c], IsActiveClient()) == 1 by {
      assert [c][1..] == [];
    }
  }

  /** With distinct ids, the count of clients carrying a present id is exactly one. */
  lemma {:induction false} CountPresentId(clients: seq<Client>, id: Id)
    requires UniqueBy(clients, (c: Client) => c.id)
    requires exists c :: c in clients && c.id == id
    ensures Count(clients, (c: Client) => c.id == id) == 1
  {
    var rest := clients[1..];
    assert UniqueBy(rest, (c: Client) => c.id) by {
      forall i, j | 0 <= i < j < |rest| ensures rest[i].id != rest[j].id {
        assert rest[i] == clients[i + 1] && rest[j] == clients[j + 1];
      }
    }
    if clients[0].id == id {
      forall c | c in rest ensures c.id != id {
        var k :| 0 <= k < |rest| && rest[k] == c;
        assert clients[k + 1] == c;
      }
      FilterNone(rest, (c: Client) => c.id == id);
    } else {
      CountPresentId(rest, id);
    }
  }

  /** Deleting a present client removes exactly one row when ids are distinct, and nothing otherwise. */
  lemma DeleteRemovesOne(clients: seq<Client>, id: Id)
    requires UniqueBy(clients, (c: Client) => c.id)
    ensures (exists c :: c in clients && c.id == id) ==> |WithoutClient(clients, id)| == |clients| - 1
    ensures (forall c :: c in clients ==> c.id != id) ==> WithoutClient(clients, id) == clients
  {
    if exists c :: c in clients && c.id == id {
      CountPresentId(clients, id);
      CountComplement(clients, (c: Client) => c.id == id, KeepsClient(id));
    } else {
      FilterAll(clients, KeepsClient(id));
    }
  }

  /**
   * Numbering by `clients.length + 1` reuses a live id once a client is
   * deleted: add a client to the seed (id 2), delete client 1, add again,
   * and two clients carry id 2.
   */
  lemma ClientIdReusedAfterDelete(now: Timestamp, form: ClientForm)
    ensures var one := SeedClients(now) + [NewClient(SeedClients(now), form, now)];
            var two := WithoutClient(one, 1);
            var three := two + [NewClient(two, form, now)];
            !UniqueBy(three, (c: Client) => c.id)
  {
    var one := SeedClients(now) + [NewClient(SeedClients(now), form, now)];
    assert one[1..][1..] == [];
    var two := WithoutClient(one, 1);
    assert two == [one[1]];
    var three := two + [NewClient(two, form, now)];
    assert three[0].id == 2 && three[1].id == 2;
  }

  /** A client's row statistics: its learners and its admins. */
  datatype ClientStats = ClientStats(learners: nat, admins: nat)

  /** `(u) => u.client_id === client && u.role === "learner"`. */
  function LearnerOf(client: Id): User -> bool {
    (u: User) => u.client_id == Some(client) && u.role == Learner
  }

  /** `(u) => u.client_id === client && u.role === "client_admin"`. */
  function AdminOf(client: Id): User -> bool {
    (u: User) => u.client_id == Some(client) && u.role == ClientAdmin
  }

  /** `(u) => u.client_id === client`. */
  function MemberOf(client: Id): User -> bool {
    (u: User) => u.client_id == Some(client)
  }

  /** `getClientStats`: learners and admins never outnumber the client's users. */
  function GetClientStats(users: seq<User>, client: Id): (r: ClientStats)
    ensures r.learners + r.admins <= Count(users, MemberOf(client))
  {
    var r := ClientStats(Count(users, LearnerOf(client)), Count(users, AdminOf(client)));
    var both := (u: User) => LearnerOf(client)(u) || AdminOf(client)(u);
    CountDisjoint(users, LearnerOf(client), AdminOf(client), both);
    CountMonotone(users, both, MemberOf(client));
    r
  }

  /** `(u) => u.role === "learner"`. */
  function IsLearner(): User -> bool {
    (u: User) => u.role == Learner
  }

  /** The "Total Learners" card: every learner of the platform, whatever the client list holds. */
  function TotalLearners(users: seq<User>): (n: nat)
    ensures n <= |users|
  {
    Count(users, IsLearner())
  }

  /** The learners column summed over the listed clients. */
  function ListedLearners(users: seq<User>, clients: seq<Client>): nat {
    if clients == [] then 0 else GetClientStats(users, clients[0].id).learners + ListedLearners(users, clients[1..])
  }

  /** A learner of one of the listed clients. */
  function LearnerOfListed(clients: seq<Client>): User -> bool {
    (u: User) => u.role == Learner && exists c :: c in clients && u.client_id == Some(c.id)
  }

  /** With distinct client ids, the learners column sums to the learners of the listed clients. */
  lemma {:induction false} ListedLearnersCount(users: seq<User>, clients: seq<Client>)
    requires UniqueBy(clients, (c: Client) => c.id)
    ensures ListedLearners(users, clients) == Count(users, LearnerOfListed(clients))
  {
    if clients == [] {
      FilterNone(users, LearnerOfListed(clients));
    } else {
      var rest := clients[1..];
      assert UniqueBy(rest, (c: Client) => c.id) by {
        forall i, j | 0 <= i < j < |rest| ensures rest[i].id != rest[j].id {
          assert rest[i] == clients[i + 1] && rest[j] == clients[j + 1];
        }
      }
      ListedLearnersCount(users, rest);
      forall c | c in rest ensures c.id != clients[0].id {
        var k :| 0 <= k < |rest| && rest[k] == c;
        assert clients[k + 1] == c;
      }
      forall u | u in users
        ensures LearnerOfListed(clients)(u) == (LearnerOf(clients[0].id)(u) || LearnerOfListed(rest)(u))
      {
        if LearnerOfListed(clients)(u) {
          var c :| c in clients && u.client_id == Some(c.id);
          if c != clients[0] {
            var k :| 0 <= k < |clients| && clients[k] == c;
            assert rest[k - 1] == c;
          }
        }
        if LearnerOfListed(rest)(u) {
          var c :| c in rest && u.client_id == Some(c.id);
          var k :| 0 <= k < |rest| && rest[k] == c;
          assert clients[k + 1] == c;
        }
      }
      CountDisjoint(users, LearnerOf(clients[0].id), LearnerOfListed(rest), LearnerOfListed(clients));
    }
  }

  /**
   * "Total Learners" is at least the learners column summed over the
   * listed clients; learners of deleted clients keep counting.
   */
  lemma ListedLearnersBounded(users: seq<User>, clients: seq<Client>)
    requires UniqueBy(clients, (c: Client) => c.id)
    ensures ListedLearners(users, clients) <= TotalLearners(users)
  {
    ListedLearnersCount(users, clients);
    CountMonotone(users, LearnerOfListed(clients), IsLearner());
  }

  /** The page's state. */
  class ClientsPage {
    var clients: seq<Client>
    var searchQuery: string
    var addDialogOpen: bool
    var assignDialogOpen: bool
    var selectedClient: Option<Client>
    var selectedCourses: seq<Id>
    var selectedTracks: seq<Id>
    var newClient: ClientForm

    /** The page opens on the seed clients, an empty search and closed dialogs. */
    constructor(now: Timestamp)
      ensures clients == SeedClients(now) && searchQuery == ""
      ensures !addDialogOpen && !assignDialogOpen && selectedClient == None
      ensures selectedCourses == [] && selectedTracks == [] && newClient == EmptyForm()
    {
      clients, searchQuery := SeedClients(now), "";
      addDialogOpen, assignDialogOpen, selectedClient := false, false, None;
      selectedCourses, selectedTracks, newClient := [], [], EmptyForm();
    }

    /** Typing in the search box; the table shows `FilteredClients(clients, searchQuery)`. */
    method EditSearch(query: string)
      modifies this
      ensures searchQuery == query
      ensures clients == old(clients) && newClient == old(newClient)
      ensures addDialogOpen == old(addDialogOpen) && assignDialogOpen == old(assignDialogOpen)
      ensures selectedClient == old(selectedClient)
      ensures selectedCourses == old(selectedCourses) && selectedTracks == old(selectedTracks)
    {
      searchQuery := query;
    }

    /** Typing in the add form (name, logo URL, colour). */
    method EditForm(form: ClientForm)
      modifies this
      ensures newClient == form
      ensures clients == old(clients) && searchQuery == old(searchQuery)
      ensures addDialogOpen == old(addDialogOpen) && assignDialogOpen == old(assignDialogOpen)
      ensures selectedClient == old(selectedClient)
      ensures selectedCourses == old(selectedCourses) && selectedTracks == old(selectedTracks)
    {
      newClient := form;
    }

    /**
     * `handleAddClient`: rejected without a name; otherwise appends the
     * form's client, resets the form to its defaults and closes the dialog.
     */
    method AddClient(now: Timestamp) returns (ok: bool)
      modifies this
      ensures ok <==> old(newClient).name != []
      ensures !ok ==> unchanged(this)
      ensures ok ==> clients == old(clients) + [NewClient(old(clients), old(newClient), now)]
      ensures ok ==> newClient == EmptyForm() && !addDialogOpen
      ensures ok ==> searchQuery == old(searchQuery) && assignDialogOpen == old(assignDialogOpen)
      ensures ok ==> selectedClient == old(selectedClient)
      ensures ok ==> selectedCourses == old(selectedCourses) && selectedTracks == old(selectedTracks)
    {
      if newClient.name == [] {
        return false;
      }
      clients := clients + [NewClient(clients, newClient, now)];
      newClient := EmptyForm();
      addDialogOpen := false;
      ok := true;
    }

    /** `handleDeleteClient`: drops every client with that id. */
    method DeleteClient(id: Id)
      modifies this
      ensures clients == WithoutClient(old(clients), id)
      ensures searchQuery == old(searchQuery) && newClient == old(newClient)
      ensures addDialogOpen == old(addDialogOpen) && assignDialogOpen == old(assignDialogOpen)
      ensures selectedClient == old(selectedClient)
      ensures selectedCourses == old(selectedCourses) && selectedTracks == old(selectedTracks)
    {
      clients := WithoutClient(clients, id);
    }

    /** `handleOpenAssignDialog`: remembers the client and opens the dialog; earlier ticks stay. */
    method OpenAssignDialog(client: Client)
      modifies this
      ensures selectedClient == Some(client) && assignDialogOpen
      ensures clients == old(clients) && searchQuery == old(searchQuery) && newClient == old(newClient)
      ensures addDialogOpen == old(addDialogOpen)
      ensures selectedCourses == old(selectedCourses) && selectedTracks == old(selectedTracks)
    {
      selectedClient := Some(client);
      assignDialogOpen := true;
    }

    /** A course checkbox's `onCheckedChange`. */
    method SetCourseChecked(course: Id, checked: bool)
      modifies this
      ensures selectedCourses == SetChecked(old(selectedCourses), course, checked)
      ensures clients == old(clients) && searchQuery == old(searchQuery) && newClient == old(newClient)
      ensures addDialogOpen == old(addDialogOpen) && assignDialogOpen == old(assignDialogOpen)
      ensures selectedClient == old(selectedClient) && selectedTracks == old(selectedTracks)
    {
      selectedCourses := SetChecked(selectedCourses, course, checked);
    }

    /** A track checkbox's `onCheckedChange`. */
    method SetTrackChecked(track: Id, checked: bool)
      modifies this
      ensures selectedTracks == SetChecked(old(selectedTracks), track, checked)
      ensures clients == old(clients) && searchQuery == old(searchQuery) && newClient == old(newClient)
      ensures addDialogOpen == old(addDialogOpen) && assignDialogOpen == old(assignDialogOpen)
      ensures selectedClient == old(selectedClient) && selectedCourses == old(selectedCourses)
    {
      selectedTracks := SetChecked(selectedTracks, track, checked);
    }

    /**
     * `handleAssignContent`: does nothing without a selected client; is
     * rejected when neither a course nor a track is ticked; otherwise closes
     * and clears the dialog. No assignment is stored anywhere.
     */
    method AssignContent() returns (ok: bool)
      modifies this
      ensures ok <==> old(selectedClient).Some? && (old(selectedCourses) != [] || old(selectedTracks) != [])
      ensures !ok ==> unchanged(this)
      ensures ok ==> !assignDialogOpen && selectedClient == None && selectedCourses == [] && selectedTracks == []
      ensures clients == old(clients) && searchQuery == old(searchQuery) && newClient == old(newClient)
      ensures addDialogOpen == old(addDialogOpen)
    {
      if selectedClient.None? {
        return false;
      }
      if selectedCourses == [] && selectedTracks == [] {
        return false;
      }
      assignDialogOpen, selectedClient, selectedCourses, selectedTracks := false, None, [], [];
      ok := true;
    }

    /** The dialog's Cancel button: closes and clears without checking anything. */
    method CancelAssign()
      modifies this
      ensures !assignDialogOpen && selectedClient == None && selectedCourses == [] && selectedTracks == []
      ensures clients == old(clients) && searchQuery == old(searchQuery) && newClient == old(newClient)
      ensures addDialogOpen == old(addDialogOpen)
    {
      assignDialogOpen, selectedClient, selectedCourses, selectedTracks := false, None, [], [];
    }
  }
}
