/**
 * The client admin's user page: the client's learners, the search box, the
 * add-one and bulk-invite dialogs, deactivation and the summary counts.
 */
module Users {
  import opened Optional
  import opened Seqs
  import opened Text
  import opened Entities
  import opened Seed

  /** The page belongs to the admin of client 1. */
  const PageClient: Id := 1

  /** Numbers handed to added users start at the list length plus this offset. */
  const IdOffset: nat := 100

  /** The search matches a user when the lower-cased query occurs in the lower-cased first name, last name or email. */
  predicate Matches(u: User, query: string) {
    var q := Lower(query);
    Contains(Lower(u.first_name), q) || Contains(Lower(u.last_name), q) || Contains(Lower(u.email), q)
  }

  /** `filteredUsers`: the users the search keeps, in list order. */
  function FilteredUsers(users: seq<User>, query: string): (r: seq<User>)
    ensures forall u :: u in r <==> u in users && Matches(u, query)
  {
    Filter(users, (u: User) => Matches(u, query))
  }

  /** An empty search keeps every user. */
  lemma EmptySearchKeepsAll(users: seq<User>)
    ensures FilteredUsers(users, "") == users
  {
    forall u | u in users ensures Matches(u, "") {
      ContainsEmpty(Lower(u.first_name));
    }
    FilterAll(users, (u: User) => Matches(u, ""));
  }

  /** The search ignores the case of the query's ASCII letters. */
  lemma SearchIgnoresQueryCase(users: seq<User>, query: string)
    ensures FilteredUsers(users, Lower(query)) == FilteredUsers(users, query)
  {
    LowerIdempotent(query);
    FilterCongruent(users, (u: User) => Matches(u, Lower(query)), (u: User) => Matches(u, query));
  }

  /** The user an add builds from the form: a learner of the client, active, numbered `id`. */
  function NewLearner(id: Id, client: Id, email: string, first: string, last: string, now: Timestamp): (u: User)
    ensures RoleMatchesClient(u) && u.role == Learner && u.client_id == Some(client) && u.is_active
  {
    User(id, Some(client), email, first, last, Learner, true, now)
  }

  /** `bulkEmails.split("\n").filter((e) => e.trim())`: the lines that are not blank. */
  function BulkLines(text: string): (r: seq<string>)
    ensures forall line :: line in r <==> line in Split(text, '\n') && Trim(line) != []
    ensures forall line :: line in r ==> '\n' !in line
    ensures |r| <= |Split(text, '\n')|
  {
    Filter(Split(text, '\n'), (line: string) => Trim(line) != [])
  }

  /** The users a bulk invite builds: one per non-blank line, numbered on from `first`, the trimmed line as email. */
  function BulkUsers(first: nat, client: Id, lines: seq<string>, now: Timestamp): (r: seq<User>)
    ensures |r| == |lines|
    ensures forall i :: 0 <= i < |r| ==> r[i].id == first + i && r[i].email == Trim(lines[i])
    ensures forall i :: 0 <= i < |r| ==>
              && r[i].first_name == "New" && r[i].last_name == "User"
              && r[i].client_id == Some(client) && r[i].role == Learner && r[i].is_active
  {
    seq(|lines|, i requires 0 <= i < |lines| => NewLearner(first + i, client, Trim(lines[i]), "New", "User", now))
  }

  /** An address line as a user types it: not empty, no newline, no white space at either end. */
  predicate Address(a: string) {
    a != [] && '\n' !in a && !IsSpace(a[0]) && !IsSpace(a[|a| - 1])
  }

  /** A bulk invite of two addresses, a blank line between them and a trailing newline invites exactly those two. */
  lemma BulkExample(a: string, b: string)
    requires Address(a) && Address(b)
    ensures BulkLines(a + "\n\n" + b + "\n") == [a, b]
  {
    var parts := [a, "", b, ""];
    BulkExampleSplit(a, b, parts);
    TrimUnspaced(a);
    TrimUnspaced(b);
    assert Trim("") == [];
    var keep := (line: string) => Trim(line) != [];
    assert parts[3..][1..] == [];
    assert Filter(parts[3..], keep) == [];
    assert parts[2..][1..] == parts[3..];
    assert Filter(parts[2..], keep) == [b];
    assert parts[1..][1..] == parts[2..];
    assert Filter(parts[1..], keep) == [b];
    assert Filter(parts, keep) == [a] + [b];
  }

  /** Splitting that invite on newlines keeps the empty pieces: the blank line and the one after the last newline. */
  lemma BulkExampleSplit(a: string, b: string, parts: seq<string>)
    requires Address(a) && Address(b)
    requires parts == [a, "", b, ""]
    ensures Split(a + "\n\n" + b + "\n", '\n') == parts
  {
    assert Join(parts, '\n') == a + "\n\n" + b + "\n" by {
      assert Join(parts[3..], '\n') == "";
      assert Join(parts[2..], '\n') == b + "\n";
      assert Join(parts[1..], '\n') == "\n" + b + "\n";
    }
    SplitJoin(parts, '\n');
  }

  /** A text that neither starts nor ends with white space is its own trim. */
  lemma TrimUnspaced(s: string)
    requires s != [] && !IsSpace(s[0]) && !IsSpace(s[|s| - 1])
    ensures Trim(s) == s
  {
    assert s[LeadingSpaces(s)..] == s;
    assert s[..TrailingStart(s)] == s;
  }

  /** Deactivation: the rows with that id become inactive; every other field and row stays as it was. */
  function Deactivated(users: seq<User>, id: Id): (r: seq<User>)
    ensures |r| == |users|
    ensures forall i :: 0 <= i < |r| ==> r[i].is_active == (users[i].is_active && users[i].id != id)
    ensures forall i :: 0 <= i < |r| ==> r[i].(is_active := users[i].is_active) == users[i]
  {
    Map(users, (u: User) => if u.id == id then u.(is_active := false) else u)
  }

  /** Deactivating a user twice is deactivating once. */
  lemma DeactivateIdempotent(users: seq<User>, id: Id)
    ensures Deactivated(Deactivated(users, id), id) == Deactivated(users, id)
  {
    var once := Deactivated(users, id);
    var twice := Deactivated(once, id);
    forall i | 0 <= i < |users| ensures twice[i] == once[i] {
      assert twice[i].(is_active := once[i].is_active) == once[i];
    }
  }

  /** "Active Users": every user exactly when all are active, none exactly when all are inactive. */
  function ActiveCount(users: seq<User>): (n: nat)
    ensures n <= |users|
    ensures n == |users| <==> forall u :: u in users ==> u.is_active
    ensures n > 0 <==> exists u :: u in users && u.is_active
  {
    CountAll(users, (u: User) => u.is_active);
    CountSome(users, (u: User) => u.is_active);
    Count(users, (u: User) => u.is_active)
  }

  /** "Inactive Users": every user exactly when all are inactive, none exactly when all are active. */
  function InactiveCount(users: seq<User>): (n: nat)
    ensures n <= |users|
    ensures n == |users| <==> forall u :: u in users ==> !u.is_active
    ensures n > 0 <==> exists u :: u in users && !u.is_active
  {
    CountAll(users, (u: User) => !u.is_active);
    CountSome(users, (u: User) => !u.is_active);
    Count(users, (u: User) => !u.is_active)
  }

  /** Active and inactive users together are all users. */
  lemma ActiveInactiveTotal(users: seq<User>)
    ensures ActiveCount(users) + InactiveCount(users) == |users|
  {
    CountComplement(users, (u: User) => u.is_active, (u: User) => !u.is_active);
  }

  /**
   * The page's list is the client's learners, with distinct ids all below
   * the list length plus the offset, so the next number handed out is free.
   */
  predicate UsersValid(users: seq<User>, client: Id) {
    && UniqueBy(users, (u: User) => u.id)
    && (forall u :: u in users ==> u.id < |users| + IdOffset)
    && (forall u :: u in users ==> u.client_id == Some(client) && u.role == Learner)
  }

  /** Appending the users of a bulk invite (or one user, with one line) keeps the list valid. */
  lemma AppendKeepsValid(users: seq<User>, client: Id, added: seq<User>)
    requires UsersValid(users, client)
    requires forall i :: 0 <= i < |added| ==> added[i].id == |users| + IdOffset + i
    requires forall u :: u in added ==> u.client_id == Some(client) && u.role == Learner
    ensures UsersValid(users + added, client)
  {
    var all := users + added;
    forall i, j | 0 <= i < j < |all| ensures all[i].id != all[j].id {
      if j >= |users| && i < |users| {
        assert all[i] in users;
      }
    }
    forall u | u in all ensures u.id < |all| + IdOffset {
      if u in added {
        var k :| 0 <= k < |added| && added[k] == u;
      }
    }
  }

  /** The page's state: the learner list, the search box and the two dialogs' fields. */
  class UsersPage {
    var clientId: Id
    var users: seq<User>
    var searchQuery: string
    var newEmail: string
    var newFirstName: string
    var newLastName: string
    var bulkEmails: string

    ghost predicate Valid()
      reads this
    {
      UsersValid(users, clientId)
    }

    /** The page opens on the client's seed learners, with every field empty. */
    constructor(now: Timestamp)
      ensures clientId == PageClient
      ensures users == Filter(SeedUsers(now), (u: User) => u.client_id == Some(PageClient) && u.role == Learner)
      ensures searchQuery == "" && newEmail == "" && newFirstName == "" && newLastName == "" && bulkEmails == ""
      ensures Valid()
    {
      clientId := PageClient;
      var keep := (u: User) => u.client_id == Some(PageClient) && u.role == Learner;
      SeedUserIdsUnique(now);
      FilterUniqueBy(SeedUsers(now), (u: User) => u.id, keep);
      users := Filter(SeedUsers(now), keep);
      searchQuery, newEmail, newFirstName, newLastName, bulkEmails := "", "", "", "", "";
    }

    /** Typing in the search box. */
    method EditSearch(query: string)
      modifies this
      ensures searchQuery == query
      ensures clientId == old(clientId) && users == old(users) && bulkEmails == old(bulkEmails)
      ensures newEmail == old(newEmail) && newFirstName == old(newFirstName) && newLastName == old(newLastName)
    {
      searchQuery := query;
    }

    /** Typing in the add-user form. */
    method EditNewUser(email: string, first: string, last: string)
      modifies this
      ensures newEmail == email && newFirstName == first && newLastName == last
      ensures clientId == old(clientId) && users == old(users)
      ensures searchQuery == old(searchQuery) && bulkEmails == old(bulkEmails)
    {
      newEmail, newFirstName, newLastName := email, first, last;
    }

    /** Typing in the bulk-invite box. */
    method EditBulkEmails(text: string)
      modifies this
      ensures bulkEmails == text
      ensures clientId == old(clientId) && users == old(users) && searchQuery == old(searchQuery)
      ensures newEmail == old(newEmail) && newFirstName == old(newFirstName) && newLastName == old(newLastName)
    {
      bulkEmails := text;
    }

    /** `handleAddUser`: rejected unless all three fields are filled; otherwise appends one learner and clears the form. */
    method AddUser(now: Timestamp) returns (ok: bool)
      requires Valid()
      modifies this
      ensures Valid()
      ensures ok <==> old(newEmail) != [] && old(newFirstName) != [] && old(newLastName) != []
      ensures !ok ==> unchanged(this)
      ensures ok ==> && users == old(users) + [NewLearner(|old(users)| + IdOffset, clientId, old(newEmail),
                                                            old(newFirstName), old(newLastName), now)]
                     && newEmail == "" && newFirstName == "" && newLastName == ""
                     && clientId == old(clientId) && searchQuery == old(searchQuery) && bulkEmails == old(bulkEmails)
    {
      if newEmail == [] || newFirstName == [] || newLastName == [] {
        return false;
      }
      var u := NewLearner(|users| + IdOffset, clientId, newEmail, newFirstName, newLastName, now);
      AppendKeepsValid(users, clientId, [u]);
      users := users + [u];
      newEmail, newFirstName, newLastName := "", "", "";
      ok := true;
    }

    /** `handleBulkAdd`: rejected when every line is blank; otherwise appends one learner per non-blank line and clears the box. */
    method BulkAdd(now: Timestamp) returns (ok: bool)
      requires Valid()
      modifies this
      ensures Valid()
      ensures ok <==> BulkLines(old(bulkEmails)) != []
      ensures !ok ==> unchanged(this)
      ensures ok ==> && users == old(users) + BulkUsers(|old(users)| + IdOffset, clientId, BulkLines(old(bulkEmails)), now)
                     && bulkEmails == ""
                     && clientId == old(clientId) && searchQuery == old(searchQuery)
                     && newEmail == old(newEmail) && newFirstName == old(newFirstName) && newLastName == old(newLastName)
    {
      var lines := BulkLines(bulkEmails);
      if |lines| == 0 {
        return false;
      }
      var added := BulkUsers(|users| + IdOffset, clientId, lines, now);
      AppendKeepsValid(users, clientId, added);
      users := users + added;
      bulkEmails := "";
      ok := true;
    }

    /** `handleDeactivateUser`: marks the user inactive and keeps the row. */
    method DeactivateUser(id: Id)
      requires Valid()
      modifies this
      ensures Valid()
      ensures users == Deactivated(old(users), id)
      ensures clientId == old(clientId) && searchQuery == old(searchQuery) && bulkEmails == old(bulkEmails)
      ensures newEmail == old(newEmail) && newFirstName == old(newFirstName) && newLastName == old(newLastName)
    {
      var r := Deactivated(users, id);
      assert forall i :: 0 <= i < |r| ==> r[i].id == users[i].id && r[i].client_id == users[i].client_id && r[i].role == users[i].role by {
        forall i | 0 <= i < |r| ensures r[i].id == users[i].id && r[i].client_id == users[i].client_id && r[i].role == users[i].role {
          assert r[i].(is_active := users[i].is_active) == users[i];
        }
      }
      users := r;
    }
  }
}
