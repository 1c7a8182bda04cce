/**
 * The super admin's partner page: reseller partners with their client and
 * licence counts, the search, the add dialog (whose licence field is parsed
 * with `Number.parseInt`) and deletion.
 */
module Partners {
  import opened Optional
  import opened Seqs
  import opened Text
  import opened Numbers

  datatype PartnerStatus = Active | Inactive

  /** A partner; `licenses` is `None` where `parseInt` gave NaN. */
  datatype Partner = Partner(id: nat, name: string, email: string, clients: int, licenses: Option<int>,
                             status: PartnerStatus, createdAt: string)

  /** The add form, every field as typed. */
  datatype PartnerForm = PartnerForm(name: string, email: string, licenses: string)

  /** The partners the page starts with. */
  function InitialPartners(): seq<Partner> {
    [ Partner(1, "TechConsult Partners", "admin@techconsult.com", 12, Some(500), Active, "2024-01-15"),
      Partner(2, "Global Training Solutions", "contact@globaltraining.com", 8, Some(300), Active, "2024-02-20"),
      Partner(3, "Enterprise Learning Co", "info@enterpriselearning.com", 15, Some(750), Active, "2024-03-10") ]
  }

  /** The search matches the name or the e-mail, ignoring ASCII case. */
  predicate PartnerMatches(p: Partner, query: string) {
    Contains(Lower(p.name), Lower(query)) || Contains(Lower(p.email), Lower(query))
  }

  /** `filteredPartners`. */
  function FilteredPartners(partners: seq<Partner>, query: string): (r: seq<Partner>)
    ensures forall p :: p in r <==> p in partners && PartnerMatches(p, query)
  {
    Filter(partners, (p: Partner) => PartnerMatches(p, query))
  }

  /** An empty search keeps every partner. */
  lemma EmptyPartnerSearchKeepsAll(partners: seq<Partner>)
    ensures FilteredPartners(partners, "") == partners
  {
    forall p | p in partners ensures PartnerMatches(p, "") {
      ContainsEmpty(Lower(p.name));
    }
    FilterAll(partners, (p: Partner) => PartnerMatches(p, ""));
  }

  /** The guard of `handleAddPartner`: every field non-empty; the licence text itself is not checked. */
  predicate FormFilled(form: PartnerForm) {
    form.name != [] && form.email != [] && form.licenses != []
  }

  /** The partner an add builds: numbered `|partners| + 1`, no clients yet, active, licences parsed. */
  function NewPartner(partners: seq<Partner>, form: PartnerForm, today: string): (p: Partner)
    ensures p.id == |partners| + 1 && p.clients == 0 && p.status == Active
    ensures p.name == form.name && p.email == form.email && p.createdAt == today
    ensures p.licenses == ParseInt(form.licenses)
  {
    Partner(|partners| + 1, form.name, form.email, 0, ParseInt(form.licenses), Active, today)
  }

  /** `(p) => p.id !== id`. */
  function KeepsPartner(id: nat): Partner -> bool {
    (p: Partner) => p.id != id
  }

  /** `partners.filter((p) => p.id !== id)`. */
  function WithoutPartner(partners: seq<Partner>, id: nat): (r: seq<Partner>)
    ensures forall p :: p in r <==> p in partners && p.id != id
  {
    Filter(partners, KeepsPartner(id))
  }

  /** `(p) => p.clients`. */
  function ClientsOf(): Partner -> int {
    (p: Partner) => p.clients
  }

  /** The "Total Clients" card: `partners.reduce((sum, p) => sum + p.clients, 0)`. */
  function TotalClients(partners: seq<Partner>): (n: int)
    ensures (forall p :: p in partners ==> p.clients >= 0) ==> n >= 0
    ensures (forall p :: p in partners ==> p.clients <= 0) ==> n <= 0
    ensures (forall p :: p in partners ==> p.clients >= 0) ==> forall p :: p in partners ==> p.clients <= n
  {
    var n := Sum(partners, ClientsOf());
    assert (forall p :: p in partners ==> p.clients >= 0) ==> n >= 0 by {
      if forall p :: p in partners ==> p.clients >= 0 { SumAtLeast(partners, ClientsOf(), 0); }
    }
    assert (forall p :: p in partners ==> p.clients <= 0) ==> n <= 0 by {
      if forall p :: p in partners ==> p.clients <= 0 { SumAtMost(partners, ClientsOf(), 0); }
    }
    assert (forall p :: p in partners ==> p.clients >= 0) ==> forall p :: p in partners ==> p.clients <= n by {
      if forall p :: p in partners ==> p.clients >= 0 {
        forall p | p in partners ensures p.clients <= n {
          var k :| 0 <= k < |partners| && partners[k] == p;
          SumTermBounded(partners, ClientsOf(), k);
        }
      }
    }
    n
  }

  /**
   * The "Total Licenses" card: the sum of the licence counts, NaN (`None`)
   * as soon as one partner's count is NaN.
   */
  function TotalLicenses(partners: seq<Partner>): (r: Option<int>)
    ensures r.None? <==> exists p :: p in partners && p.licenses.None?
  {
    if partners == [] then Some(0)
    else
      var rest := TotalLicenses(partners[1..]);
      assert forall p :: p in partners <==> p == partners[0] || p in partners[1..];
      match (partners[0].licenses, rest)
      case (Some(a), Some(b)) => Some(a + b)
      case _ => None
  }

  /** The start-up cards: 35 clients and 1550 licences. */
  lemma InitialTotals()
    ensures TotalClients(InitialPartners()) == 35
    ensures TotalLicenses(InitialPartners()) == Some(1550)
  {
    var ps := InitialPartners();
    assert ps[1..][1..][1..] == [];
  }

  /** A new partner has no clients, so an add leaves "Total Clients" as it was. */
  lemma AddKeepsTotalClients(partners: seq<Partner>, form: PartnerForm, today: string)
    ensures TotalClients(partners + [NewPartner(partners, form, today)]) == TotalClients(partners)
  {
    SumAppend(partners, NewPartner(partners, form, today), ClientsOf());
  }

  /** Appending a partner adds its licences to the total, and NaN in either gives NaN. */
  lemma {:induction false} LicensesAppend(partners: seq<Partner>, p: Partner)
    ensures TotalLicenses(partners + [p]) ==
              if TotalLicenses(partners).Some? && p.licenses.Some?
              then Some(TotalLicenses(partners).value + p.licenses.value) else None
  {
    if partners == [] {
      assert partners + [p] == [p];
      assert [p][1..] == [];
    } else {
      assert (partners + [p])[1..] == partners[1..] + [p];
      LicensesAppend(partners[1..], p);
    }
  }

  /**
   * The form's guard only checks that the licence field is non-empty, and a
   * number input accepts a decimal such as `.5`: that text passes, parses to
   * NaN, and "Total Licenses" then shows NaN.
   */
  lemma LeadingPointLicencesGiveNaN(partners: seq<Partner>, form: PartnerForm, today: string)
    requires form.name != [] && form.email != [] && form.licenses != [] && form.licenses[0] == '.'
    ensures FormFilled(form)
    ensures NewPartner(partners, form, today).licenses == None
    ensures TotalLicenses(partners + [NewPartner(partners, form, today)]) == None
  {
    ParseLeadingPoint(form.licenses);
    LicensesAppend(partners, NewPartner(partners, form, today));
  }

  /** Deleting partners never raises "Total Clients" while client counts are non-negative. */
  lemma DeleteNeverRaisesTotalClients(partners: seq<Partner>, id: nat)
    requires forall p :: p in partners ==> p.clients >= 0
    ensures TotalClients(WithoutPartner(partners, id)) <= TotalClients(partners)
  {
    SumFilterBounded(partners, ClientsOf(), KeepsPartner(id));
  }

  /** Every partner's client count is non-negative. */
  ghost predicate PartnersValid(partners: seq<Partner>) {
    forall p :: p in partners ==> p.clients >= 0
  }

  /** The page's state. */
  class PartnersPage {
    var partners: seq<Partner>
    var searchQuery: string
    var addDialogOpen: bool
    var newPartner: PartnerForm

    ghost predicate Valid()
      reads this
    {
      PartnersValid(partners)
    }

    /** The page opens on the initial partners, an empty search and an empty form. */
    constructor()
      ensures partners == InitialPartners() && searchQuery == "" && !addDialogOpen
      ensures newPartner == PartnerForm("", "", "")
      ensures Valid()
    {
      partners, searchQuery, addDialogOpen := InitialPartners(), "", false;
      newPartner := PartnerForm("", "", "");
    }

    /** Typing in the search box; the table shows `FilteredPartners(partners, searchQuery)`. */
    method EditSearch(query: string)
      requires Valid()
      modifies this
      ensures Valid()
      ensures searchQuery == query
      ensures partners == old(partners) && newPartner == old(newPartner) && addDialogOpen == old(addDialogOpen)
    {
      searchQuery := query;
    }

    /** Typing in the add form. */
    method EditForm(form: PartnerForm)
      requires Valid()
      modifies this
      ensures Valid()
      ensures newPartner == form
      ensures partners == old(partners) && searchQuery == old(searchQuery) && addDialogOpen == old(addDialogOpen)
    {
      newPartner := form;
    }

    /**
     * `handleAddPartner`: rejected unless every field is non-empty;
     * otherwise appends the new partner dated `today`, clears the form and
     * closes the dialog.
     */
    method AddPartner(today: string) returns (ok: bool)
      requires Valid()
      modifies this
      ensures Valid()
      ensures ok <==> FormFilled(old(newPartner))
      ensures !ok ==> unchanged(this)
      ensures ok ==> partners == old(partners) + [NewPartner(old(partners), old(newPartner), today)]
      ensures ok ==> newPartner == PartnerForm("", "", "") && !addDialogOpen && searchQuery == old(searchQuery)
    {
      if newPartner.name == [] || newPartner.email == [] || newPartner.licenses == [] {
        return false;
      }
      partners := partners + [NewPartner(partners, newPartner, today)];
      newPartner := PartnerForm("", "", "");
      addDialogOpen := false;
      ok := true;
    }

    /** `handleDeletePartner`: drops every partner with that id. */
    method DeletePartner(id: nat)
      requires Valid()
      modifies this
      ensures Valid()
      ensures partners == WithoutPartner(old(partners), id)
      ensures searchQuery == old(searchQuery) && newPartner == old(newPartner) && addDialogOpen == old(addDialogOpen)
    {
      partners := WithoutPartner(partners, id);
    }
  }
}
