/** The logic inside the request handlers: the bulk "mark paid" action, the
    invoice and client list filters, the JSON export of active clients and
    the per-client statistics. Rendering, messages and routing are reduced
    to the values they would show. */
module Views {
  import opened Base
  import opened Text
  import opened Models
  import opened Queries
  import opened Sorting

  const MARK_PAID: string := "mark_paid"

  /** The flash message a bulk request leaves; every request ends with a
      redirect to the invoice list. */
  datatype Message =
    | NoMessage
    | ErrorNoneSelected
    | ErrorUnknownAction
    | WarningAllPaid
    | SuccessMarked(count: nat)
    | WarningNoneUpdated

  datatype BulkOutcome = BulkOutcome(invoices: seq<Invoice>, updated: nat, message: Message)

  /** The row filter of the bulk action: selected and not yet settled. */
  function UnpaidIn(selected: set<nat>): Invoice -> bool {
    (inv: Invoice) => inv.id in selected && IsNonPayee(inv)
  }

  /** The rows a "mark paid" update touches: selected, neither paid nor
      cancelled. */
  function SelectedUnpaid(s: seq<Invoice>, selected: set<nat>): (r: seq<Invoice>)
    ensures forall x :: x in r <==> x in s && x.id in selected && IsNonPayee(x)
  {
    Filter(s, UnpaidIn(selected))
  }

  /** `update(statut='payee')` on those rows: only the status changes
      (a query-set update bypasses `save`, so no timestamp moves). */
  function MarkPaid(s: seq<Invoice>, selected: set<nat>): (r: seq<Invoice>)
    ensures |r| == |s|
    ensures forall i :: 0 <= i < |s| ==>
      r[i] == if s[i].id in selected && IsNonPayee(s[i]) then s[i].(statut := PAYEE) else s[i]
  {
    seq(|s|, i requires 0 <= i < |s| =>
      if s[i].id in selected && IsNonPayee(s[i]) then s[i].(statut := PAYEE) else s[i])
  }

  /** `facture_bulk_action`. */
  function BulkAction(httpMethod: string, action: Option<string>, selected: seq<nat>, s: seq<Invoice>): (r: BulkOutcome)
    ensures httpMethod != "POST" ==> r == BulkOutcome(s, 0, NoMessage)
    ensures httpMethod == "POST" && |selected| == 0 ==> r == BulkOutcome(s, 0, ErrorNoneSelected)
    ensures httpMethod == "POST" && |selected| > 0 && action != Some(MARK_PAID) ==>
      r == BulkOutcome(s, 0, ErrorUnknownAction)
    ensures r.updated == 0 ==> r.invoices == s
    ensures r.message.SuccessMarked? ==> r.message.count == r.updated > 0
    ensures r.updated > 0 ==> r.message == SuccessMarked(r.updated)
    ensures !r.message.WarningNoneUpdated?
    ensures |r.invoices| == |s|
    ensures forall i :: 0 <= i < |s| ==>
      r.invoices[i] == s[i] || (s[i].id in selected && IsNonPayee(s[i]) && r.invoices[i] == s[i].(statut := PAYEE))
    ensures httpMethod == "POST" && |selected| > 0 && action == Some(MARK_PAID) ==>
      && r.updated == |SelectedUnpaid(s, set k | k in selected)|
      && (r.updated == 0 ==> r.message == WarningAllPaid)
      && r.invoices == MarkPaid(s, set k | k in selected)
  {
    if httpMethod != "POST" then BulkOutcome(s, 0, NoMessage)
    else if |selected| == 0 then BulkOutcome(s, 0, ErrorNoneSelected)
    else if action != Some(MARK_PAID) then BulkOutcome(s, 0, ErrorUnknownAction)
    else
      var ids := set k | k in selected;
      var rows := SelectedUnpaid(s, ids);
      if |rows| == 0 then
        assert MarkPaid(s, ids) == s by {
          assert rows == [];
          forall i | 0 <= i < |s| ensures !(s[i].id in ids && IsNonPayee(s[i])) {
          }
        }
        BulkOutcome(s, 0, WarningAllPaid)
      else
        var updated := |rows|;
        var after := MarkPaid(s, ids);
        if updated > 0 then BulkOutcome(after, updated, SuccessMarked(updated))
        else BulkOutcome(after, 0, WarningNoneUpdated)
  }

  /** Reference count: the selected invoices that are drafts or sent. */
  function CountSelectedDraftOrSent(s: seq<Invoice>, selected: set<nat>): nat {
    if |s| == 0 then 0
    else (if s[0].id in selected && IsBrouillonOuEnvoyee(s[0]) then 1 else 0)
         + CountSelectedDraftOrSent(s[1..], selected)
  }

  /** In a well-formed store the number reported is the number of selected
      drafts and sent invoices. */
  lemma {:induction false} BulkCountIsDraftOrSent(s: seq<Invoice>, selected: set<nat>)
    requires ValidStatuses(s)
    ensures |SelectedUnpaid(s, selected)| == CountSelectedDraftOrSent(s, selected)
  {
    if |s| > 0 {
      assert ValidStatuses(s[1..]) by {
        assert forall i :: 0 <= i < |s| - 1 ==> s[1..][i] == s[i + 1];
      }
      BulkCountIsDraftOrSent(s[1..], selected);
      BulkCountStep(s, selected);
    }
  }

  lemma BulkCountStep(s: seq<Invoice>, selected: set<nat>)
    requires |s| > 0 && ValidStatut(s[0].statut)
    ensures |SelectedUnpaid(s, selected)|
      == (if s[0].id in selected && IsBrouillonOuEnvoyee(s[0]) then 1 else 0) + |SelectedUnpaid(s[1..], selected)|
  {
    NonPayeeIff(s[0]);
    assert UnpaidIn(selected)(s[0]) <==> s[0].id in selected && IsNonPayee(s[0]);
    FilterLength(s, UnpaidIn(selected));
  }

  /** After marking, no selected invoice is left unpaid, so the same request
      again reports "all paid" and changes nothing. */
  lemma BulkActionIdempotent(selected: seq<nat>, s: seq<Invoice>)
    requires |selected| > 0
    ensures var first := BulkAction("POST", Some(MARK_PAID), selected, s);
            var second := BulkAction("POST", Some(MARK_PAID), selected, first.invoices);
            second == BulkOutcome(first.invoices, 0, WarningAllPaid)
  {
    var ids := set k | k in selected;
    var first := BulkAction("POST", Some(MARK_PAID), selected, s);
    var after := first.invoices;
    StatutsDistinct();
    forall x | x in after ensures !(x.id in ids && IsNonPayee(x)) {
      var i :| 0 <= i < |after| && after[i] == x;
    }
    NothingLeftToMark(after, ids);
  }

  lemma {:induction false} NothingLeftToMark(s: seq<Invoice>, selected: set<nat>)
    requires forall x :: x in s ==> !(x.id in selected && IsNonPayee(x))
    ensures SelectedUnpaid(s, selected) == []
  {
    if |s| > 0 {
      assert s[0] in s;
      NothingLeftToMark(s[1..], selected);
      FilterLength(s, UnpaidIn(selected));
    }
  }

  /** Marking invoices paid never lowers the revenue when totals are not
      negative. */
  lemma {:induction false} MarkPaidRaisesRevenue(s: seq<Invoice>, selected: set<nat>)
    requires forall x :: x in s ==> x.montantTtc >= 0.0
    ensures PaidTotal(MarkPaid(s, selected)) >= PaidTotal(s)
  {
    if |s| > 0 {
      assert s[0] in s;
      assert forall x :: x in s[1..] ==> x in s;
      MarkPaidRaisesRevenue(s[1..], selected);
      assert MarkPaid(s, selected)[1..] == MarkPaid(s[1..], selected);
    }
  }

  /** The GET parameters of the invoice list; empty text and `None` mean
      "not given". */
  datatype ListParams = ListParams(statut: string, categorie: Option<nat>, client: Option<nat>, search: string)

  /** `FactureListView.get_queryset`: the given filters, chained. */
  function FactureList(s: seq<Invoice>, clients: map<nat, Client>, p: ListParams): (r: seq<Invoice>)
    ensures forall x :: x in r <==>
      && x in s
      && (p.statut == "" || x.statut == p.statut)
      && (p.categorie.None? || x.categorie == p.categorie.value)
      && (p.client.None? || x.client == p.client.value)
      && (p.search == "" || Matches(x, clients, p.search))
  {
    var a := if p.statut != "" then Filter(s, (inv: Invoice) => inv.statut == p.statut) else s;
    var b := if p.categorie.Some? then ParCategorie(a, p.categorie.value) else a;
    var c := if p.client.Some? then ParClient(b, p.client.value) else b;
    if p.search != "" then Recherche(c, clients, p.search) else c
  }

  /** Without parameters the list is the whole store, in order. */
  lemma FactureListNoFilter(s: seq<Invoice>, clients: map<nat, Client>)
    ensures FactureList(s, clients, ListParams("", None, None, "")) == s
  {
  }

  /** A status filter on its own is the status query of the model layer. */
  lemma FactureListByStatut(s: seq<Invoice>, clients: map<nat, Client>)
    ensures FactureList(s, clients, ListParams(ENVOYEE, None, None, "")) == EnAttente(s)
    ensures FactureList(s, clients, ListParams(PAYEE, None, None, "")) == Payees(s)
    ensures FactureList(s, clients, ListParams(BROUILLON, None, None, "")) == Brouillons(s)
    ensures FactureList(s, clients, ListParams(ANNULEE, None, None, "")) == Annulees(s)
  {
    FilterExt(s, (inv: Invoice) => inv.statut == ENVOYEE, IsEnvoyee);
    FilterExt(s, (inv: Invoice) => inv.statut == PAYEE, IsPayee);
    FilterExt(s, (inv: Invoice) => inv.statut == BROUILLON, IsBrouillon);
    FilterExt(s, (inv: Invoice) => inv.statut == ANNULEE, IsAnnulee);
  }

  /** The GET parameters of the client list. */
  datatype ClientParams = ClientParams(typeClient: string, estActif: string, search: string)

  predicate ClientMatches(c: Client, search: string) {
    IContains(c.nom, search) || IContains(c.email, search) || IContains(c.ville, search)
  }

  predicate ClientSelected(c: Client, p: ClientParams) {
    && (p.typeClient == "" || c.typeClient == p.typeClient)
    && (p.estActif == "" || c.estActif == (p.estActif == "true"))
    && (p.search == "" || ClientMatches(c, p.search))
  }

  function ClientNom(c: Client): string { c.nom }

  /** `ClientListView.get_queryset`: the given filters, then ordered by
      name. Any non-empty `est_actif` other than "true" selects inactive
      clients. */
  function ClientList(clients: seq<Client>, p: ClientParams): (r: seq<Client>)
    ensures SortedBy(r, ClientNom)
    ensures forall c :: c in r <==> c in clients && ClientSelected(c, p)
    ensures multiset(r) <= multiset(clients)
  {
    var kept := Filter(clients, (c: Client) => ClientSelected(c, p));
    var r := SortBy(kept, ClientNom);
    assert forall c :: c in r <==> c in kept by {
      forall c ensures c in r <==> c in kept { SortByMembers(kept, ClientNom, c); }
    }
    r
  }

  /** One entry of the JSON client export. */
  datatype ClientJson = ClientJson(id: nat, nom: string, email: string, adresseComplete: string)

  /** The export builds the address text itself, with the same layout as the
      model's `adresse_complete`. */
  function ToJson(c: Client): (r: ClientJson)
    ensures r.id == c.id && r.nom == c.nom && r.email == c.email
    ensures r.adresseComplete == AdresseComplete(c)
  {
    ClientJson(c.id, c.nom, c.email, c.adresse + "\n" + c.codePostal + " " + c.ville + "\n" + c.pays)
  }

  function ActiveClients(clients: seq<Client>): (r: seq<Client>)
    ensures forall c :: c in r <==> c in clients && c.estActif
  {
    Filter(clients, (c: Client) => c.estActif)
  }

  function JsonOf(cs: seq<Client>): (r: seq<ClientJson>)
    ensures |r| == |cs| && forall i :: 0 <= i < |cs| ==> r[i] == ToJson(cs[i])
  {
    seq(|cs|, i requires 0 <= i < |cs| => ToJson(cs[i]))
  }

  /** `client_list_json`: the active clients, in the default order by name. */
  function ClientListJson(clients: seq<Client>): (r: seq<ClientJson>)
    ensures |r| == |ActiveClients(clients)|
    ensures forall j :: 0 <= j < |r| ==> r[j].adresseComplete == AdresseComplete(SortBy(ActiveClients(clients), ClientNom)[j])
  {
    JsonOf(SortBy(ActiveClients(clients), ClientNom))
  }

  /** Every exported entry is the entry of an active client. */
  lemma ClientListJsonOnlyActive(clients: seq<Client>)
    ensures forall j :: 0 <= j < |ClientListJson(clients)| ==>
      exists c :: c in clients && c.estActif && ClientListJson(clients)[j] == ToJson(c)
  {
    var active := ActiveClients(clients);
    var ordered := SortBy(active, ClientNom);
    var r := ClientListJson(clients);
    forall j | 0 <= j < |r| ensures exists c :: c in clients && c.estActif && r[j] == ToJson(c) {
      SortByMembers(active, ClientNom, ordered[j]);
      assert r[j] == ToJson(ordered[j]);
    }
  }

  /** Every active client is exported. */
  lemma ClientListJsonAllActive(clients: seq<Client>)
    ensures forall c :: c in clients && c.estActif ==> ToJson(c) in ClientListJson(clients)
  {
    var active := ActiveClients(clients);
    var ordered := SortBy(active, ClientNom);
    var r := ClientListJson(clients);
    forall c | c in clients && c.estActif ensures ToJson(c) in r {
      SortByMembers(active, ClientNom, c);
      var i :| 0 <= i < |ordered| && ordered[i] == c;
      assert r[i] == ToJson(c);
    }
  }

  /** The export is ordered by client name. */
  lemma ClientListJsonSorted(clients: seq<Client>)
    ensures forall i, j :: 0 <= i < j < |ClientListJson(clients)| ==>
      LexLe(ClientListJson(clients)[i].nom, ClientListJson(clients)[j].nom)
  {
    var ordered := SortBy(ActiveClients(clients), ClientNom);
    var r := ClientListJson(clients);
    forall i, j | 0 <= i < j < |r| ensures LexLe(r[i].nom, r[j].nom) {
      assert r[i].nom == ClientNom(ordered[i]) && r[j].nom == ClientNom(ordered[j]);
    }
  }

  /** The per-client figures of the client page. `caTotal` is the SQL sum
      restricted to paid invoices, which is absent when there are none. */
  datatype ClientStats = ClientStats(totalFactures: nat, caTotal: Option<real>, facturesPayees: nat, facturesEnAttente: nat)

  function ClientDetailStats(s: seq<Invoice>, client: nat): (r: ClientStats)
    ensures r.totalFactures == |ParClient(s, client)|
    ensures r.facturesPayees == |Payees(ParClient(s, client))| == StatusCount(ParClient(s, client), PAYEE)
    ensures r.facturesEnAttente == |EnAttente(ParClient(s, client))| == StatusCount(ParClient(s, client), ENVOYEE)
    ensures r.facturesPayees + r.facturesEnAttente <= r.totalFactures
    ensures r.caTotal.None? <==> r.facturesPayees == 0
    ensures r.caTotal.Some? ==> r.caTotal.value == PaidTotal(ParClient(s, client))
    ensures r.facturesPayees == 0 <==> forall x :: x in s && x.client == client ==> x.statut != PAYEE
  {
    var mine := ParClient(s, client);
    var paid := Payees(mine);
    StatusFiltersDisjoint(mine);
    SumPayeesIsPaidTotal(mine);
    DisjointCount(mine);
    FilterStatusCount(mine, IsPayee, PAYEE);
    FilterStatusCount(mine, IsEnvoyee, ENVOYEE);
    ClientStats(|mine|, if |paid| == 0 then None else Some(SumTtc(paid)), |paid|, |EnAttente(mine)|)
  }

  lemma {:induction false} DisjointCount(s: seq<Invoice>)
    ensures |Payees(s)| + |EnAttente(s)| <= |s|
  {
    if |s| > 0 {
      DisjointCount(s[1..]);
      StatutsDistinct();
      FilterLength(s, IsPayee);
      FilterLength(s, IsEnvoyee);
    }
  }
}
