/** The named filters and aggregates of the invoice query set and manager,
    and of the creation-log query set, over an in-memory store. "Today" is a
    parameter instead of a clock reading. */
module Queries {
  import opened Base
  import opened Text
  import opened Models

  predicate IsPayee(inv: Invoice) { inv.statut == PAYEE }
  predicate IsEnvoyee(inv: Invoice) { inv.statut == ENVOYEE }
  predicate IsBrouillon(inv: Invoice) { inv.statut == BROUILLON }
  predicate IsAnnulee(inv: Invoice) { inv.statut == ANNULEE }

  /** `exclude(statut__in=['payee', 'annulee'])`. */
  predicate IsNonPayee(inv: Invoice) { inv.statut != PAYEE && inv.statut != ANNULEE }

  /** Draft or sent: what "unpaid" means for a well-formed store. */
  predicate IsBrouillonOuEnvoyee(inv: Invoice) { inv.statut == BROUILLON || inv.statut == ENVOYEE }

  function Payees(s: seq<Invoice>): (r: seq<Invoice>)
    ensures forall x :: x in r <==> x in s && x.statut == PAYEE
  {
    Filter(s, IsPayee)
  }

  function EnAttente(s: seq<Invoice>): (r: seq<Invoice>)
    ensures forall x :: x in r <==> x in s && x.statut == ENVOYEE
  {
    Filter(s, IsEnvoyee)
  }

  function Brouillons(s: seq<Invoice>): (r: seq<Invoice>)
    ensures forall x :: x in r <==> x in s && x.statut == BROUILLON
  {
    Filter(s, IsBrouillon)
  }

  function Annulees(s: seq<Invoice>): (r: seq<Invoice>)
    ensures forall x :: x in r <==> x in s && x.statut == ANNULEE
  {
    Filter(s, IsAnnulee)
  }

  function NonPayees(s: seq<Invoice>): (r: seq<Invoice>)
    ensures forall x :: x in r <==> x in s && x.statut != PAYEE && x.statut != ANNULEE
  {
    Filter(s, IsNonPayee)
  }

  lemma StatutsDistinct()
    ensures BROUILLON != ENVOYEE && BROUILLON != PAYEE && BROUILLON != ANNULEE
    ensures ENVOYEE != PAYEE && ENVOYEE != ANNULEE && PAYEE != ANNULEE
  {
    assert BROUILLON[0] != ENVOYEE[0] && BROUILLON[0] != PAYEE[0] && BROUILLON[0] != ANNULEE[0];
    assert ENVOYEE[0] != PAYEE[0] && ENVOYEE[0] != ANNULEE[0] && PAYEE[0] != ANNULEE[0];
  }

  /** Reference count: how many invoices of `s` carry status `st`. */
  function StatusCount(s: seq<Invoice>, st: string): nat {
    if |s| == 0 then 0 else (if s[0].statut == st then 1 else 0) + StatusCount(s[1..], st)
  }

  lemma {:induction false} FilterStatusCount(s: seq<Invoice>, p: Invoice -> bool, st: string)
    requires forall x :: p(x) == (x.statut == st)
    ensures |Filter(s, p)| == StatusCount(s, st)
  {
    if |s| > 0 {
      FilterStatusCount(s[1..], p, st);
      FilterLength(s, p);
    }
  }

  lemma {:induction false} StatusCountsSum(s: seq<Invoice>)
    requires ValidStatuses(s)
    ensures StatusCount(s, PAYEE) + StatusCount(s, ENVOYEE) + StatusCount(s, BROUILLON) + StatusCount(s, ANNULEE) == |s|
  {
    if |s| > 0 {
      assert ValidStatuses(s[1..]);
      StatusCountsSum(s[1..]);
      StatutsDistinct();
      assert ValidStatut(s[0].statut);
    }
  }

  /** In a store whose statuses all come from the choice set, the four status
      filters together account for every invoice. */
  lemma StatusPartition(s: seq<Invoice>)
    requires ValidStatuses(s)
    ensures |Payees(s)| + |EnAttente(s)| + |Brouillons(s)| + |Annulees(s)| == |s|
  {
    FilterStatusCount(s, IsPayee, PAYEE);
    FilterStatusCount(s, IsEnvoyee, ENVOYEE);
    FilterStatusCount(s, IsBrouillon, BROUILLON);
    FilterStatusCount(s, IsAnnulee, ANNULEE);
    StatusCountsSum(s);
  }

  /** No invoice is selected by two of the four status filters. */
  lemma StatusFiltersDisjoint(s: seq<Invoice>)
    ensures forall x :: x in Payees(s) ==> x !in EnAttente(s) && x !in Brouillons(s) && x !in Annulees(s)
    ensures forall x :: x in EnAttente(s) ==> x !in Brouillons(s) && x !in Annulees(s)
    ensures forall x :: x in Brouillons(s) ==> x !in Annulees(s)
  {
  }

  /** With a status among the four choices, "unpaid" is "draft or sent". */
  lemma NonPayeeIff(inv: Invoice)
    requires ValidStatut(inv.statut)
    ensures IsNonPayee(inv) <==> IsBrouillonOuEnvoyee(inv)
  {
    StatutsDistinct();
  }

  /** In a well-formed store, "unpaid" is exactly "draft or sent", in the
      store's order, and counts as many invoices as those two filters. */
  lemma {:induction false} NonPayeesAreBrouillonsOuEnvoyees(s: seq<Invoice>)
    requires ValidStatuses(s)
    ensures NonPayees(s) == Filter(s, IsBrouillonOuEnvoyee)
    ensures |NonPayees(s)| == |Brouillons(s)| + |EnAttente(s)|
  {
    forall x | x in s ensures IsNonPayee(x) == IsBrouillonOuEnvoyee(x) {
      var i :| 0 <= i < |s| && s[i] == x;
      NonPayeeIff(s[i]);
    }
    FilterExt(s, IsNonPayee, IsBrouillonOuEnvoyee);
    UnpaidCount(s);
  }

  lemma {:induction false} UnpaidCount(s: seq<Invoice>)
    requires ValidStatuses(s)
    ensures |Filter(s, IsBrouillonOuEnvoyee)| == |Brouillons(s)| + |EnAttente(s)|
  {
    if |s| > 0 {
      UnpaidCount(s[1..]);
    }
  }

  function ParClient(s: seq<Invoice>, client: nat): (r: seq<Invoice>)
    ensures forall x :: x in r <==> x in s && x.client == client
  {
    Filter(s, (inv: Invoice) => inv.client == client)
  }

  function ParCategorie(s: seq<Invoice>, categorie: nat): (r: seq<Invoice>)
    ensures forall x :: x in r <==> x in s && x.categorie == categorie
  {
    Filter(s, (inv: Invoice) => inv.categorie == categorie)
  }

  /** Inclusive lower bound on the tax-inclusive amount. */
  function AvecMontantMin(s: seq<Invoice>, montant: real): (r: seq<Invoice>)
    ensures forall x :: x in r <==> x in s && x.montantTtc >= montant
  {
    Filter(s, (inv: Invoice) => inv.montantTtc >= montant)
  }

  /** Inclusive upper bound on the tax-inclusive amount. */
  function AvecMontantMax(s: seq<Invoice>, montant: real): (r: seq<Invoice>)
    ensures forall x :: x in r <==> x in s && x.montantTtc <= montant
  {
    Filter(s, (inv: Invoice) => inv.montantTtc <= montant)
  }

  /** Overdue: due strictly before today, whatever the status. */
  function EcheancePassee(s: seq<Invoice>, today: Day): (r: seq<Invoice>)
    ensures forall x :: x in r <==> x in s && x.dateEcheance < today
  {
    Filter(s, (inv: Invoice) => inv.dateEcheance < today)
  }

  /** Coming due: sent, and due no later than `jours` days from today; due
      dates already past are included. */
  function EcheanceProche(s: seq<Invoice>, today: Day, jours: int): (r: seq<Invoice>)
    ensures forall x :: x in r <==> x in s && x.dateEcheance <= today + jours && x.statut == ENVOYEE
  {
    var limite := today + jours;
    Filter(s, (inv: Invoice) => inv.dateEcheance <= limite && inv.statut == ENVOYEE)
  }

  /** A sent invoice that is already overdue is also "coming due" for any
      non-negative horizon. */
  lemma EcheanceProcheIncludesOverdue(s: seq<Invoice>, today: Day, jours: nat)
    ensures forall x :: x in EcheancePassee(s, today) && x.statut == ENVOYEE ==> x in EcheanceProche(s, today, jours)
  {
  }

  /** Issue date within `[debut, fin]`, both ends included. */
  function ParPeriode(s: seq<Invoice>, debut: Day, fin: Day): (r: seq<Invoice>)
    ensures forall x :: x in r <==> x in s && debut <= x.dateEmission <= fin
  {
    Filter(s, (inv: Invoice) => debut <= inv.dateEmission <= fin)
  }

  /** The search term occurs, ignoring case, in the number, the client's name
      or email, or the description. */
  predicate Matches(inv: Invoice, clients: map<nat, Client>, terme: string) {
    || IContains(inv.numero, terme)
    || (inv.client in clients && IContains(clients[inv.client].nom, terme))
    || (inv.client in clients && IContains(clients[inv.client].email, terme))
    || IContains(inv.description, terme)
  }

  function Recherche(s: seq<Invoice>, clients: map<nat, Client>, terme: string): (r: seq<Invoice>)
    ensures forall x :: x in r <==> x in s && Matches(x, clients, terme)
  {
    Filter(s, (inv: Invoice) => Matches(inv, clients, terme))
  }

  /** Searching ignores the case of the term. */
  lemma RechercheIgnoresCase(s: seq<Invoice>, clients: map<nat, Client>, terme: string)
    ensures Recherche(s, clients, terme) == Recherche(s, clients, Lower(terme))
  {
    LowerFixes(terme);
    forall x | x in s ensures Matches(x, clients, terme) == Matches(x, clients, Lower(terme)) {
    }
    FilterExt(s, (inv: Invoice) => Matches(inv, clients, terme),
                 (inv: Invoice) => Matches(inv, clients, Lower(terme)));
  }

  /** The empty search term keeps every invoice. */
  lemma RechercheEmptyKeepsAll(s: seq<Invoice>, clients: map<nat, Client>)
    ensures Recherche(s, clients, "") == s
  {
    forall x | x in s ensures Matches(x, clients, "") {
      ContainsSelf(Lower(x.numero));
    }
    FilterAll(s, (inv: Invoice) => Matches(inv, clients, ""));
  }

  /** An invoice's own number, in any case, finds it. */
  lemma RechercheFindsNumero(s: seq<Invoice>, clients: map<nat, Client>, terme: string)
    ensures forall x :: x in s && Lower(x.numero) == Lower(terme) ==> x in Recherche(s, clients, terme)
  {
    forall x | x in s && Lower(x.numero) == Lower(terme) ensures Matches(x, clients, terme) {
      ContainsSelf(Lower(x.numero));
    }
  }

  /** Sum of the tax-inclusive amounts. */
  function SumTtc(s: seq<Invoice>): real {
    if |s| == 0 then 0.0 else s[0].montantTtc + SumTtc(s[1..])
  }

  /** Reference definition of revenue: every invoice contributes its total
      when it is paid and nothing otherwise. */
  function PaidTotal(s: seq<Invoice>): real {
    if |s| == 0 then 0.0
    else (if s[0].statut == PAYEE then s[0].montantTtc else 0.0) + PaidTotal(s[1..])
  }

  lemma {:induction false} SumPayeesIsPaidTotal(s: seq<Invoice>)
    ensures SumTtc(Payees(s)) == PaidTotal(s)
  {
    if |s| > 0 {
      SumPayeesIsPaidTotal(s[1..]);
    }
  }

  lemma {:induction false} PaidTotalNonNegative(s: seq<Invoice>)
    requires forall x :: x in s ==> x.montantTtc >= 0.0
    ensures PaidTotal(s) >= 0.0
  {
    if |s| > 0 {
      assert s[0] in s;
      assert forall x :: x in s[1..] ==> x in s;
      PaidTotalNonNegative(s[1..]);
    }
  }

  lemma {:induction false} PaidTotalNoPaid(s: seq<Invoice>)
    requires forall x :: x in s ==> x.statut != PAYEE
    ensures PaidTotal(s) == 0.0
  {
    if |s| > 0 {
      assert s[0] in s;
      assert forall x :: x in s[1..] ==> x in s;
      PaidTotalNoPaid(s[1..]);
    }
  }

  /** `chiffre_affaires`: the SQL sum of the paid invoices' totals, which is
      absent over no rows and then replaced by 0. */
  function ChiffreAffaires(s: seq<Invoice>): (r: real)
    ensures r == PaidTotal(s)
    ensures (forall x :: x in s ==> x.statut != PAYEE) ==> r == 0.0
    ensures (forall x :: x in s ==> x.montantTtc >= 0.0) ==> r >= 0.0
  {
    var paid := Payees(s);
    var total: Option<real> := if |paid| == 0 then None else Some(SumTtc(paid));
    SumPayeesIsPaidTotal(s);
    assert (forall x :: x in s ==> x.statut != PAYEE) ==> PaidTotal(s) == 0.0 by {
      if forall x :: x in s ==> x.statut != PAYEE { PaidTotalNoPaid(s); }
    }
    assert (forall x :: x in s ==> x.montantTtc >= 0.0) ==> PaidTotal(s) >= 0.0 by {
      if forall x :: x in s ==> x.montantTtc >= 0.0 { PaidTotalNonNegative(s); }
    }
    match total
    case None => 0.0
    case Some(v) => if v == 0.0 then 0.0 else v
  }

  datatype Statistiques = Statistiques(
    total: nat,
    payees: nat,
    enAttente: nat,
    brouillons: nat,
    annulees: nat,
    enRetard: nat,
    chiffreAffaires: real)

  /** Reference count: how many invoices of `s` are due strictly before
      `today`. */
  function OverdueCount(s: seq<Invoice>, today: Day): nat {
    if |s| == 0 then 0 else (if s[0].dateEcheance < today then 1 else 0) + OverdueCount(s[1..], today)
  }

  lemma {:induction false} FilterOverdueCount(s: seq<Invoice>, today: Day)
    ensures |EcheancePassee(s, today)| == OverdueCount(s, today)
  {
    if |s| > 0 {
      FilterOverdueCount(s[1..], today);
      FilterLength(s, (inv: Invoice) => inv.dateEcheance < today);
    }
  }

  /** `FactureManager.statistiques`, read from one snapshot of the store:
      each count is the size of its named filter and agrees with the
      reference count of its status (or of overdue invoices). */
  function ComputeStatistiques(s: seq<Invoice>, today: Day): (r: Statistiques)
    ensures r.total == |s|
    ensures r.payees == |Payees(s)| == StatusCount(s, PAYEE)
    ensures r.enAttente == |EnAttente(s)| == StatusCount(s, ENVOYEE)
    ensures r.brouillons == |Brouillons(s)| == StatusCount(s, BROUILLON)
    ensures r.annulees == |Annulees(s)| == StatusCount(s, ANNULEE)
    ensures r.enRetard == |EcheancePassee(s, today)| == OverdueCount(s, today)
    ensures ValidStatuses(s) ==> r.payees + r.enAttente + r.brouillons + r.annulees == r.total
    ensures r.enRetard <= r.total && r.payees <= r.total
    ensures r.chiffreAffaires == PaidTotal(s)
    ensures r.payees == 0 ==> r.chiffreAffaires == 0.0
  {
    FilterStatusCount(s, IsPayee, PAYEE);
    FilterStatusCount(s, IsEnvoyee, ENVOYEE);
    FilterStatusCount(s, IsBrouillon, BROUILLON);
    FilterStatusCount(s, IsAnnulee, ANNULEE);
    FilterOverdueCount(s, today);
    assert ValidStatuses(s) ==>
      |Payees(s)| + |EnAttente(s)| + |Brouillons(s)| + |Annulees(s)| == |s| by {
      if ValidStatuses(s) { StatusPartition(s); }
    }
    assert |Payees(s)| == 0 ==> forall x :: x in s ==> x.statut != PAYEE by {
      if |Payees(s)| == 0 {
        forall x | x in s ensures x.statut != PAYEE {
        }
      }
    }
    Statistiques(
      |s|,
      |Payees(s)|,
      |EnAttente(s)|,
      |Brouillons(s)|,
      |Annulees(s)|,
      |EcheancePassee(s, today)|,
      ChiffreAffaires(s))
  }

  // Creation-log query set.

  function ParDate(logs: seq<LogEntry>, d: Day): (r: seq<LogEntry>)
    ensures forall x :: x in r <==> x in logs && DayOf(x.dateCreation) == d
  {
    Filter(logs, (l: LogEntry) => DayOf(l.dateCreation) == d)
  }

  function AujourdHui(logs: seq<LogEntry>, today: Day): (r: seq<LogEntry>)
    ensures forall x :: x in r <==> x in logs && today * SECONDS_PER_DAY <= x.dateCreation < (today + 1) * SECONDS_PER_DAY
  {
    ParDate(logs, today)
  }

  function ParFacture(logs: seq<LogEntry>, facture: nat): (r: seq<LogEntry>)
    ensures forall x :: x in r <==> x in logs && x.facture == facture
  {
    Filter(logs, (l: LogEntry) => l.facture == facture)
  }

  /** `filter(ip_address=ip)`; `None` selects entries without an address. */
  function ParIp(logs: seq<LogEntry>, ip: Option<string>): (r: seq<LogEntry>)
    ensures forall x :: x in r <==> x in logs && x.ipAddress == ip
  {
    Filter(logs, (l: LogEntry) => l.ipAddress == ip)
  }
}
