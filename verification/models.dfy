/** The entities of the invoicing application (clients, invoice categories,
    invoices, creation-log entries), their choice sets and the rules that
    live on the model classes: the tax-inclusive total computed on save, the
    derived tax amount, the formatted postal address and the sanitised view
    of a logged form payload. */
module Models {
  import opened Base
  import opened Text

  /** A calendar date, as a day number. */
  type Day = int
  /** A point in time (creation / modification timestamps), in seconds. */
  type Instant = int

  const SECONDS_PER_DAY: int := 86400

  /** The calendar day an instant falls on. */
  function DayOf(t: Instant): Day {
    t / SECONDS_PER_DAY
  }

  // Invoice statuses (STATUT_CHOICES); the column itself is free text.
  const BROUILLON: string := "brouillon"
  const ENVOYEE: string := "envoyee"
  const PAYEE: string := "payee"
  const ANNULEE: string := "annulee"
  const STATUT_CHOICES: seq<string> := [BROUILLON, ENVOYEE, PAYEE, ANNULEE]
  const STATUT_DEFAULT: string := BROUILLON

  // Client kinds (TYPE_CHOICES).
  const PARTICULIER: string := "particulier"
  const ENTREPRISE: string := "entreprise"
  const ASSOCIATION: string := "association"
  const ADMINISTRATION: string := "administration"
  const TYPE_CHOICES: seq<string> := [PARTICULIER, ENTREPRISE, ASSOCIATION, ADMINISTRATION]
  const TYPE_DEFAULT: string := ENTREPRISE

  const PAYS_DEFAULT: string := "France"
  const COULEUR_DEFAULT: string := "#007bff"
  const TAUX_TVA_DEFAULT: real := 20.0
  /** The smallest net amount an invoice accepts (MinValueValidator). */
  const MONTANT_HT_MIN: real := 0.01
  const METHODE_HTTP_DEFAULT: string := "POST"

  /** Form keys the model-level sanitiser drops, compared exactly. */
  const CHAMPS_SENSIBLES_EXACTS: set<string> := {"csrfmiddlewaretoken", "password", "token"}

  datatype Client = Client(
    id: nat,
    nom: string,
    typeClient: string,
    email: string,
    telephone: Option<string>,
    adresse: string,
    codePostal: string,
    ville: string,
    pays: string,
    siret: Option<string>,
    numeroTva: Option<string>,
    estActif: bool,
    notes: Option<string>,
    dateCreation: Instant,
    dateModification: Instant)

  datatype Category = Category(
    id: nat,
    nom: string,
    description: Option<string>,
    couleur: string,
    dateCreation: Instant)

  datatype Invoice = Invoice(
    id: nat,
    numero: string,
    dateEmission: Day,
    dateEcheance: Day,
    client: nat,
    montantHt: real,
    tauxTva: real,
    montantTtc: real,
    categorie: nat,
    statut: string,
    description: string,
    notes: Option<string>,
    dateCreation: Instant,
    dateModification: Instant)

  /** A creation-audit record; `donneesPost` is the stored JSON payload,
      `None` standing for JSON null. */
  datatype LogEntry = LogEntry(
    id: nat,
    facture: nat,
    userAgent: Option<string>,
    ipAddress: Option<string>,
    referer: Option<string>,
    dateCreation: Instant,
    sessionKey: Option<string>,
    methodeHttp: string,
    donneesPost: Option<map<string, string>>)

  predicate ValidStatut(s: string) {
    s in STATUT_CHOICES
  }

  predicate ValidType(t: string) {
    t in TYPE_CHOICES
  }

  /** Every invoice of the store carries one of the four statuses. */
  predicate ValidStatuses(s: seq<Invoice>) {
    forall i :: 0 <= i < |s| ==> ValidStatut(s[i].statut)
  }

  /** Primary keys are unique within a store. */
  predicate UniqueInvoiceIds(s: seq<Invoice>) {
    forall i, j :: 0 <= i < j < |s| ==> s[i].id != s[j].id
  }

  /** The `unique=True` constraint on the invoice number. */
  predicate UniqueNumeros(s: seq<Invoice>) {
    forall i, j :: 0 <= i < j < |s| ==> s[i].numero != s[j].numero
  }

  function InvoiceIds(s: seq<Invoice>): (r: seq<nat>)
    ensures |r| == |s| && forall i :: 0 <= i < |s| ==> r[i] == s[i].id
  {
    seq(|s|, i requires 0 <= i < |s| => s[i].id)
  }

  /** The tax-inclusive amount for a net amount and a percentage rate. */
  function Gross(ht: real, taux: real): real {
    ht * (1.0 + taux / 100.0)
  }

  /** The stored total agrees with the net amount and the rate. */
  predicate TotalsConsistent(inv: Invoice) {
    inv.montantTtc == Gross(inv.montantHt, inv.tauxTva)
  }

  /** `Facture.save`: recompute the tax-inclusive total from the net amount
      and the rate (exact decimal arithmetic, no rounding), overwriting any
      value the caller put there, and stamp the modification time. */
  function Save(inv: Invoice, now: Instant): (r: Invoice)
    ensures TotalsConsistent(r)
    ensures r.montantTtc - r.montantHt == inv.montantHt * inv.tauxTva / 100.0
    ensures r.dateModification == now
    ensures r.(montantTtc := inv.montantTtc, dateModification := inv.dateModification) == inv
  {
    inv.(montantTtc := Gross(inv.montantHt, inv.tauxTva), dateModification := now)
  }

  /** The `montant_tva` property: total minus net. */
  function MontantTva(inv: Invoice): (r: real)
    ensures TotalsConsistent(inv) ==> r == inv.montantHt * inv.tauxTva / 100.0
    ensures TotalsConsistent(inv) && inv.montantHt >= 0.0 && inv.tauxTva >= 0.0 ==> r >= 0.0
    ensures inv.montantTtc == inv.montantHt + r
  {
    inv.montantTtc - inv.montantHt
  }

  /** Saving twice is saving once: the recomputed total is a fixed point. */
  lemma SaveIdempotent(inv: Invoice, t1: Instant, t2: Instant)
    ensures Save(Save(inv, t1), t2) == Save(inv, t2)
  {
  }

  /** The worked examples of the test suite: 100.00 at 20 % is 120.00 with
      20.00 of tax, 750 at 20 % is 900, and 150 at 10 % carries 15.00 tax. */
  lemma SaveExamples(inv: Invoice, now: Instant)
    ensures inv.montantHt == 100.0 && inv.tauxTva == 20.0 ==>
      Save(inv, now).montantTtc == 120.0 && MontantTva(Save(inv, now)) == 20.0
    ensures inv.montantHt == 750.0 && inv.tauxTva == 20.0 ==> Save(inv, now).montantTtc == 900.0
    ensures inv.montantHt == 150.0 && inv.tauxTva == 10.0 ==> MontantTva(Save(inv, now)) == 15.0
  {
  }

  /** The `adresse_complete` property: street, then postal code and city,
      then country, one per line. */
  function AdresseComplete(c: Client): (r: string)
    ensures |r| == |c.adresse| + |c.codePostal| + |c.ville| + |c.pays| + 3
    ensures r[..|c.adresse|] == c.adresse
    ensures r[|r| - |c.pays|..] == c.pays
  {
    c.adresse + "\n" + c.codePostal + " " + c.ville + "\n" + c.pays
  }

  /** Read back line by line, a formatted address yields exactly its three
      parts, as long as no field holds a line break of its own. */
  lemma AdresseCompleteLines(c: Client)
    requires '\n' !in c.adresse && '\n' !in c.codePostal
    requires '\n' !in c.ville && '\n' !in c.pays
    ensures Split(AdresseComplete(c), '\n') == [c.adresse, c.codePostal + " " + c.ville, c.pays]
  {
    var parts := [c.adresse, c.codePostal + " " + c.ville, c.pays];
    assert '\n' !in parts[1];
    assert Join(parts, '\n') == AdresseComplete(c) by {
      assert Join(parts[2..], '\n') == c.pays;
      assert Join(parts[1..], '\n') == parts[1] + "\n" + c.pays;
    }
    SplitJoin(parts, '\n');
  }

  /** The `donnees_sanitisees` property: an empty or null payload gives the
      empty map; otherwise the payload minus the keys that are exactly one of
      the sensitive field names. */
  function DonneesSanitisees(log: LogEntry): (r: map<string, string>)
    ensures log.donneesPost.None? ==> r == map[]
    ensures log.donneesPost.Some? ==> r.Keys == log.donneesPost.value.Keys - CHAMPS_SENSIBLES_EXACTS
    ensures forall k :: k in r ==> log.donneesPost.Some? && r[k] == log.donneesPost.value[k]
  {
    match log.donneesPost
    case None => map[]
    case Some(d) =>
      if |d| == 0 then map[]
      else map k | k in d && k !in CHAMPS_SENSIBLES_EXACTS :: d[k]
  }
}
