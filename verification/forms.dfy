/** Validation of the invoice form: the required-field set, the due-date
    rule, invoice-number uniqueness (an invoice may keep its own number),
    the get-or-create fallback to the "Autres" category, and the creation
    view that saves a valid submission. */
module Forms {
  import opened Base
  import opened Text
  import opened Models

  datatype FormError =
    | Required(field: string)
    | InvalidChoice(field: string)
    | BelowMinimum(field: string)
    | TooLong(field: string)
    | DueBeforeIssue
    | DuplicateNumero

  /** `max_length` of the invoice number column. */
  const NUMERO_MAX_LENGTH: nat := 50

  const AUTRES: string := "Autres"
  const AUTRES_DESCRIPTION: string := "Catégorie par défaut pour les factures non classées"
  const AUTRES_COULEUR: string := "#6c757d"

  /** What the browser submitted. Text fields arrive as raw text (empty when
      left blank); the other fields are `None` when left blank. */
  datatype InvoiceInput = InvoiceInput(
    numero: string,
    dateEmission: Option<Day>,
    dateEcheance: Option<Day>,
    client: Option<nat>,
    montantHt: Option<real>,
    tauxTva: Option<real>,
    categorie: Option<nat>,
    statut: string,
    description: string,
    notes: string)

  /** A fully validated submission. */
  datatype CleanedInvoice = CleanedInvoice(
    numero: string,
    dateEmission: Day,
    dateEcheance: Day,
    client: nat,
    montantHt: real,
    tauxTva: real,
    categorie: Category,
    statut: string,
    description: string,
    notes: Option<string>)

  /** `clean_date_echeance`: only when both dates are known is the due date
      compared with the issue date; the same day is accepted. */
  function CleanDateEcheance(emission: Option<Day>, echeance: Option<Day>): (r: Result<Option<Day>, FormError>)
    ensures r.Err? <==> emission.Some? && echeance.Some? && echeance.value < emission.value
    ensures r.Err? ==> r.error == DueBeforeIssue
    ensures r.Ok? ==> r.value == echeance
  {
    if emission.Some? && echeance.Some? && echeance.value < emission.value then Err(DueBeforeIssue)
    else Ok(echeance)
  }

  /** The invoice a number lookup returns first, in store order. */
  function FirstWithNumero(store: seq<Invoice>, numero: string): (r: Option<Invoice>)
    ensures r.Some? ==> r.value in store && r.value.numero == numero
    ensures r.None? ==> forall x :: x in store ==> x.numero != numero
  {
    if |store| == 0 then None
    else if store[0].numero == numero then Some(store[0])
    else FirstWithNumero(store[1..], numero)
  }

  /** `clean_numero`: a non-empty number is refused when the invoice found
      under it is not the one being edited (`instancePk` is `None` for a
      new invoice). */
  function CleanNumero(numero: string, store: seq<Invoice>, instancePk: Option<nat>): (r: Result<string, FormError>)
    ensures r.Ok? ==> r.value == numero
    ensures r.Err? ==> r.error == DuplicateNumero
    ensures r.Err? ==> numero != "" && exists x :: x in store && x.numero == numero && Some(x.id) != instancePk
    ensures numero == "" ==> r.Ok?
    ensures (forall x :: x in store ==> x.numero != numero) ==> r.Ok?
  {
    if numero == "" then Ok(numero)
    else
      match FirstWithNumero(store, numero)
      case None => Ok(numero)
      case Some(existing) =>
        if Some(existing.id) != instancePk then Err(DuplicateNumero) else Ok(numero)
  }

  /** Under the uniqueness constraint on numbers, a number is refused exactly
      when another invoice already carries it; re-saving an invoice under its
      own number is accepted. */
  lemma CleanNumeroIff(numero: string, store: seq<Invoice>, instancePk: Option<nat>)
    requires UniqueNumeros(store)
    requires numero != ""
    ensures CleanNumero(numero, store, instancePk).Err? <==>
            exists x :: x in store && x.numero == numero && Some(x.id) != instancePk
  {
    var r := FirstWithNumero(store, numero);
    if r.Some? {
      forall x | x in store && x.numero == numero ensures x == r.value {
        var i :| 0 <= i < |store| && store[i] == x;
        var j :| 0 <= j < |store| && store[j] == r.value;
      }
    }
  }

  predicate UniqueCategoryNames(cats: seq<Category>) {
    forall i, j :: 0 <= i < j < |cats| ==> cats[i].nom != cats[j].nom
  }

  function CategoryIds(cats: seq<Category>): (r: seq<nat>)
    ensures |r| == |cats| && forall i :: 0 <= i < |cats| ==> r[i] == cats[i].id
  {
    seq(|cats|, i requires 0 <= i < |cats| => cats[i].id)
  }

  /** How many categories carry the name `nom`. */
  function CountNamed(cats: seq<Category>, nom: string): nat {
    if |cats| == 0 then 0 else (if cats[0].nom == nom then 1 else 0) + CountNamed(cats[1..], nom)
  }

  function FindCategoryNamed(cats: seq<Category>, nom: string): (r: Option<Category>)
    ensures r.Some? ==> r.value in cats && r.value.nom == nom
    ensures r.None? <==> CountNamed(cats, nom) == 0
  {
    if |cats| == 0 then None
    else if cats[0].nom == nom then Some(cats[0])
    else FindCategoryNamed(cats[1..], nom)
  }

  lemma {:induction false} CountNamedAppend(cats: seq<Category>, c: Category, nom: string)
    ensures CountNamed(cats + [c], nom) == CountNamed(cats, nom) + (if c.nom == nom then 1 else 0)
  {
    if |cats| > 0 {
      assert (cats + [c])[1..] == cats[1..] + [c];
      CountNamedAppend(cats[1..], c, nom);
    }
  }

  datatype CategoryOutcome = CategoryOutcome(categorie: Category, store: seq<Category>)

  /** `get_or_create(nom='Autres', defaults=...)`: reuse the category of that
      name, or add one with the fixed description and grey colour. */
  function GetOrCreateAutres(store: seq<Category>, now: Instant): (r: CategoryOutcome)
    ensures r.categorie.nom == AUTRES && r.categorie in r.store
    ensures CountNamed(store, AUTRES) > 0 ==> r.store == store
    ensures CountNamed(store, AUTRES) == 0 ==>
      && r.store == store + [r.categorie]
      && r.categorie.description == Some(AUTRES_DESCRIPTION)
      && r.categorie.couleur == AUTRES_COULEUR
      && r.categorie.id !in CategoryIds(store)
    ensures CountNamed(r.store, AUTRES) == if CountNamed(store, AUTRES) == 0 then 1 else CountNamed(store, AUTRES)
  {
    match FindCategoryNamed(store, AUTRES)
    case Some(c) => CategoryOutcome(c, store)
    case None =>
      var c := Category(FreshId(CategoryIds(store)), AUTRES, Some(AUTRES_DESCRIPTION), AUTRES_COULEUR, now);
      CountNamedAppend(store, c, AUTRES);
      CategoryOutcome(c, store + [c])
  }

  /** `clean_categorie`: a supplied category is kept and the store left
      alone; a missing one falls back to "Autres". */
  function CleanCategorie(categorie: Option<Category>, store: seq<Category>, now: Instant): (r: CategoryOutcome)
    ensures categorie.Some? ==> r.categorie == categorie.value && r.store == store
    ensures categorie.None? ==> r.categorie.nom == AUTRES && r.categorie in r.store
    ensures categorie.None? && CountNamed(store, AUTRES) > 0 ==> r.store == store
    ensures categorie.None? && CountNamed(store, AUTRES) == 0 ==>
      r.store == store + [r.categorie] && r.categorie.couleur == AUTRES_COULEUR
  {
    match categorie
    case Some(c) => CategoryOutcome(c, store)
    case None => GetOrCreateAutres(store, now)
  }

  /** The category store after `n` submissions without a category. */
  function RepeatFallback(store: seq<Category>, n: nat, now: Instant): seq<Category>
    decreases n
  {
    if n == 0 then store
    else RepeatFallback(CleanCategorie(None, store, now).store, n - 1, now)
  }

  /** However many times the fallback runs, starting from a store with at
      most one "Autres", there is exactly one "Autres" afterwards. */
  lemma {:induction false} FallbackIdempotent(store: seq<Category>, n: nat, now: Instant)
    requires n >= 1
    requires CountNamed(store, AUTRES) <= 1
    ensures CountNamed(RepeatFallback(store, n, now), AUTRES) == 1
    decreases n
  {
    var next := CleanCategorie(None, store, now).store;
    assert CountNamed(next, AUTRES) == 1;
    if n > 1 {
      FallbackIdempotent(next, n - 1, now);
    }
  }

  function ClientIds(clients: seq<Client>): (r: seq<nat>)
    ensures |r| == |clients| && forall i :: 0 <= i < |clients| ==> r[i] == clients[i].id
  {
    seq(|clients|, i requires 0 <= i < |clients| => clients[i].id)
  }

  function FindCategory(cats: seq<Category>, id: nat): (r: Option<Category>)
    ensures r.Some? ==> r.value in cats && r.value.id == id
    ensures r.None? ==> forall c :: c in cats ==> c.id != id
  {
    if |cats| == 0 then None
    else if cats[0].id == id then Some(cats[0])
    else FindCategory(cats[1..], id)
  }

  /** The errors one field check contributes. */
  function ErrIf(bad: bool, e: FormError): seq<FormError> {
    if bad then [e] else []
  }

  /** The text field strips the number, then checks presence and length;
      `clean_numero` runs only on a value that passed both. */
  function NumeroErrors(inp: InvoiceInput, invoices: seq<Invoice>, instancePk: Option<nat>): (r: seq<FormError>)
    ensures r == [] <==>
      && Strip(inp.numero) != "" && |Strip(inp.numero)| <= NUMERO_MAX_LENGTH
      && CleanNumero(Strip(inp.numero), invoices, instancePk).Ok?
    ensures Strip(inp.numero) == "" ==> r == [Required("numero")]
    ensures Strip(inp.numero) != "" && |Strip(inp.numero)| > NUMERO_MAX_LENGTH ==> r == [TooLong("numero")]
  {
    var v := Strip(inp.numero);
    if v == "" then [Required("numero")]
    else if |v| > NUMERO_MAX_LENGTH then [TooLong("numero")]
    else match CleanNumero(v, invoices, instancePk)
      case Ok(_) => []
      case Err(e) => [e]
  }

  /** Both dates are required, and the due date may not precede the issue
      date. */
  function DateErrors(inp: InvoiceInput): (r: seq<FormError>)
    ensures r == [] <==>
      inp.dateEmission.Some? && inp.dateEcheance.Some? && inp.dateEmission.value <= inp.dateEcheance.value
    ensures inp.dateEmission.None? ==> Required("date_emission") in r
    ensures inp.dateEcheance.None? ==> Required("date_echeance") in r
  {
    var echeance := match inp.dateEcheance
      case None => [Required("date_echeance")]
      case Some(_) =>
        match CleanDateEcheance(inp.dateEmission, inp.dateEcheance)
        case Ok(_) => []
        case Err(e) => [e];
    ErrIf(inp.dateEmission.None?, Required("date_emission")) + echeance
  }

  /** The client is required and must be one of the stored clients. */
  function ClientErrors(inp: InvoiceInput, clients: seq<Client>): (r: seq<FormError>)
    ensures r == [] <==> inp.client.Some? && inp.client.value in ClientIds(clients)
    ensures inp.client.None? ==> r == [Required("client")]
  {
    ErrIf(inp.client.None?, Required("client"))
    + ErrIf(inp.client.Some? && inp.client.value !in ClientIds(clients), InvalidChoice("client"))
  }

  /** The net amount is required and at least the minimum; the rate is
      required. */
  function MontantErrors(inp: InvoiceInput): (r: seq<FormError>)
    ensures r == [] <==> inp.montantHt.Some? && inp.montantHt.value >= MONTANT_HT_MIN && inp.tauxTva.Some?
    ensures inp.montantHt.None? ==> Required("montant_ht") in r
  {
    ErrIf(inp.montantHt.None?, Required("montant_ht"))
    + ErrIf(inp.montantHt.Some? && inp.montantHt.value < MONTANT_HT_MIN, BelowMinimum("montant_ht"))
    + ErrIf(inp.tauxTva.None?, Required("taux_tva"))
  }

  function CategorieErrors(inp: InvoiceInput, cats: seq<Category>): (r: seq<FormError>)
    ensures r == [] <==> (inp.categorie.Some? ==> FindCategory(cats, inp.categorie.value).Some?)
  {
    match inp.categorie
    case None => []
    case Some(id) => ErrIf(FindCategory(cats, id).None?, InvalidChoice("categorie"))
  }

  /** The status is required and must be one of the choices, compared as
      typed. */
  function StatutErrors(inp: InvoiceInput): (r: seq<FormError>)
    ensures r == [] <==> inp.statut in STATUT_CHOICES
    ensures inp.statut == "" ==> r == [Required("statut")]
    ensures inp.statut != "" && inp.statut !in STATUT_CHOICES ==> r == [InvalidChoice("statut")]
  {
    assert "" !in STATUT_CHOICES;
    ErrIf(inp.statut == "", Required("statut"))
    + ErrIf(inp.statut != "" && inp.statut !in STATUT_CHOICES, InvalidChoice("statut"))
  }

  /** Every field error, in field order. `taux_tva` and `statut` are required
      because their model fields may not be blank; `categorie` is optional.
      Text fields are stripped before they are checked, but the status is a
      choice field and is compared as typed. */
  function FieldErrors(inp: InvoiceInput, invoices: seq<Invoice>, clients: seq<Client>,
                       cats: seq<Category>, instancePk: Option<nat>): (r: seq<FormError>)
    ensures r == [] <==> Acceptable(inp, invoices, clients, cats, instancePk)
    ensures Strip(inp.numero) == "" ==> Required("numero") in r
    ensures Strip(inp.numero) != "" && |Strip(inp.numero)| > NUMERO_MAX_LENGTH ==> TooLong("numero") in r
    ensures inp.statut != "" && inp.statut !in STATUT_CHOICES ==> InvalidChoice("statut") in r
  {
    var a := NumeroErrors(inp, invoices, instancePk);
    var b := DateErrors(inp);
    var c := ClientErrors(inp, clients);
    var d := MontantErrors(inp);
    var e := CategorieErrors(inp, cats);
    var f := StatutErrors(inp);
    var g := ErrIf(Strip(inp.description) == "", Required("description"));
    var r := a + b + c + d + e + f + g;
    assert |r| == |a| + |b| + |c| + |d| + |e| + |f| + |g|;
    assert forall x :: x in a || x in f ==> x in r;
    r
  }

  /** What a submission must satisfy to be accepted, field by field. */
  predicate Acceptable(inp: InvoiceInput, invoices: seq<Invoice>, clients: seq<Client>,
                       cats: seq<Category>, instancePk: Option<nat>)
  {
    && Strip(inp.numero) != "" && |Strip(inp.numero)| <= NUMERO_MAX_LENGTH
    && CleanNumero(Strip(inp.numero), invoices, instancePk).Ok?
    && inp.dateEmission.Some? && inp.dateEcheance.Some?
    && inp.dateEmission.value <= inp.dateEcheance.value
    && inp.client.Some? && inp.client.value in ClientIds(clients)
    && inp.montantHt.Some? && inp.montantHt.value >= MONTANT_HT_MIN
    && inp.tauxTva.Some?
    && (inp.categorie.Some? ==> FindCategory(cats, inp.categorie.value).Some?)
    && inp.statut in STATUT_CHOICES
    && Strip(inp.description) != ""
  }

  /** A submission without field errors has every required value, and
      each value passed its field's check. */
  lemma NoFieldErrors(inp: InvoiceInput, invoices: seq<Invoice>, clients: seq<Client>,
                      cats: seq<Category>, instancePk: Option<nat>)
    requires FieldErrors(inp, invoices, clients, cats, instancePk) == []
    ensures Strip(inp.numero) != "" && |Strip(inp.numero)| <= NUMERO_MAX_LENGTH
    ensures CleanNumero(Strip(inp.numero), invoices, instancePk).Ok?
    ensures inp.dateEmission.Some? && inp.dateEcheance.Some?
    ensures inp.dateEmission.value <= inp.dateEcheance.value
    ensures inp.client.Some? && inp.client.value in ClientIds(clients)
    ensures inp.montantHt.Some? && inp.montantHt.value >= MONTANT_HT_MIN
    ensures inp.tauxTva.Some?
    ensures inp.categorie.Some? ==> FindCategory(cats, inp.categorie.value).Some?
    ensures inp.statut in STATUT_CHOICES
    ensures Strip(inp.description) != ""
  {
  }

  /** A submission missing any explicitly required field is refused with a
      "required" error for that field. */
  lemma MissingRequiredReported(inp: InvoiceInput, invoices: seq<Invoice>, clients: seq<Client>,
                                cats: seq<Category>, instancePk: Option<nat>)
    ensures var errs := FieldErrors(inp, invoices, clients, cats, instancePk);
      && (Strip(inp.numero) == "" ==> Required("numero") in errs)
      && (inp.dateEmission.None? ==> Required("date_emission") in errs)
      && (inp.dateEcheance.None? ==> Required("date_echeance") in errs)
      && (inp.client.None? ==> Required("client") in errs)
      && (inp.montantHt.None? ==> Required("montant_ht") in errs)
      && (Strip(inp.description) == "" ==> Required("description") in errs)
      && (inp.statut == "" ==> Required("statut") in errs)
  {
  }

  datatype FormResult = FormResult(outcome: Result<CleanedInvoice, seq<FormError>>, categories: seq<Category>)

  /** What `cleaned_data` holds once every field check passed: the number
      stripped, within its length and not taken, the dates in order, a
      known client, a net amount above the minimum, the status as typed,
      the description stripped and non-blank, and blank notes kept as "". */
  predicate Cleaned(c: CleanedInvoice, inp: InvoiceInput, invoices: seq<Invoice>, clients: seq<Client>,
                    instancePk: Option<nat>)
  {
    && c.numero == Strip(inp.numero) && c.numero != "" && |c.numero| <= NUMERO_MAX_LENGTH
    && (instancePk.None? ==> forall x :: x in invoices ==> x.numero != c.numero)
    && (UniqueNumeros(invoices) ==> forall x :: x in invoices && x.numero == c.numero ==> Some(x.id) == instancePk)
    && c.dateEmission <= c.dateEcheance
    && c.client in ClientIds(clients)
    && c.montantHt >= MONTANT_HT_MIN
    && c.statut == inp.statut && c.statut in STATUT_CHOICES
    && c.description == Strip(inp.description) && c.description != ""
    && c.notes == Some(Strip(inp.notes))
  }

  /** The cleaned record of a submission that passed every field check:
      stripped text, the typed values, and the category already resolved. */
  function Accepted(inp: InvoiceInput, invoices: seq<Invoice>, clients: seq<Client>,
                    cats: seq<Category>, instancePk: Option<nat>, cat: Category): (c: CleanedInvoice)
    requires FieldErrors(inp, invoices, clients, cats, instancePk) == []
    ensures Cleaned(c, inp, invoices, clients, instancePk)
    ensures inp.categorie.Some? ==> FindCategory(cats, inp.categorie.value).Some?
    ensures c.categorie == cat
  {
    NoFieldErrors(inp, invoices, clients, cats, instancePk);
    assert UniqueNumeros(invoices) ==>
      forall x :: x in invoices && x.numero == Strip(inp.numero) ==> Some(x.id) == instancePk by {
      if UniqueNumeros(invoices) { CleanNumeroIff(Strip(inp.numero), invoices, instancePk); }
    }
    CleanedInvoice(
      Strip(inp.numero),
      inp.dateEmission.value,
      inp.dateEcheance.value,
      inp.client.value,
      inp.montantHt.value,
      inp.tauxTva.value,
      cat,
      inp.statut,
      Strip(inp.description),
      Some(Strip(inp.notes)))
  }

  /** `FactureForm.is_valid()`: every field is checked; the category
      fallback runs whenever no category was chosen, even if other fields
      fail, so a refused submission may still have created "Autres". */
  function FullClean(inp: InvoiceInput, invoices: seq<Invoice>, clients: seq<Client>,
                     cats: seq<Category>, instancePk: Option<nat>, now: Instant): (r: FormResult)
    ensures inp.categorie.Some? ==> r.categories == cats
    ensures inp.categorie.None? ==> r.categories == GetOrCreateAutres(cats, now).store
    ensures r.outcome.Err? <==> FieldErrors(inp, invoices, clients, cats, instancePk) != []
    ensures r.outcome.Err? ==> r.outcome.error == FieldErrors(inp, invoices, clients, cats, instancePk)
    ensures r.outcome.Ok? ==>
      && Cleaned(r.outcome.value, inp, invoices, clients, instancePk)
      && r.outcome.value.categorie in r.categories
      && (inp.categorie.None? ==> r.outcome.value.categorie.nom == AUTRES)
      && (inp.categorie.Some? ==> r.outcome.value.categorie.id == inp.categorie.value)
  {
    var errors := FieldErrors(inp, invoices, clients, cats, instancePk);
    var catOutcome := match inp.categorie
                      case Some(id) => CategoryOutcome(FindCategory(cats, id).GetOr(Category(0, "", None, "", 0)), cats)
                      case None => CleanCategorie(None, cats, now);
    if errors != [] then
      FormResult(Err(errors), catOutcome.store)
    else
      var cleaned := Accepted(inp, invoices, clients, cats, instancePk, catOutcome.categorie);
      FormResult(Ok(cleaned), catOutcome.store)
  }

  /** What the creation view answers: a redirect (302) after saving, or the
      form rendered again with its errors (200). */
  datatype CreateResponse = Redirect302 | Rerender200(errors: seq<FormError>)

  datatype CreateOutcome = CreateOutcome(invoices: seq<Invoice>, categories: seq<Category>, response: CreateResponse)

  /** `FactureCreateView`: validate, then save a new invoice whose total is
      computed by `Save`. */
  /** The invoice the creation view saved for submission `inp`: a new key,
      the stripped number under no earlier invoice, the status as typed, a
      consistent total, ordered dates, a net amount above the minimum, and
      the creation time stamped. */
  predicate Created(inv: Invoice, inp: InvoiceInput, invoices: seq<Invoice>, now: Instant) {
    && inv.id !in InvoiceIds(invoices)
    && inv.numero == Strip(inp.numero) && |inv.numero| <= NUMERO_MAX_LENGTH
    && inv.statut == inp.statut
    && (forall x :: x in invoices ==> x.numero != inv.numero)
    && TotalsConsistent(inv)
    && inv.dateEmission <= inv.dateEcheance
    && inv.montantHt >= MONTANT_HT_MIN
    && inv.dateCreation == now
  }

  /** The `save()` of a freshly created invoice: a new primary key, the
      cleaned values, both timestamps set to `now` and the total recomputed. */
  function Register(c: CleanedInvoice, invoices: seq<Invoice>, now: Instant): (inv: Invoice)
    ensures inv.id !in InvoiceIds(invoices)
    ensures inv.numero == c.numero && inv.statut == c.statut
    ensures inv.dateEmission == c.dateEmission && inv.dateEcheance == c.dateEcheance
    ensures inv.client == c.client && inv.categorie == c.categorie.id
    ensures inv.montantHt == c.montantHt && inv.tauxTva == c.tauxTva
    ensures inv.description == c.description && inv.notes == c.notes
    ensures TotalsConsistent(inv)
    ensures inv.dateCreation == now && inv.dateModification == now
  {
    Save(Invoice(
      FreshId(InvoiceIds(invoices)), c.numero, c.dateEmission, c.dateEcheance, c.client,
      c.montantHt, c.tauxTva, 0.0, c.categorie.id, c.statut, c.description, c.notes, now, now), now)
  }

  function CreateInvoice(inp: InvoiceInput, invoices: seq<Invoice>, clients: seq<Client>,
                         cats: seq<Category>, now: Instant): (r: CreateOutcome)
    ensures r.response.Rerender200? ==> r.invoices == invoices
    ensures r.response.Redirect302? ==>
      && |r.invoices| == |invoices| + 1
      && r.invoices[..|invoices|] == invoices
      && Created(r.invoices[|invoices|], inp, invoices, now)
    ensures r.response.Rerender200? <==> FieldErrors(inp, invoices, clients, cats, None) != []
  {
    var form := FullClean(inp, invoices, clients, cats, None, now);
    match form.outcome
    case Err(errors) => CreateOutcome(invoices, form.categories, Rerender200(errors))
    case Ok(c) =>
      var inv := Register(c, invoices, now);
      assert Created(inv, inp, invoices, now);
      assert (invoices + [inv])[..|invoices|] == invoices;
      assert (invoices + [inv])[|invoices|] == inv;
      CreateOutcome(invoices + [inv], form.categories, Redirect302)
  }

}
