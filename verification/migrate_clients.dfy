/** The one-off `migrate_clients` command: invoices that still carry their
    client as free text (name, e-mail, raw address) and no client link are
    grouped by client name; each group becomes a client record (found again
    by name and e-mail, or created from the parsed address and a type guessed
    from the name) and every invoice of the group is linked to it. */
module MigrateClients {
  import opened Base
  import opened Text
  import opened Models
  import opened Forms

  /** An invoice row of the legacy schema: the client is described inline,
      and `client` is the new link, absent until migrated. */
  datatype LegacyInvoice = LegacyInvoice(
    id: nat,
    numero: string,
    nomClient: string,
    emailClient: string,
    adresseClient: string,
    client: Option<nat>)

  predicate IsClientLess(x: LegacyInvoice) { x.client.None? }

  /** The invoices the command works on. */
  function ClientLess(s: seq<LegacyInvoice>): (r: seq<LegacyInvoice>)
    ensures forall x :: x in r <==> x in s && x.client.None?
  {
    Filter(s, IsClientLess)
  }

  // ---------------------------------------------------------------------
  // Grouping by client name
  // ---------------------------------------------------------------------

  /** One client to be migrated: the name, the e-mail and raw address of the
      first invoice seen with that name, and all invoices bearing it. */
  datatype Group = Group(nom: string, email: string, adresseBrute: string, factures: seq<LegacyInvoice>)

  /** The invoices of `s` bearing client name `nom`, in order. */
  function Named(s: seq<LegacyInvoice>, nom: string): (r: seq<LegacyInvoice>)
    ensures forall x :: x in r <==> x in s && x.nomClient == nom
  {
    Filter(s, (x: LegacyInvoice) => x.nomClient == nom)
  }

  /** The position of the first invoice bearing `nom`. */
  function FirstIndex(s: seq<LegacyInvoice>, nom: string): (r: Option<nat>)
    ensures r.Some? ==> r.value < |s| && s[r.value].nomClient == nom
    ensures r.Some? ==> forall j :: 0 <= j < r.value ==> s[j].nomClient != nom
    ensures r.None? <==> forall j :: 0 <= j < |s| ==> s[j].nomClient != nom
  {
    if |s| == 0 then None
    else if s[0].nomClient == nom then Some(0)
    else match FirstIndex(s[1..], nom)
      case None => None
      case Some(i) => Some(i + 1)
  }

  function GroupIndex(g: seq<Group>, nom: string): (r: Option<nat>)
    ensures r.Some? ==> r.value < |g| && g[r.value].nom == nom
    ensures r.None? ==> forall i :: 0 <= i < |g| ==> g[i].nom != nom
  {
    if |g| == 0 then None
    else if g[0].nom == nom then Some(0)
    else match GroupIndex(g[1..], nom)
      case None => None
      case Some(i) => Some(i + 1)
  }

  function GroupNames(g: seq<Group>): set<string> {
    set i | 0 <= i < |g| :: g[i].nom
  }

  /** The number of invoices held by the groups. */
  function TotalInvoices(g: seq<Group>): nat {
    if |g| == 0 then 0 else |g[0].factures| + TotalInvoices(g[1..])
  }

  /** One pass of the grouping loop: file `x` under its name, opening a
      group when the name is new. */
  function AddToGroups(g: seq<Group>, x: LegacyInvoice): seq<Group> {
    match GroupIndex(g, x.nomClient)
    case Some(i) => g[i := g[i].(factures := g[i].factures + [x])]
    case None => g + [Group(x.nomClient, x.emailClient, x.adresseClient, [x])]
  }

  /** The grouping loop over the client-less invoices. */
  function GroupByName(s: seq<LegacyInvoice>): seq<Group> {
    if |s| == 0 then [] else AddToGroups(GroupByName(s[..|s| - 1]), s[|s| - 1])
  }

  /** Each group holds exactly the invoices bearing its name. */
  predicate FacturesOk(s: seq<LegacyInvoice>, g: seq<Group>) {
    forall i :: 0 <= i < |g| ==> g[i].factures == Named(s, g[i].nom)
  }

  predicate DistinctNames(g: seq<Group>) {
    forall i, j :: 0 <= i < j < |g| ==> g[i].nom != g[j].nom
  }

  /** Every invoice's name has a group. */
  predicate Covers(s: seq<LegacyInvoice>, g: seq<Group>) {
    forall k :: 0 <= k < |s| ==> s[k].nomClient in GroupNames(g)
  }

  /** Each group's e-mail and address are those of the first invoice with
      its name. */
  predicate FirstOk(s: seq<LegacyInvoice>, g: seq<Group>) {
    forall i :: 0 <= i < |g| ==>
      && FirstIndex(s, g[i].nom).Some?
      && g[i].email == s[FirstIndex(s, g[i].nom).value].emailClient
      && g[i].adresseBrute == s[FirstIndex(s, g[i].nom).value].adresseClient
  }

  /** Group `i` is named before group `j` first occurs. */
  predicate FirstBefore(s: seq<LegacyInvoice>, g: seq<Group>, i: nat, j: nat)
    requires i < |g| && j < |g|
  {
    FirstIndex(s, g[i].nom).Some? && FirstIndex(s, g[j].nom).Some? &&
    FirstIndex(s, g[i].nom).value < FirstIndex(s, g[j].nom).value
  }

  /** Groups come in the order their names first occur. */
  predicate OrderOk(s: seq<LegacyInvoice>, g: seq<Group>) {
    forall i, j :: 0 <= i < j < |g| ==> FirstBefore(s, g, i, j)
  }

  /** What the grouping promises: one group per distinct name, in the order
      the names first occur, holding exactly the invoices with that name and
      the e-mail and address of the first of them. */
  predicate GroupsOf(s: seq<LegacyInvoice>, g: seq<Group>) {
    && FacturesOk(s, g)
    && DistinctNames(g)
    && Covers(s, g)
    && FirstOk(s, g)
    && OrderOk(s, g)
    && TotalInvoices(g) == |s|
  }

  lemma GroupByNameSpec(s: seq<LegacyInvoice>)
    ensures GroupsOf(s, GroupByName(s))
  {
    GroupsDistinct(s);
    GroupsCover(s);
    GroupsFactures(s);
    GroupsFirst(s);
    GroupsOrder(s);
    GroupsTotal(s);
  }

  lemma {:induction false} GroupsDistinct(s: seq<LegacyInvoice>)
    ensures DistinctNames(GroupByName(s))
  {
    if |s| > 0 {
      var p := s[..|s| - 1];
      GroupsDistinct(p);
      AddDistinct(p, GroupByName(p), s[|s| - 1]);
    }
  }

  lemma {:induction false} GroupsCover(s: seq<LegacyInvoice>)
    ensures Covers(s, GroupByName(s))
  {
    if |s| > 0 {
      var p, x := s[..|s| - 1], s[|s| - 1];
      SnocSplit(s);
      GroupsCover(p);
      AddCovers(p, GroupByName(p), x);
    }
  }

  lemma {:induction false} GroupsFactures(s: seq<LegacyInvoice>)
    ensures FacturesOk(s, GroupByName(s))
  {
    if |s| > 0 {
      var p, x := s[..|s| - 1], s[|s| - 1];
      SnocSplit(s);
      GroupsFactures(p);
      GroupsDistinct(p);
      GroupsCover(p);
      AddFactures(p, GroupByName(p), x);
    }
  }

  lemma {:induction false} GroupsFirst(s: seq<LegacyInvoice>)
    ensures FirstOk(s, GroupByName(s))
  {
    if |s| > 0 {
      var p, x := s[..|s| - 1], s[|s| - 1];
      SnocSplit(s);
      GroupsFirst(p);
      GroupsCover(p);
      AddFirst(p, GroupByName(p), x);
    }
  }

  lemma {:induction false} GroupsOrder(s: seq<LegacyInvoice>)
    ensures OrderOk(s, GroupByName(s))
  {
    if |s| > 0 {
      var p, x := s[..|s| - 1], s[|s| - 1];
      SnocSplit(s);
      GroupsOrder(p);
      GroupsFirst(p);
      GroupsCover(p);
      AddOrder(p, GroupByName(p), x);
    }
  }

  lemma {:induction false} GroupsTotal(s: seq<LegacyInvoice>)
    ensures TotalInvoices(GroupByName(s)) == |s|
  {
    if |s| > 0 {
      var p, x := s[..|s| - 1], s[|s| - 1];
      SnocSplit(s);
      GroupsTotal(p);
      AddTotal(p, GroupByName(p), x);
    }
  }

  /** A non-empty sequence is its prefix followed by its last element. */
  lemma SnocSplit<T>(s: seq<T>)
    requires |s| > 0
    ensures s == s[..|s| - 1] + [s[|s| - 1]]
  {
  }

  lemma NamedSnoc(p: seq<LegacyInvoice>, x: LegacyInvoice, nom: string)
    ensures Named(p + [x], nom) == Named(p, nom) + (if x.nomClient == nom then [x] else [])
  {
    FilterAppend(p, [x], (y: LegacyInvoice) => y.nomClient == nom);
  }

  lemma {:induction false} FirstIndexSnoc(p: seq<LegacyInvoice>, x: LegacyInvoice, nom: string)
    ensures FirstIndex(p + [x], nom) ==
      if FirstIndex(p, nom).Some? then FirstIndex(p, nom)
      else if x.nomClient == nom then Some(|p|) else None
  {
    if |p| > 0 {
      assert (p + [x])[1..] == p[1..] + [x];
      FirstIndexSnoc(p[1..], x, nom);
    }
  }

  lemma TotalUpdate(g: seq<Group>, i: nat, v: Group)
    requires i < |g|
    ensures TotalInvoices(g[i := v]) == TotalInvoices(g) - |g[i].factures| + |v.factures|
  {
    if i > 0 {
      assert g[i := v][1..] == g[1..][i - 1 := v];
      TotalUpdate(g[1..], i - 1, v);
    }
  }

  lemma {:induction false} TotalSnoc(g: seq<Group>, v: Group)
    ensures TotalInvoices(g + [v]) == TotalInvoices(g) + |v.factures|
  {
    if |g| > 0 {
      assert (g + [v])[1..] == g[1..] + [v];
      TotalSnoc(g[1..], v);
    }
  }

  /** A name with no group occurs nowhere in the invoices grouped so far. */
  lemma NewName(p: seq<LegacyInvoice>, g: seq<Group>, nom: string)
    requires Covers(p, g)
    requires GroupIndex(g, nom).None?
    ensures Named(p, nom) == []
    ensures FirstIndex(p, nom).None?
  {
    forall k | 0 <= k < |p| ensures p[k].nomClient != nom {
      var m :| 0 <= m < |g| && g[m].nom == p[k].nomClient;
    }
    FilterNone(p, (x: LegacyInvoice) => x.nomClient == nom);
  }


  lemma AddFactures(p: seq<LegacyInvoice>, g: seq<Group>, x: LegacyInvoice)
    requires FacturesOk(p, g) && DistinctNames(g) && Covers(p, g)
    ensures FacturesOk(p + [x], AddToGroups(g, x))
  {
    var r := AddToGroups(g, x);
    forall i | 0 <= i < |r| ensures r[i].factures == Named(p + [x], r[i].nom) {
      NamedSnoc(p, x, r[i].nom);
      if GroupIndex(g, x.nomClient).None? && i == |g| {
        NewName(p, g, x.nomClient);
      }
    }
  }

  lemma AddDistinct(p: seq<LegacyInvoice>, g: seq<Group>, x: LegacyInvoice)
    requires DistinctNames(g)
    ensures DistinctNames(AddToGroups(g, x))
  {
  }

  lemma AddCovers(p: seq<LegacyInvoice>, g: seq<Group>, x: LegacyInvoice)
    requires Covers(p, g)
    ensures Covers(p + [x], AddToGroups(g, x))
  {
    var s := p + [x];
    var r := AddToGroups(g, x);
    assert forall i :: 0 <= i < |g| ==> r[i].nom == g[i].nom;
    assert x.nomClient in GroupNames(r) by {
      match GroupIndex(g, x.nomClient)
      case Some(i) => assert r[i].nom == x.nomClient;
      case None => assert r[|g|].nom == x.nomClient;
    }
    forall k | 0 <= k < |s| ensures s[k].nomClient in GroupNames(r) {
      if k < |p| {
        assert s[k] == p[k];
        var m :| 0 <= m < |g| && g[m].nom == p[k].nomClient;
        assert r[m].nom == p[k].nomClient;
      }
    }
  }

  lemma AddFirst(p: seq<LegacyInvoice>, g: seq<Group>, x: LegacyInvoice)
    requires FirstOk(p, g) && Covers(p, g)
    ensures FirstOk(p + [x], AddToGroups(g, x))
  {
    var s := p + [x];
    var r := AddToGroups(g, x);
    forall i | 0 <= i < |r|
      ensures && FirstIndex(s, r[i].nom).Some?
              && r[i].email == s[FirstIndex(s, r[i].nom).value].emailClient
              && r[i].adresseBrute == s[FirstIndex(s, r[i].nom).value].adresseClient
    {
      FirstIndexSnoc(p, x, r[i].nom);
      if i < |g| {
        assert r[i].nom == g[i].nom && r[i].email == g[i].email && r[i].adresseBrute == g[i].adresseBrute;
        assert s[FirstIndex(p, g[i].nom).value] == p[FirstIndex(p, g[i].nom).value];
      } else {
        NewName(p, g, x.nomClient);
      }
    }
  }

  /** Filing an invoice keeps every existing group's name in place and
      opens a group at the end exactly when the name is new. */
  lemma AddToGroupsNames(g: seq<Group>, x: LegacyInvoice)
    ensures var r := AddToGroups(g, x);
      && (forall k :: 0 <= k < |g| ==> r[k].nom == g[k].nom)
      && (GroupIndex(g, x.nomClient).Some? ==> |r| == |g|)
      && (GroupIndex(g, x.nomClient).None? ==> |r| == |g| + 1 && r[|g|].nom == x.nomClient)
  {
  }

  lemma AddOrder(p: seq<LegacyInvoice>, g: seq<Group>, x: LegacyInvoice)
    requires OrderOk(p, g) && FirstOk(p, g) && Covers(p, g)
    ensures OrderOk(p + [x], AddToGroups(g, x))
  {
    var r := AddToGroups(g, x);
    forall i, j | 0 <= i < j < |r| ensures FirstBefore(p + [x], r, i, j) {
      AddOrderPair(p, g, x, i, j);
    }
  }

  /** The order of first occurrences, for one pair of groups after filing. */
  lemma AddOrderPair(p: seq<LegacyInvoice>, g: seq<Group>, x: LegacyInvoice, i: nat, j: nat)
    requires OrderOk(p, g) && FirstOk(p, g) && Covers(p, g)
    requires i < j < |AddToGroups(g, x)|
    ensures FirstBefore(p + [x], AddToGroups(g, x), i, j)
  {
    AddToGroupsNames(g, x);
    FirstIndexSnoc(p, x, g[i].nom);
    if j < |g| {
      assert FirstBefore(p, g, i, j);
      FirstIndexSnoc(p, x, g[j].nom);
    } else {
      NewName(p, g, x.nomClient);
      FirstIndexSnoc(p, x, x.nomClient);
    }
  }

  lemma AddTotal(p: seq<LegacyInvoice>, g: seq<Group>, x: LegacyInvoice)
    requires TotalInvoices(g) == |p|
    ensures TotalInvoices(AddToGroups(g, x)) == |p + [x]|
  {
    match GroupIndex(g, x.nomClient)
    case Some(i) => TotalUpdate(g, i, g[i].(factures := g[i].factures + [x]));
    case None => TotalSnoc(g, Group(x.nomClient, x.emailClient, x.adresseClient, [x]));
  }

  // ---------------------------------------------------------------------
  // Address parsing
  // ---------------------------------------------------------------------

  const CODE_POSTAL_DEFAUT: string := "00000"
  const VILLE_DEFAUT: string := "Ville non définie"

  datatype ParsedAddress = ParsedAddress(adresse: string, codePostal: string, ville: string)

  /** A stripped last line of the shape "<digits> <rest>": some space is
      preceded by digits only (and is then the first space). */
  predicate CodeCityForm(t: string) {
    exists k :: 0 <= k < |t| && IsCodeCut(t, k)
  }

  /** Position `k` of `t` is a space preceded by digits only. */
  predicate IsCodeCut(t: string, k: int) {
    0 <= k < |t| && t[k] == ' ' && IsDigits(t[..k])
  }

  /** Postal code and city read from the last line of a multi-line address,
      before defaults: "<digits> <city>" gives both, cut at the first space;
      anything else is all city. */
  function CityLine(line: string): (r: (string, string))
    ensures r.0 == "" || IsDigits(r.0)
    ensures r.0 != "" ==> Strip(line) == r.0 + " " + r.1
    ensures r.0 == "" ==> r.1 == Strip(line)
    ensures '\n' !in line ==> '\n' !in r.1
  {
    var last := Strip(line);
    StripSub(line);
    var parts := SplitOnce(last, ' ');
    SplitOnceTailSub(last, ' ');
    if |parts| >= 2 && IsDigits(parts[0]) then (parts[0], parts[1])
    else ("", last)
  }

  /** The code is read exactly when the stripped line has the
      "<digits> <city>" shape; otherwise the whole line is the city. */
  lemma CityLineCodeIff(line: string)
    ensures CityLine(line).0 != "" <==> CodeCityForm(Strip(line))
  {
    CodeCityFormIff(Strip(line));
  }

  /** The "<digits> <rest>" shape is exactly the case where cutting at the
      first space leaves a run of digits in front. */
  lemma CodeCityFormIff(t: string)
    ensures CodeCityForm(t) <==> |SplitOnce(t, ' ')| == 2 && IsDigits(SplitOnce(t, ' ')[0])
  {
    var parts := SplitOnce(t, ' ');
    if |parts| == 2 && IsDigits(parts[0]) {
      var k := |parts[0]|;
      assert t[k] == ' ' && t[..k] == parts[0];
      assert IsCodeCut(t, k);
    }
    if CodeCityForm(t) {
      var k :| 0 <= k < |t| && IsCodeCut(t, k);
      assert ' ' in t;
      assert |parts| == 2;
      var a := parts[0];
      assert t == a + [' '] + parts[1];
      if k < |a| {
        assert false;
      } else if k > |a| {
        assert false;
      }
      assert t[..k] == a;
    }
  }

  /** The text after the first separator holds no character the whole did
      not. */
  lemma SplitOnceTailSub(s: string, sep: char)
    ensures |SplitOnce(s, sep)| == 2 ==> forall c :: c in SplitOnce(s, sep)[1] ==> c in s
  {
    var r := SplitOnce(s, sep);
    if |r| == 2 {
      assert r[1] == s[|r[0]| + 1..];
    }
  }

  /** An empty postal code or city replaced by its default. */
  function WithDefaults(adresse: string, cv: (string, string)): (r: ParsedAddress)
    ensures r.adresse == adresse
    ensures r.codePostal != "" && r.ville != ""
    ensures cv.0 != "" ==> r.codePostal == cv.0
    ensures cv.1 != "" ==> r.ville == cv.1
    ensures cv.0 == "" ==> r.codePostal == CODE_POSTAL_DEFAUT
    ensures cv.1 == "" ==> r.ville == VILLE_DEFAUT
  {
    ParsedAddress(adresse,
                  if cv.0 == "" then CODE_POSTAL_DEFAUT else cv.0,
                  if cv.1 == "" then VILLE_DEFAUT else cv.1)
  }

  /** The address analysis of the command: the first line is the street;
      with more than one line the last one gives postal code and city; an
      empty code or city takes its default. */
  function ParseAddress(raw: string): (r: ParsedAddress)
    ensures r.adresse == Split(raw, '\n')[0] && '\n' !in r.adresse
    ensures r.codePostal != "" && r.ville != ""
    ensures r.codePostal == CODE_POSTAL_DEFAUT || IsDigits(r.codePostal)
    ensures '\n' !in r.ville
    ensures '\n' !in raw ==> r == ParsedAddress(raw, CODE_POSTAL_DEFAUT, VILLE_DEFAUT)
    ensures |Split(raw, '\n')| > 1 ==>
      r == WithDefaults(Split(raw, '\n')[0], CityLine(Split(raw, '\n')[|Split(raw, '\n')| - 1]))
  {
    DefaultCityHasNoBreak();
    if |Split(raw, '\n')| > 1 then
      assert '\n' !in Split(raw, '\n')[|Split(raw, '\n')| - 1];
      WithDefaults(Split(raw, '\n')[0], CityLine(Split(raw, '\n')[|Split(raw, '\n')| - 1]))
    else ParsedAddress(Split(raw, '\n')[0], CODE_POSTAL_DEFAUT, VILLE_DEFAUT)
  }

  /** The default city is a single line. */
  lemma DefaultCityHasNoBreak()
    ensures '\n' !in VILLE_DEFAUT
  {
    forall k | 0 <= k < |VILLE_DEFAUT| ensures VILLE_DEFAUT[k] != '\n' {
    }
  }

  /** A text with no white space at either end is its own strip. */
  lemma StripNoop(s: string)
    requires |s| > 0 && !IsSpace(s[0]) && !IsSpace(s[|s| - 1])
    ensures Strip(s) == s
  {
    var i, j :| 0 <= i <= j <= |s| && Strip(s) == s[i..j]
                && (forall k :: 0 <= k < i ==> IsSpace(s[k]))
                && (forall k :: j <= k < |s| ==> IsSpace(s[k]));
  }

  /** Cutting at the first separator recovers a separator-free head. */
  lemma SplitOnceAt(a: string, b: string, sep: char)
    requires sep !in a
    ensures SplitOnce(a + [sep] + b, sep) == [a, b]
  {
    var s := a + [sep] + b;
    var r := SplitOnce(s, sep);
    assert s[|a|] == sep;
    assert |r| == 2;
    assert r[0] == s[..|a|] == a;
    assert r[1] == s[|a| + 1..] == b;
  }

  /** A two-line address "street / code city" parses back into its parts. */
  lemma ParseAddressRoundTrip(adresse: string, cp: string, ville: string)
    requires '\n' !in adresse && '\n' !in ville
    requires IsDigits(cp)
    requires |ville| > 0 && !IsSpace(ville[|ville| - 1])
    ensures ParseAddress(adresse + "\n" + cp + " " + ville) == ParsedAddress(adresse, cp, ville)
  {
    var line := cp + " " + ville;
    DigitsHaveNoBreak(cp);
    assert '\n' !in line;
    assert Join([adresse, line], '\n') == adresse + "\n" + cp + " " + ville;
    SplitJoin([adresse, line], '\n');
    CityLineRoundTrip(cp, ville);
  }

  /** A last line without the "<digits> <city>" shape is the city as a
      whole, even when it is a bare number, and the code takes its default. */
  lemma ParseAddressWholeCity(adresse: string, ville: string)
    requires '\n' !in adresse
    requires |ville| > 0 && forall k :: 0 <= k < |ville| ==> !IsSpace(ville[k])
    ensures ParseAddress(adresse + "\n" + ville) == ParsedAddress(adresse, CODE_POSTAL_DEFAUT, ville)
  {
    assert !IsSpace(ville[0]) && !IsSpace(ville[|ville| - 1]);
    StripNoop(ville);
    assert '\n' !in ville by {
      forall k | 0 <= k < |ville| ensures ville[k] != '\n' { assert !IsSpace(ville[k]); }
    }
    assert !CodeCityForm(ville) by {
      forall k | 0 <= k < |ville| ensures ville[k] != ' ' { assert !IsSpace(ville[k]); }
      forall k ensures !IsCodeCut(ville, k) { }
    }
    CityLineCodeIff(ville);
    assert Join([adresse, ville], '\n') == adresse + "\n" + ville;
    SplitJoin([adresse, ville], '\n');
  }

  /** With any number of lines, only the first (street) and the last
      ("<code> <city>") are read; the lines in between are ignored. */
  lemma ParseAddressLastLine(adresse: string, middle: seq<string>, cp: string, ville: string)
    requires '\n' !in adresse && '\n' !in ville
    requires forall k :: 0 <= k < |middle| ==> '\n' !in middle[k]
    requires IsDigits(cp)
    requires |ville| > 0 && !IsSpace(ville[|ville| - 1])
    ensures ParseAddress(Join([adresse] + middle + [cp + " " + ville], '\n')) == ParsedAddress(adresse, cp, ville)
  {
    var line := cp + " " + ville;
    var parts := [adresse] + middle + [line];
    CodeCityHasNoBreak(cp, ville);
    LinesWithoutBreak(adresse, middle, line);
    SplitJoin(parts, '\n');
    ParseAddressOfLines(Join(parts, '\n'), parts);
    CityLineRoundTrip(cp, ville);
    assert parts[0] == adresse && parts[|parts| - 1] == line;
  }

  /** With more than one line, the address comes from the first and the
      last of them. */
  lemma ParseAddressOfLines(raw: string, lines: seq<string>)
    requires Split(raw, '\n') == lines && |lines| > 1
    ensures ParseAddress(raw) == WithDefaults(lines[0], CityLine(lines[|lines| - 1]))
  {
  }

  /** A "code city" line built from a single-line city is one line. */
  lemma CodeCityHasNoBreak(cp: string, ville: string)
    requires IsDigits(cp) && '\n' !in ville
    ensures '\n' !in cp + " " + ville
  {
    DigitsHaveNoBreak(cp);
    var line := cp + " " + ville;
    forall k | 0 <= k < |line| ensures line[k] != '\n' {
      if k < |cp| { assert line[k] == cp[k]; }
      else if k > |cp| { assert line[k] == ville[k - |cp| - 1]; }
    }
  }


  lemma LinesWithoutBreak(first: string, middle: seq<string>, last: string)
    requires '\n' !in first && '\n' !in last
    requires forall k :: 0 <= k < |middle| ==> '\n' !in middle[k]
    ensures forall k :: 0 <= k < |[first] + middle + [last]| ==> '\n' !in ([first] + middle + [last])[k]
  {
    var parts := [first] + middle + [last];
    forall k | 0 <= k < |parts| ensures '\n' !in parts[k] {
      if 0 < k < |parts| - 1 { assert parts[k] == middle[k - 1]; }
    }
  }

  /** Digits hold neither a newline nor a space. */
  lemma DigitsHaveNoBreak(cp: string)
    requires IsDigits(cp)
    ensures '\n' !in cp && ' ' !in cp
  {
    forall k | 0 <= k < |cp| ensures cp[k] != '\n' && cp[k] != ' ' { assert IsDigitChar(cp[k]); }
  }

  /** "code city" reads back as that code and that city. */
  lemma CityLineRoundTrip(cp: string, ville: string)
    requires IsDigits(cp)
    requires |ville| > 0 && !IsSpace(ville[|ville| - 1])
    ensures CityLine(cp + " " + ville) == (cp, ville)
  {
    var line := cp + " " + ville;
    DigitsHaveNoBreak(cp);
    assert line[0] == cp[0] && IsDigitChar(cp[0]);
    assert line[|line| - 1] == ville[|ville| - 1];
    StripNoop(line);
    assert line == cp + [' '] + ville;
    SplitOnceAt(cp, ville, ' ');
  }

  // ---------------------------------------------------------------------
  // Client type from the name
  // ---------------------------------------------------------------------

  const MOTS_ASSOCIATION: seq<string> := ["association", "club", "syndicat"]
  const MOTS_ADMINISTRATION: seq<string> := ["école", "collège", "lycée", "université", "mairie", "préfecture"]
  const MOTS_PARTICULIER: seq<string> := ["monsieur", "madame", "mr", "mme", "m."]

  /** One of `words` occurs in `s`. */
  predicate HasWord(s: string, words: seq<string>) {
    exists i :: 0 <= i < |words| && Contains(s, words[i])
  }

  /** The type guessed from the lower-cased name, first match winning:
      association, then administration, then private person, else company. */
  function ClassifyType(nom: string): (r: string)
    ensures ValidType(r)
    ensures r == ASSOCIATION <==> HasWord(Lower(nom), MOTS_ASSOCIATION)
    ensures r == ADMINISTRATION <==>
      !HasWord(Lower(nom), MOTS_ASSOCIATION) && HasWord(Lower(nom), MOTS_ADMINISTRATION)
    ensures r == PARTICULIER <==>
      && !HasWord(Lower(nom), MOTS_ASSOCIATION) && !HasWord(Lower(nom), MOTS_ADMINISTRATION)
      && HasWord(Lower(nom), MOTS_PARTICULIER)
    ensures r == ENTREPRISE <==>
      && !HasWord(Lower(nom), MOTS_ASSOCIATION) && !HasWord(Lower(nom), MOTS_ADMINISTRATION)
      && !HasWord(Lower(nom), MOTS_PARTICULIER)
  {
    var n := Lower(nom);
    if HasWord(n, MOTS_ASSOCIATION) then ASSOCIATION
    else if HasWord(n, MOTS_ADMINISTRATION) then ADMINISTRATION
    else if HasWord(n, MOTS_PARTICULIER) then PARTICULIER
    else ENTREPRISE
  }

  /** The guess does not depend on the case of the name. */
  lemma ClassifyIgnoresCase(nom: string)
    ensures ClassifyType(Lower(nom)) == ClassifyType(nom)
  {
    LowerFixes(nom);
  }

  /** A name containing "club" in any case is an association, whatever
      else it contains. */
  lemma ClubIsAssociation(nom: string, i: nat)
    requires Occurs(Lower(nom), "club", i)
    ensures ClassifyType(nom) == ASSOCIATION
  {
    ContainsIff(Lower(nom), "club");
    assert Contains(Lower(nom), MOTS_ASSOCIATION[1]);
  }

  // ---------------------------------------------------------------------
  // Creating the clients and linking the invoices
  // ---------------------------------------------------------------------

  const NOTES_MIGRATION: string := "Client migré automatiquement depuis les factures existantes"

  /** The first client with this name and e-mail. */
  function FindClient(clients: seq<Client>, nom: string, email: string): (r: Option<Client>)
    ensures r.Some? ==> r.value in clients && r.value.nom == nom && r.value.email == email
    ensures r.None? ==> forall c :: c in clients ==> !(c.nom == nom && c.email == email)
  {
    if |clients| == 0 then None
    else if clients[0].nom == nom && clients[0].email == email then Some(clients[0])
    else FindClient(clients[1..], nom, email)
  }

  datatype ClientOutcome = ClientOutcome(client: Client, created: bool, clients: seq<Client>)

  /** The client `get_or_create` builds for a name, an e-mail and a raw
      address: the guessed type, the parsed address, an empty phone, the
      migration note, and France and active from the model defaults. */
  predicate NewClientFor(c: Client, nom: string, email: string, raw: string) {
    && c.nom == nom && c.email == email
    && c.typeClient == ClassifyType(nom)
    && c.telephone == Some("")
    && c.adresse == ParseAddress(raw).adresse
    && c.codePostal == ParseAddress(raw).codePostal
    && c.ville == ParseAddress(raw).ville
    && c.pays == PAYS_DEFAULT && c.estActif
    && c.notes == Some(NOTES_MIGRATION)
  }

  /** `c` is the client built for one of the groups. */
  predicate NewClientOfGroup(c: Client, groups: seq<Group>) {
    exists i :: 0 <= i < |groups| && NewClientFor(c, groups[i].nom, groups[i].email, groups[i].adresseBrute)
  }

  /** `c` is the client built for the first client-less invoice bearing its
      name. */
  predicate NewClientOfInvoices(c: Client, sans: seq<LegacyInvoice>) {
    && FirstIndex(sans, c.nom).Some?
    && NewClientFor(c, c.nom, sans[FirstIndex(sans, c.nom).value].emailClient,
                    sans[FirstIndex(sans, c.nom).value].adresseClient)
  }

  /** `get_or_create` by name and e-mail; a new client takes the parsed
      address, the guessed type, an empty phone, the migration note and the
      model defaults for the rest. */
  function GetOrCreateClient(clients: seq<Client>, g: Group, now: Instant): (r: ClientOutcome)
    ensures r.client.nom == g.nom && r.client.email == g.email
    ensures r.client in r.clients
    ensures !r.created ==> r.clients == clients
    ensures r.created <==> forall c :: c in clients ==> !(c.nom == g.nom && c.email == g.email)
    ensures r.created ==>
      && r.clients == clients + [r.client]
      && r.client.id !in ClientIds(clients)
      && NewClientFor(r.client, g.nom, g.email, g.adresseBrute)
      && ValidType(r.client.typeClient)
  {
    match FindClient(clients, g.nom, g.email)
    case Some(c) => ClientOutcome(c, false, clients)
    case None =>
      var a := ParseAddress(g.adresseBrute);
      var c := Client(FreshId(ClientIds(clients)), g.nom, ClassifyType(g.nom), g.email, Some(""),
                      a.adresse, a.codePostal, a.ville, PAYS_DEFAULT, None, None, true,
                      Some(NOTES_MIGRATION), now, now);
      ClientOutcome(c, true, clients + [c])
  }

  /** Link every client-less invoice bearing `nom` to client `id`. */
  function AssignClient(s: seq<LegacyInvoice>, nom: string, id: nat): (r: seq<LegacyInvoice>)
    ensures |r| == |s|
    ensures forall i :: 0 <= i < |s| ==> r[i] == s[i].(client := r[i].client)
    ensures forall i :: 0 <= i < |s| && s[i].client.None? && s[i].nomClient == nom ==> r[i].client == Some(id)
    ensures forall i :: 0 <= i < |s| && !(s[i].client.None? && s[i].nomClient == nom) ==> r[i] == s[i]
  {
    seq(|s|, i requires 0 <= i < |s| =>
      if s[i].client.None? && s[i].nomClient == nom then s[i].(client := Some(id)) else s[i])
  }

  /** Invoice `x` is linked to a client of `clients` with its name and with
      e-mail `email`. */
  predicate LinkedTo(x: LegacyInvoice, clients: seq<Client>, email: string) {
    x.client.Some? && exists c :: c in clients && c.id == x.client.value && c.nom == x.nomClient && c.email == email
  }

  /** The e-mail of the first group with this name. */
  function GroupEmail(g: seq<Group>, nom: string): string {
    if |g| == 0 then "" else if g[0].nom == nom then g[0].email else GroupEmail(g[1..], nom)
  }

  datatype Applied = Applied(invoices: seq<LegacyInvoice>, clients: seq<Client>, created: nat, updated: nat)

  /** The non-simulated loop over the groups, in order. */
  function ApplyGroups(groups: seq<Group>, s: seq<LegacyInvoice>, clients: seq<Client>, now: Instant): (r: Applied)
    ensures |r.invoices| == |s|
    ensures forall i :: 0 <= i < |s| ==> r.invoices[i] == s[i].(client := r.invoices[i].client)
    ensures forall i :: 0 <= i < |s| && (s[i].client.Some? || s[i].nomClient !in GroupNames(groups)) ==>
      r.invoices[i] == s[i]
    ensures forall i :: 0 <= i < |s| && s[i].client.None? && s[i].nomClient in GroupNames(groups) ==>
      LinkedTo(r.invoices[i], r.clients, GroupEmail(groups, s[i].nomClient))
    ensures r.updated == TotalInvoices(groups)
    ensures |clients| <= |r.clients| && r.clients[..|clients|] == clients
    ensures r.created == |r.clients| - |clients| <= |groups|
    ensures forall k :: |clients| <= k < |r.clients| ==> NewClientOfGroup(r.clients[k], groups)
    decreases |groups|
  {
    if |groups| == 0 then Applied(s, clients, 0, 0)
    else
      var g := groups[0];
      var oc := GetOrCreateClient(clients, g, now);
      var s1 := AssignClient(s, g.nom, oc.client.id);
      var rest := ApplyGroups(groups[1..], s1, oc.clients, now);
      ApplyKeep(groups, s, s1, oc.client.id, rest.invoices);
      GroupNamesCons(groups);
      assert groups == [g] + groups[1..];
      ApplyStep(g, groups[1..], s, oc, s1, rest);
      PrefixOfPrefix(clients, oc.clients, rest.clients);
      ApplyNewClients(groups, clients, oc, rest.clients);
      Applied(rest.invoices, rest.clients, rest.created + (if oc.created then 1 else 0), rest.updated + |g.factures|)
  }

  lemma GroupNamesCons(groups: seq<Group>)
    requires |groups| > 0
    ensures GroupNames(groups) == {groups[0].nom} + GroupNames(groups[1..])
    ensures forall n :: GroupEmail(groups, n) == if n == groups[0].nom then groups[0].email else GroupEmail(groups[1..], n)
  {
    forall n | n in GroupNames(groups) ensures n in {groups[0].nom} + GroupNames(groups[1..]) {
      var k :| 0 <= k < |groups| && groups[k].nom == n;
      if k > 0 { assert groups[1..][k - 1].nom == n; }
    }
    forall n | n in GroupNames(groups[1..]) ensures n in GroupNames(groups) {
      var k :| 0 <= k < |groups[1..]| && groups[1..][k].nom == n;
      assert groups[k + 1].nom == n;
    }
  }

  /** Invoices the first group does not touch are left to the rest, and
      only their link ever changes. */
  lemma ApplyKeep(groups: seq<Group>, s: seq<LegacyInvoice>, s1: seq<LegacyInvoice>, id: nat,
                  out: seq<LegacyInvoice>)
    requires |groups| > 0
    requires s1 == AssignClient(s, groups[0].nom, id)
    requires |out| == |s1|
    requires forall i :: 0 <= i < |s1| ==> out[i] == s1[i].(client := out[i].client)
    requires forall i :: 0 <= i < |s1| && (s1[i].client.Some? || s1[i].nomClient !in GroupNames(groups[1..])) ==>
      out[i] == s1[i]
    ensures forall i :: 0 <= i < |s| ==> out[i] == s[i].(client := out[i].client)
    ensures forall i :: 0 <= i < |s| && (s[i].client.Some? || s[i].nomClient !in GroupNames(groups)) ==>
      out[i] == s[i]
  {
    GroupNamesCons(groups);
  }


  /** A client added while processing the groups was built for one of them:
      either the first group's, or one the remaining groups added. */
  lemma ApplyNewClients(groups: seq<Group>, clients: seq<Client>, oc: ClientOutcome, out: seq<Client>)
    requires |groups| > 0
    requires !oc.created ==> oc.clients == clients
    requires oc.created ==> oc.clients == clients + [oc.client]
    requires oc.created ==> NewClientFor(oc.client, groups[0].nom, groups[0].email, groups[0].adresseBrute)
    requires |oc.clients| <= |out| && out[..|oc.clients|] == oc.clients
    requires forall k :: |oc.clients| <= k < |out| ==> NewClientOfGroup(out[k], groups[1..])
    ensures forall k :: |clients| <= k < |out| ==> NewClientOfGroup(out[k], groups)
  {
    forall k | |clients| <= k < |out| ensures NewClientOfGroup(out[k], groups) {
      if k < |oc.clients| {
        assert out[k] == oc.clients[k];
        assert out[k] == oc.client;
        assert NewClientFor(out[k], groups[0].nom, groups[0].email, groups[0].adresseBrute);
      } else {
        var i :| 0 <= i < |groups[1..]| &&
          NewClientFor(out[k], groups[1..][i].nom, groups[1..][i].email, groups[1..][i].adresseBrute);
        assert groups[1..][i] == groups[i + 1];
      }
    }
  }

  lemma PrefixOfPrefix<T>(a: seq<T>, b: seq<T>, c: seq<T>)
    requires |a| <= |b| && b[..|a|] == a
    requires |b| <= |c| && c[..|b|] == b
    ensures c[..|a|] == a
  {
    assert c[..|a|] == c[..|b|][..|a|];
  }

  /** A link made before the remaining groups are processed survives them. */
  lemma ApplyStep(g: Group, tail: seq<Group>, s: seq<LegacyInvoice>, oc: ClientOutcome,
                  s1: seq<LegacyInvoice>, rest: Applied)
    requires oc.client.nom == g.nom && oc.client.email == g.email && oc.client in oc.clients
    requires s1 == AssignClient(s, g.nom, oc.client.id)
    requires |rest.invoices| == |s1|
    requires forall i :: 0 <= i < |s1| && (s1[i].client.Some? || s1[i].nomClient !in GroupNames(tail)) ==>
      rest.invoices[i] == s1[i]
    requires forall i :: 0 <= i < |s1| && s1[i].client.None? && s1[i].nomClient in GroupNames(tail) ==>
      LinkedTo(rest.invoices[i], rest.clients, GroupEmail(tail, s1[i].nomClient))
    requires |oc.clients| <= |rest.clients| && rest.clients[..|oc.clients|] == oc.clients
    ensures forall i :: 0 <= i < |s| && s[i].client.None? && (s[i].nomClient == g.nom || s[i].nomClient in GroupNames(tail)) ==>
      LinkedTo(rest.invoices[i], rest.clients, GroupEmail([g] + tail, s[i].nomClient))
  {
    forall i | 0 <= i < |s| && s[i].client.None? && (s[i].nomClient == g.nom || s[i].nomClient in GroupNames(tail))
      ensures LinkedTo(rest.invoices[i], rest.clients, GroupEmail([g] + tail, s[i].nomClient))
    {
      assert ([g] + tail)[1..] == tail;
      if s[i].nomClient == g.nom {
        assert rest.invoices[i] == s1[i];
        var k :| 0 <= k < |oc.clients| && oc.clients[k] == oc.client;
        assert rest.clients[k] == oc.client;
      }
    }
  }



  /** What the command reports and leaves behind. `dejaFait` is the early
      exit when no invoice lacks a client. */
  datatype Migration = Migration(invoices: seq<LegacyInvoice>, clients: seq<Client>,
                                 clientsCrees: nat, facturesMisesAJour: nat, dejaFait: bool)

  /** `migrate_clients`, with `dryRun` for `--dry-run`. */
  function Run(s: seq<LegacyInvoice>, clients: seq<Client>, dryRun: bool, now: Instant): (r: Migration)
    ensures |ClientLess(s)| == 0 ==> r == Migration(s, clients, 0, 0, true)
    ensures dryRun ==> r.invoices == s && r.clients == clients
    ensures dryRun && |ClientLess(s)| > 0 ==>
      && r.clientsCrees == |GroupByName(ClientLess(s))|
      && r.facturesMisesAJour == |ClientLess(s)|
    ensures !dryRun ==>
      && |r.invoices| == |s|
      && (forall i :: 0 <= i < |s| ==> r.invoices[i] == s[i].(client := r.invoices[i].client))
      && (forall i :: 0 <= i < |s| && s[i].client.Some? ==> r.invoices[i] == s[i])
      && (forall i :: 0 <= i < |s| && s[i].client.None? ==> r.invoices[i].client.Some?)
      && (forall i :: 0 <= i < |s| && s[i].client.None? ==>
            LinkedTo(r.invoices[i], r.clients, FirstEmail(ClientLess(s), s[i].nomClient)))
      && r.facturesMisesAJour == |ClientLess(s)|
      && |clients| <= |r.clients| && r.clients[..|clients|] == clients
      && r.clientsCrees == |r.clients| - |clients|
    ensures !dryRun ==> forall k :: |clients| <= k < |r.clients| ==> NewClientOfInvoices(r.clients[k], ClientLess(s))
    ensures !dryRun && |ClientLess(s)| > 0 ==> r.clientsCrees <= |GroupByName(ClientLess(s))|
  {
    var sans := ClientLess(s);
    if |sans| == 0 then
      NothingClientLess(s);
      Migration(s, clients, 0, 0, true)
    else
      var groups := GroupByName(sans);
      GroupedTotal(s);
      if dryRun then Migration(s, clients, |groups|, TotalInvoices(groups), false)
      else
        GroupedCover(s);
        GroupEmailIsFirst(sans);
        var a := ApplyGroups(groups, s, clients, now);
        GroupClientsFromInvoices(sans, a.clients, |clients|);
        Migration(a.invoices, a.clients, a.created, a.updated, false)
  }

  lemma NothingClientLess(s: seq<LegacyInvoice>)
    requires |ClientLess(s)| == 0
    ensures forall i :: 0 <= i < |s| ==> s[i].client.Some?
  {
    forall i | 0 <= i < |s| ensures s[i].client.Some? {
    }
  }

  /** The groups hold every client-less invoice once. */
  lemma GroupedTotal(s: seq<LegacyInvoice>)
    ensures TotalInvoices(GroupByName(ClientLess(s))) == |ClientLess(s)|
  {
    GroupByNameSpec(ClientLess(s));
  }

  /** Every client-less invoice's name has a group. */
  lemma GroupedCover(s: seq<LegacyInvoice>)
    ensures forall i :: 0 <= i < |s| && s[i].client.None? ==> s[i].nomClient in GroupNames(GroupByName(ClientLess(s)))
  {
    var sans := ClientLess(s);
    GroupByNameSpec(sans);
    assert Covers(sans, GroupByName(sans));
    forall i | 0 <= i < |s| && s[i].client.None? ensures s[i].nomClient in GroupNames(GroupByName(sans)) {
      assert s[i] in sans;
      var k :| 0 <= k < |sans| && sans[k] == s[i];
    }
  }

  /** The e-mail of the first invoice bearing `nom`. */
  function FirstEmail(s: seq<LegacyInvoice>, nom: string): string {
    match FirstIndex(s, nom)
    case Some(k) => s[k].emailClient
    case None => ""
  }

  lemma {:induction false} GroupEmailFound(g: seq<Group>, nom: string)
    requires nom in GroupNames(g)
    ensures exists i :: 0 <= i < |g| && g[i].nom == nom && GroupEmail(g, nom) == g[i].email
  {
    if g[0].nom != nom {
      GroupNamesCons(g);
      GroupEmailFound(g[1..], nom);
      var i :| 0 <= i < |g[1..]| && g[1..][i].nom == nom && GroupEmail(g[1..], nom) == g[1..][i].email;
      assert g[i + 1].nom == nom;
    }
  }

  /** A migrated client takes the e-mail of the first invoice seen with its
      name. */
  lemma GroupEmailIsFirst(sans: seq<LegacyInvoice>)
    ensures forall n :: n in GroupNames(GroupByName(sans)) ==> GroupEmail(GroupByName(sans), n) == FirstEmail(sans, n)
  {
    var g := GroupByName(sans);
    GroupByNameSpec(sans);
    assert FirstOk(sans, g);
    forall n | n in GroupNames(g) ensures GroupEmail(g, n) == FirstEmail(sans, n) {
      GroupEmailFound(g, n);
    }
  }

  /** A client built for a group is the one built for the first invoice
      bearing the group's name. */
  lemma GroupClientsFromInvoices(sans: seq<LegacyInvoice>, cs: seq<Client>, from: nat)
    requires forall k :: from <= k < |cs| ==> NewClientOfGroup(cs[k], GroupByName(sans))
    ensures forall k :: from <= k < |cs| ==> NewClientOfInvoices(cs[k], sans)
  {
    var g := GroupByName(sans);
    GroupByNameSpec(sans);
    assert FirstOk(sans, g);
    forall k | from <= k < |cs| ensures NewClientOfInvoices(cs[k], sans) {
      assert NewClientOfGroup(cs[k], g);
      var i :| 0 <= i < |g| && NewClientFor(cs[k], g[i].nom, g[i].email, g[i].adresseBrute);
    }
  }

  /** Once migrated, nothing is left to migrate: running again stops at once. */
  lemma RunThenNothingLeft(s: seq<LegacyInvoice>, clients: seq<Client>, now: Instant, dryRun: bool, later: Instant)
    ensures var first := Run(s, clients, false, now);
            Run(first.invoices, first.clients, dryRun, later) == Migration(first.invoices, first.clients, 0, 0, true)
  {
    var first := Run(s, clients, false, now);
    assert forall x :: x in first.invoices ==> !IsClientLess(x) by {
      forall x | x in first.invoices ensures !IsClientLess(x) {
        var i :| 0 <= i < |first.invoices| && first.invoices[i] == x;
        if |ClientLess(s)| == 0 {
          NothingClientLess(s);
        }
      }
    }
    FilterNone(first.invoices, IsClientLess);
  }

  /** A simulation announces exactly the invoice count of the real run and
      never fewer clients than it creates. */
  lemma DryRunForecast(s: seq<LegacyInvoice>, clients: seq<Client>, now: Instant)
    ensures Run(s, clients, true, now).facturesMisesAJour == Run(s, clients, false, now).facturesMisesAJour
    ensures Run(s, clients, false, now).clientsCrees <= Run(s, clients, true, now).clientsCrees
  {
  }

  /** When no client on record bears the name of a client-less invoice,
      every group creates its client and the simulation's count is exact. */
  lemma DryRunExactForNewNames(s: seq<LegacyInvoice>, clients: seq<Client>, now: Instant)
    requires forall c, k :: c in clients && 0 <= k < |s| && s[k].client.None? ==> c.nom != s[k].nomClient
    ensures Run(s, clients, false, now).clientsCrees == Run(s, clients, true, now).clientsCrees
  {
    var sans := ClientLess(s);
    if |sans| > 0 {
      var g := GroupByName(sans);
      forall c, i | c in clients && 0 <= i < |g| ensures g[i].nom != c.nom {
        GroupNameOccurs(sans, i);
        var k :| 0 <= k < |sans| && sans[k].nomClient == g[i].nom;
        assert sans[k] in sans;
        var m :| 0 <= m < |s| && s[m] == sans[k];
      }
      GroupsDistinct(sans);
      ApplyCreatesAll(g, s, clients, now);
    }
  }

  /** Every group is named after some invoice. */
  lemma GroupNameOccurs(sans: seq<LegacyInvoice>, i: nat)
    requires i < |GroupByName(sans)|
    ensures exists k :: 0 <= k < |sans| && sans[k].nomClient == GroupByName(sans)[i].nom
  {
    GroupByNameSpec(sans);
    assert FirstOk(sans, GroupByName(sans));
  }

  /** Groups with distinct names none of which a known client bears each
      create a client. */
  lemma {:induction false} ApplyCreatesAll(groups: seq<Group>, s: seq<LegacyInvoice>, clients: seq<Client>, now: Instant)
    requires DistinctNames(groups)
    requires forall c :: c in clients ==> c.nom !in GroupNames(groups)
    ensures ApplyGroups(groups, s, clients, now).created == |groups|
    decreases |groups|
  {
    if |groups| > 0 {
      var g := groups[0];
      GroupNamesCons(groups);
      assert g.nom in GroupNames(groups);
      var oc := GetOrCreateClient(clients, g, now);
      assert oc.created;
      var s1 := AssignClient(s, g.nom, oc.client.id);
      assert DistinctNames(groups[1..]) by {
        forall i, j | 0 <= i < j < |groups[1..]| ensures groups[1..][i].nom != groups[1..][j].nom {
          assert groups[1..][i] == groups[i + 1] && groups[1..][j] == groups[j + 1];
        }
      }
      ApplyCreatesAll(groups[1..], s1, oc.clients, now);
    }
  }
}
