/** The creation-log middleware: it remembers which view a POST request is
    routed to, recognises a successful invoice creation from the response,
    finds the invoice just created and appends one audit entry holding the
    request's metadata and its form payload without the sensitive fields. */
module Middleware {
  import opened Base
  import opened Text
  import opened Models
  import opened Forms

  const APP_NAME: string := "django_exo_1"
  const CREATE_URL_NAME: string := "facture_create"
  const STATUS_REDIRECT: int := 302

  /** Substrings that make a form key sensitive, matched against the
      lower-cased key. */
  const CHAMPS_SENSIBLES: seq<string> := ["csrfmiddlewaretoken", "password", "token", "session", "auth"]

  /** The result of resolving the request path; either name may be absent. */
  datatype Route = Route(urlName: Option<string>, appName: Option<string>)

  /** The parts of an HTTP request the middleware reads. `post` is the form
      payload with one value per key, `urlName` / `appName` the attributes
      the request phase attaches (absent until then), and `sessionKey` is
      absent when there is no session or no key yet. */
  datatype Request = Request(
    httpMethod: string,
    post: map<string, string>,
    xForwardedFor: Option<string>,
    remoteAddr: Option<string>,
    userAgent: Option<string>,
    referer: Option<string>,
    sessionKey: Option<string>,
    urlName: Option<string>,
    appName: Option<string>)

  /** `process_request`: a POST request records where it is routed; a path
      that does not resolve records nothing for both names. Other requests
      pass untouched. */
  function ProcessRequest(req: Request, resolved: Option<Route>): (r: Request)
    ensures req.httpMethod != "POST" ==> r == req
    ensures req.httpMethod == "POST" && resolved.Some? ==>
      r.urlName == resolved.value.urlName && r.appName == resolved.value.appName
    ensures req.httpMethod == "POST" && resolved.None? ==> r.urlName.None? && r.appName.None?
    ensures r.(urlName := req.urlName, appName := req.appName) == req
  {
    if req.httpMethod != "POST" then req
    else match resolved
      case Some(route) => req.(urlName := route.urlName, appName := route.appName)
      case None => req.(urlName := None, appName := None)
  }

  /** `_is_facture_creation`: a POST routed to the creation view of this
      application that ended in a redirect. */
  function IsFactureCreation(req: Request, status: int): (r: bool)
    ensures r <==>
      && req.httpMethod == "POST"
      && req.appName == Some(APP_NAME) && req.urlName == Some(CREATE_URL_NAME)
      && status == STATUS_REDIRECT
  {
    if req.httpMethod != "POST" then false
    else if req.appName != Some(APP_NAME) || req.urlName != Some(CREATE_URL_NAME) then false
    else status == STATUS_REDIRECT
  }

  /** Only a POST that went through the request phase with the creation route
      and was answered with a redirect is a creation; in particular a
      re-rendered form (200) or any GET never is. */
  lemma IsFactureCreationAfterRouting(req: Request, resolved: Option<Route>, status: int)
    requires req.urlName.None? && req.appName.None?
    ensures IsFactureCreation(ProcessRequest(req, resolved), status) <==>
      && req.httpMethod == "POST"
      && resolved == Some(Route(Some(CREATE_URL_NAME), Some(APP_NAME)))
      && status == STATUS_REDIRECT
  {
  }

  /** `_get_client_ip`: the first address of a non-empty forwarding header,
      without surrounding white space, otherwise the peer address. */
  function GetClientIp(req: Request): (r: Option<string>)
    ensures req.xForwardedFor.None? || req.xForwardedFor == Some("") ==> r == req.remoteAddr
    ensures req.xForwardedFor.Some? && req.xForwardedFor.value != "" ==>
      && r.Some?
      && ',' !in r.value
      && exists first, rest ::
           && req.xForwardedFor.value == first + rest
           && ',' !in first
           && (rest == [] || rest[0] == ',')
           && r.value == Strip(first)
  {
    match req.xForwardedFor
    case Some(x) =>
      if x == "" then req.remoteAddr
      else
        FirstForwarded(x);
        Some(Strip(Split(x, ',')[0]))
    case None => req.remoteAddr
  }

  /** The first comma-separated piece of a header is a comma-free prefix
      ended by a comma or by the end of the header. */
  lemma FirstForwarded(x: string)
    ensures var first := Split(x, ',')[0];
      && |first| <= |x|
      && x == first + x[|first|..]
      && ',' !in first
      && (x[|first|..] == [] || x[|first|..][0] == ',')
      && ',' !in Strip(first)
  {
    var first := Split(x, ',')[0];
    StripSub(first);
    FirstPieceOfSplit(x, ',');
    assert x == x[..|first|] + x[|first|..];
  }

  /** The first piece of a split is a prefix of the text that is followed by
      the separator or by nothing. */
  lemma FirstPieceOfSplit(s: string, sep: char)
    ensures |Split(s, sep)[0]| <= |s|
    ensures s[..|Split(s, sep)[0]|] == Split(s, sep)[0]
    ensures var rest := s[|Split(s, sep)[0]|..]; rest == [] || rest[0] == sep
  {
    var parts := Split(s, sep);
    if |parts| == 1 {
      assert Join(parts, sep) == parts[0];
    } else {
      assert Join(parts, sep) == parts[0] + [sep] + Join(parts[1..], sep);
    }
  }

  /** A forwarding header holding one address gives that address, trimmed. */
  lemma ClientIpSingleForward(req: Request)
    requires req.xForwardedFor.Some? && req.xForwardedFor.value != ""
    requires ',' !in req.xForwardedFor.value
    ensures GetClientIp(req) == Some(Strip(req.xForwardedFor.value))
  {
  }

  /** A key is sensitive when its lower-cased form contains one of the
      sensitive words. */
  predicate IsSensitive(key: string) {
    exists i :: 0 <= i < |CHAMPS_SENSIBLES| && Contains(Lower(key), CHAMPS_SENSIBLES[i])
  }

  /** `_sanitize_post_data`: the payload without its sensitive keys. */
  function SanitizePostData(post: map<string, string>): (r: map<string, string>)
    ensures forall k :: k in r <==> k in post && !IsSensitive(k)
    ensures forall k :: k in r ==> r[k] == post[k]
  {
    map k | k in post && !IsSensitive(k) :: post[k]
  }

  /** Sanitising twice is sanitising once. */
  lemma SanitizeIdempotent(post: map<string, string>)
    ensures SanitizePostData(SanitizePostData(post)) == SanitizePostData(post)
  {
  }

  /** The test does not depend on the case of the key. */
  lemma SensitiveIgnoresCase(key: string)
    ensures IsSensitive(key) <==> IsSensitive(Lower(key))
  {
    LowerFixes(key);
  }

  /** Each sensitive word is itself a sensitive key. */
  lemma WordIsSensitive(i: nat)
    requires i < |CHAMPS_SENSIBLES|
    ensures IsSensitive(CHAMPS_SENSIBLES[i])
  {
    var k := CHAMPS_SENSIBLES[i];
    assert IsLowerString(k);
    LowerFixes(k);
    ContainsSelf(k);
    assert Contains(Lower(k), CHAMPS_SENSIBLES[i]);
  }

  /** No key the stored log hides survives the middleware's own filter. */
  lemma NoExactKeyLeft(post: map<string, string>)
    ensures forall k :: k in SanitizePostData(post) ==> k !in CHAMPS_SENSIBLES_EXACTS
  {
    forall k | k in SanitizePostData(post) ensures k !in CHAMPS_SENSIBLES_EXACTS {
      if k in CHAMPS_SENSIBLES_EXACTS {
        ExactKeyIsSensitive(k);
      }
    }
  }

  lemma ExactKeyIsSensitive(k: string)
    requires k in CHAMPS_SENSIBLES_EXACTS
    ensures IsSensitive(k)
  {
    assert k == "csrfmiddlewaretoken" || k == "password" || k == "token";
    if k == "csrfmiddlewaretoken" {
      WordIsSensitive(0);
    } else if k == "password" {
      WordIsSensitive(1);
    } else {
      WordIsSensitive(2);
    }
  }

  /** The three keys the stored log hides are among those the middleware
      already dropped, so the log's own sanitised view of a payload the
      middleware stored is that payload unchanged. */
  lemma StoredPayloadAlreadySanitised(log: LogEntry, post: map<string, string>)
    requires log.donneesPost == Some(SanitizePostData(post))
    ensures DonneesSanitisees(log) == SanitizePostData(post)
  {
    NoExactKeyLeft(post);
    ModelViewKeepsClean(log, SanitizePostData(post));
  }

  lemma ModelViewKeepsClean(log: LogEntry, d: map<string, string>)
    requires log.donneesPost == Some(d)
    requires forall k :: k in d ==> k !in CHAMPS_SENSIBLES_EXACTS
    ensures DonneesSanitisees(log) == d
  {
    var v := DonneesSanitisees(log);
    assert v.Keys == d.Keys;
  }

  /** The latest invoice bearing `numero`: the greatest creation time, the
      earliest in the store among equal times. */
  function Latest(s: seq<Invoice>, numero: string): (r: Option<Invoice>)
    ensures r.Some? ==> r.value in s && r.value.numero == numero
    ensures r.Some? ==> forall x :: x in s && x.numero == numero ==> x.dateCreation <= r.value.dateCreation
    ensures r.None? <==> forall x :: x in s ==> x.numero != numero
  {
    if |s| == 0 then None
    else
      var rest := Latest(s[1..], numero);
      assert forall x :: x in s <==> x == s[0] || x in s[1..];
      if s[0].numero != numero then rest
      else if rest.Some? && rest.value.dateCreation > s[0].dateCreation then rest
      else Some(s[0])
  }

  /** The number the request posted, when present and non-empty. */
  function PostedNumero(req: Request): (r: Option<string>)
    ensures r.Some? <==> "numero" in req.post && req.post["numero"] != ""
    ensures r.Some? ==> r.value == req.post["numero"]
  {
    if "numero" in req.post && req.post["numero"] != "" then Some(req.post["numero"]) else None
  }

  /** `_get_created_facture`: the latest invoice with the posted number. */
  function GetCreatedFacture(req: Request, store: seq<Invoice>): (r: Option<Invoice>)
    ensures r.Some? ==> PostedNumero(req).Some? && r.value in store && r.value.numero == PostedNumero(req).value
    ensures PostedNumero(req).None? ==> r.None?
    ensures PostedNumero(req).Some? ==>
      && (r.None? <==> forall x :: x in store ==> x.numero != PostedNumero(req).value)
      && (r.Some? ==> forall x :: x in store && x.numero == r.value.numero ==> x.dateCreation <= r.value.dateCreation)
  {
    match PostedNumero(req)
    case None => None
    case Some(numero) => Latest(store, numero)
  }

  /** The audit entry `_create_log_entry` writes for `facture`. */
  function NewLogEntry(req: Request, facture: Invoice, logs: seq<LogEntry>, now: Instant): (r: LogEntry)
    ensures r.facture == facture.id
    ensures r.userAgent == Some(req.userAgent.GetOr(""))
    ensures r.ipAddress == GetClientIp(req)
    ensures r.referer == req.referer && r.sessionKey == req.sessionKey
    ensures r.methodeHttp == req.httpMethod
    ensures r.donneesPost == Some(SanitizePostData(req.post))
    ensures forall k :: k in r.donneesPost.value ==> !IsSensitive(k)
    ensures r.dateCreation == now
    ensures forall l :: l in logs ==> l.id != r.id
  {
    var ids := seq(|logs|, i requires 0 <= i < |logs| => logs[i].id);
    assert forall l :: l in logs ==> l.id in ids by {
      forall l | l in logs ensures l.id in ids {
        var i :| 0 <= i < |logs| && logs[i] == l;
        assert ids[i] == l.id;
      }
    }
    LogEntry(FreshId(ids), facture.id, Some(req.userAgent.GetOr("")), GetClientIp(req), req.referer,
             now, req.sessionKey, req.httpMethod, Some(SanitizePostData(req.post)))
  }

  /** `process_response` once the invoice to log has been looked up: the
      response passes through unchanged and, for a creation whose invoice
      was found, one entry is appended unless writing it fails (an error
      that is only reported). */
  function RecordCreation(req: Request, status: int, facture: Option<Invoice>, logs: seq<LogEntry>,
                          now: Instant, writeFails: bool): (r: seq<LogEntry>)
    ensures !IsFactureCreation(req, status) || facture.None? || writeFails ==> r == logs
    ensures IsFactureCreation(req, status) && facture.Some? && !writeFails ==>
      && |r| == |logs| + 1
      && r[..|logs|] == logs
      && r[|logs|] == NewLogEntry(req, facture.value, logs, now)
    ensures |logs| <= |r| <= |logs| + 1
  {
    if IsFactureCreation(req, status) && facture.Some? && !writeFails then
      logs + [NewLogEntry(req, facture.value, logs, now)]
    else logs
  }

  /** What `process_response` hands back: the response, passed through
      unchanged (only its status code matters here), and the creation log. */
  datatype Handled = Handled(status: int, logs: seq<LogEntry>)

  /** `process_response` as written: the invoice is looked up by the posted
      number as sent. Exactly one entry is appended, against the latest
      invoice bearing that number, when the request is a creation, that
      invoice exists and the write succeeds; the log is untouched otherwise. */
  function ProcessResponse(req: Request, status: int, store: seq<Invoice>, logs: seq<LogEntry>,
                           now: Instant, writeFails: bool): (r: Handled)
    ensures r.status == status
    ensures |r.logs| == |logs| + 1 <==>
      IsFactureCreation(req, status) && GetCreatedFacture(req, store).Some? && !writeFails
    ensures |r.logs| != |logs| + 1 ==> r.logs == logs
    ensures |r.logs| == |logs| + 1 ==>
      && r.logs[..|logs|] == logs
      && r.logs[|logs|] == NewLogEntry(req, GetCreatedFacture(req, store).value, logs, now)
      && r.logs[|logs|].facture == GetCreatedFacture(req, store).value.id
      && r.logs[|logs|].facture in InvoiceIds(store)
  {
    var found := GetCreatedFacture(req, store);
    assert found.Some? ==> found.value.id in InvoiceIds(store) by {
      if found.Some? {
        var i :| 0 <= i < |store| && store[i] == found.value;
      }
    }
    Handled(status, RecordCreation(req, status, found, logs, now, writeFails))
  }

  /** The lookup the creation view's own cleaning implies: the latest invoice
      bearing the posted number stripped of surrounding white space, which is
      what the form stored; a missing or blank number finds nothing. */
  function GetCreatedFactureStripped(req: Request, store: seq<Invoice>): (r: Option<Invoice>)
    ensures r.Some? ==> "numero" in req.post && r.value in store && r.value.numero == Strip(req.post["numero"])
    ensures "numero" !in req.post || Strip(req.post["numero"]) == "" ==> r.None?
    ensures "numero" in req.post && Strip(req.post["numero"]) != "" ==>
      (r.None? <==> forall x :: x in store ==> x.numero != Strip(req.post["numero"]))
    ensures r.Some? ==> forall x :: x in store && x.numero == r.value.numero ==> x.dateCreation <= r.value.dateCreation
  {
    if "numero" in req.post && Strip(req.post["numero"]) != "" then Latest(store, Strip(req.post["numero"]))
    else None
  }

  /** `process_response` with the lookup by the stripped number: the same
      pass-through and the same single entry, against the invoice the
      stripped lookup finds. */
  function ProcessResponseStripped(req: Request, status: int, store: seq<Invoice>, logs: seq<LogEntry>,
                                   now: Instant, writeFails: bool): (r: Handled)
    ensures r.status == status
    ensures |r.logs| == |logs| + 1 <==>
      IsFactureCreation(req, status) && GetCreatedFactureStripped(req, store).Some? && !writeFails
    ensures |r.logs| != |logs| + 1 ==> r.logs == logs
    ensures |r.logs| == |logs| + 1 ==>
      && r.logs[..|logs|] == logs
      && r.logs[|logs|] == NewLogEntry(req, GetCreatedFactureStripped(req, store).value, logs, now)
      && r.logs[|logs|].facture == GetCreatedFactureStripped(req, store).value.id
  {
    Handled(status, RecordCreation(req, status, GetCreatedFactureStripped(req, store), logs, now, writeFails))
  }

  /** When the posted number carries no surrounding white space (or is
      missing) the two lookups agree, so the middleware as written and the
      corrected one behave identically. */
  lemma LookupsAgreeOnTrimmedNumero(req: Request, status: int, store: seq<Invoice>, logs: seq<LogEntry>,
                                    now: Instant, writeFails: bool)
    requires "numero" in req.post ==> Strip(req.post["numero"]) == req.post["numero"]
    ensures GetCreatedFacture(req, store) == GetCreatedFactureStripped(req, store)
    ensures ProcessResponse(req, status, store, logs, now, writeFails)
         == ProcessResponseStripped(req, status, store, logs, now, writeFails)
  {
    if "numero" in req.post && req.post["numero"] != "" {
      assert PostedNumero(req) == Some(Strip(req.post["numero"]));
    }
  }

  /** The creation view's request, as the middleware sees it after routing:
      a POST to the creation route whose payload carries the typed number. */
  predicate CreationRequest(req: Request, inp: InvoiceInput) {
    && req.httpMethod == "POST"
    && req.urlName == Some(CREATE_URL_NAME)
    && req.appName == Some(APP_NAME)
    && "numero" in req.post
    && req.post["numero"] == inp.numero
  }

  /** With the stripped lookup every successful creation is logged exactly
      once, against the invoice the view has just added. */
  lemma CreationLoggedOnce(inp: InvoiceInput, invoices: seq<Invoice>, clients: seq<Client>,
                           cats: seq<Category>, now: Instant, req: Request, logs: seq<LogEntry>, later: Instant)
    requires CreationRequest(req, inp)
    requires FieldErrors(inp, invoices, clients, cats, None) == []
    ensures var out := CreateInvoice(inp, invoices, clients, cats, now);
            var r := ProcessResponseStripped(req, STATUS_REDIRECT, out.invoices, logs, later, false);
            && |r.logs| == |logs| + 1
            && r.logs[|logs|].facture == out.invoices[|invoices|].id
  {
    var out := CreateInvoice(inp, invoices, clients, cats, now);
    var inv := out.invoices[|invoices|];
    assert out.invoices == invoices + [inv];
    LatestOfFresh(invoices, inv);
  }

  /** As written, a creation whose number was typed without surrounding
      white space is logged exactly once, against the new invoice. */
  lemma TrimmedNumeroLogged(inp: InvoiceInput, invoices: seq<Invoice>, clients: seq<Client>,
                            cats: seq<Category>, now: Instant, req: Request, logs: seq<LogEntry>, later: Instant)
    requires CreationRequest(req, inp)
    requires FieldErrors(inp, invoices, clients, cats, None) == []
    requires Strip(inp.numero) == inp.numero
    ensures var out := CreateInvoice(inp, invoices, clients, cats, now);
            var r := ProcessResponse(req, STATUS_REDIRECT, out.invoices, logs, later, false);
            && |r.logs| == |logs| + 1
            && r.logs[|logs|].facture == out.invoices[|invoices|].id
  {
    var out := CreateInvoice(inp, invoices, clients, cats, now);
    LookupsAgreeOnTrimmedNumero(req, STATUS_REDIRECT, out.invoices, logs, later, false);
    CreationLoggedOnce(inp, invoices, clients, cats, now, req, logs, later);
  }

  /** An invoice appended under a number no earlier invoice bears is the
      latest with that number. */
  lemma LatestOfFresh(s: seq<Invoice>, inv: Invoice)
    requires forall x :: x in s ==> x.numero != inv.numero
    ensures Latest(s + [inv], inv.numero) == Some(inv)
  {
    var r := Latest(s + [inv], inv.numero);
    assert inv in s + [inv];
    assert r.value in s + [inv];
  }

  /** As written, a number typed with surrounding white space is saved
      stripped while the middleware looks for it as typed, so the creation
      goes unlogged. */
  lemma PaddedNumeroNotLogged(inp: InvoiceInput, invoices: seq<Invoice>, clients: seq<Client>,
                              cats: seq<Category>, now: Instant, req: Request, logs: seq<LogEntry>, later: Instant)
    requires CreationRequest(req, inp)
    requires FieldErrors(inp, invoices, clients, cats, None) == []
    requires Strip(inp.numero) != inp.numero
    requires forall x :: x in invoices ==> x.numero != inp.numero
    ensures var out := CreateInvoice(inp, invoices, clients, cats, now);
            ProcessResponse(req, STATUS_REDIRECT, out.invoices, logs, later, false) == Handled(STATUS_REDIRECT, logs)
  {
    var out := CreateInvoice(inp, invoices, clients, cats, now);
    var inv := out.invoices[|invoices|];
    assert out.invoices == invoices + [inv];
    AbsentAfterAppend(invoices, inv, inp.numero);
    assert GetCreatedFacture(req, out.invoices).None?;
  }

  /** Appending an invoice under another number keeps `numero` unused. */
  lemma AbsentAfterAppend(s: seq<Invoice>, inv: Invoice, numero: string)
    requires forall x :: x in s ==> x.numero != numero
    requires inv.numero != numero
    ensures forall x :: x in s + [inv] ==> x.numero != numero
  {
    forall x | x in s + [inv] ensures x.numero != numero {
      assert x in s || x == inv;
    }
  }

  /** Such a number exists: a leading space is stripped away. */
  lemma LeadingSpaceIsStripped(s: string)
    requires |s| > 0 && s[0] == ' '
    ensures Strip(s) != s
  {
  }
}
