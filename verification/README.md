# django_exo_1 invoicing core, modelled in Dafny

This project models the business logic of the `django_exo_1` invoicing
application. Every part is a pure function over in-memory stores:

- **Invoices.** The tax-inclusive total computed on save, the tax amount,
  the status filters and date filters of the invoice query set, the revenue
  aggregate and the global statistics.
- **Clients.** The client's formatted address.
- **Audit payloads.** The stored-payload sanitiser of the creation log.
- **Invoice form.** Due-date and number-uniqueness checks, the "Autres"
  category fallback, the required-field rules, and the create view built
  on them.
- **Views.** The bulk "mark paid" action, the invoice and client list
  filters, the JSON export of active clients, and the per-client
  statistics.
- **Creation-audit middleware.** Route capture, success detection, client
  IP extraction, POST sanitising, the lookup of the invoice just created,
  and the appended log entry.
- **`migrate_clients` command.** It groups legacy invoices by client name,
  parses the free-text address, guesses the client type from the name, then
  creates or reuses the clients and links the invoices, with a dry-run mode.

Stores are sequences of records with natural-number ids. Money is `real`,
because `Decimal` arithmetic in the source is exact. Dates are day numbers
and timestamps are integer instants. Anything that depends on the clock is
given the current day or instant as a parameter.

Modules:

| file | module | content |
|---|---|---|
| base.dfy | Base | `Option`, `Result`, order-preserving `Filter` and its lemmas, `FreshId` |
| text.dfy | Text | ASCII lower-casing, substring search, `strip`, `split`, digits, lexicographic order |
| sorting.dfy | Sorting | insertion sort by a text key (`order_by('nom')`) |
| models.dfy | Models | entities, choice sets, `save`, `montant_tva`, `adresse_complete`, `donnees_sanitisees` |
| queries.dfy | Queries | the invoice and log query sets, revenue, `statistiques` |
| forms.dfy | Forms | `FactureForm` cleaning and the create view |
| views.dfy | Views | bulk action, list views, JSON export, client statistics |
| middleware.dfy | Middleware | `FactureCreationLogMiddleware` |
| migrate_clients.dfy | MigrateClients | the `migrate_clients` management command |

## Model

| member | source | states |
|---|---|---|
| Models.Save | django_exo_1/models.py:377-391 | after save, montant_ttc = montant_ht·(1 + taux_tva/100), so the tax part is montant_ht·taux_tva/100; only the total and the modification time change |
| Models.SaveIdempotent | django_exo_1/models.py:390 | saving twice gives the same totals as saving once |
| Models.SaveExamples | django_exo_1/models.py:390 | 100 at 20 % becomes 120; 750 at 20 % becomes 900; 150 at 10 % carries 15 of tax |
| Models.MontantTva | django_exo_1/models.py:403-413 | ttc = ht + tva; on a saved invoice tva = ht·taux/100, and it is non-negative for non-negative inputs |
| Models.AdresseComplete | django_exo_1/models.py:227-237 | the text starts with the street, ends with the country, and its length is the sum of the parts plus three separators |
| Models.AdresseCompleteLines | django_exo_1/models.py:237 | when no part contains a newline, splitting on newlines gives back exactly [adresse, code_postal + " " + ville, pays] |
| Models.DonneesSanitisees | django_exo_1/models.py:541-554 | an absent payload gives {}; otherwise the keys are the input keys minus exactly csrfmiddlewaretoken, password and token, with values unchanged |
| Queries.Payees | django_exo_1/models.py:15-17 | keeps exactly the invoices whose status is payee |
| Queries.EnAttente | django_exo_1/models.py:19-21 | keeps exactly the invoices whose status is envoyee |
| Queries.Brouillons | django_exo_1/models.py:23-25 | keeps exactly the invoices whose status is brouillon |
| Queries.Annulees | django_exo_1/models.py:27-29 | keeps exactly the invoices whose status is annulee |
| Queries.NonPayees | django_exo_1/models.py:31-33 | keeps exactly the invoices whose status is neither payee nor annulee |
| Queries.StatutsDistinct | django_exo_1/models.py:309-314 | the four status values are pairwise different |
| Queries.StatusFiltersDisjoint | django_exo_1/models.py:15-29 | no invoice is selected by two of the four status filters |
| Queries.FilterStatusCount | django_exo_1/models.py:15-29 | any status-equality filter keeps as many invoices as carry that status |
| Queries.StatusCountsSum | django_exo_1/models.py:309-314 | over statuses drawn from the choice set, the four per-status counts add up to the store size |
| Queries.StatusPartition | django_exo_1/models.py:134-141 | over valid statuses, payees + en_attente + brouillons + annulees = total |
| Queries.NonPayeeIff | django_exo_1/models.py:31-33 | for an invoice whose status is one of the four choices, "neither paid nor cancelled" holds iff it is a draft or sent |
| Queries.NonPayeesAreBrouillonsOuEnvoyees | django_exo_1/models.py:31-33 | over valid statuses, non_payees is exactly the brouillon-or-envoyee selection, and its size is the sum of those two counts |
| Queries.UnpaidCount | django_exo_1/models.py:31-33 | the brouillon-or-envoyee selection has as many invoices as brouillons and en_attente together |
| Queries.ParClient | django_exo_1/models.py:35-37 | keeps exactly the invoices of the given client |
| Queries.ParCategorie | django_exo_1/models.py:39-41 | keeps exactly the invoices of the given category |
| Queries.AvecMontantMin | django_exo_1/models.py:43-45 | keeps exactly the totals at or above the bound (inclusive) |
| Queries.AvecMontantMax | django_exo_1/models.py:47-49 | keeps exactly the totals at or below the bound (inclusive) |
| Queries.EcheancePassee | django_exo_1/models.py:51-54 | keeps exactly the due dates strictly before today, whatever the status |
| Queries.EcheanceProche | django_exo_1/models.py:56-61 | keeps exactly the sent invoices due no later than today + jours |
| Queries.EcheanceProcheIncludesOverdue | django_exo_1/models.py:56-61 | a sent invoice already overdue is also "due soon" for any non-negative horizon |
| Queries.FilterOverdueCount | django_exo_1/models.py:51-54 | the overdue filter keeps as many invoices as the independent count of due dates before today |
| Queries.ParPeriode | django_exo_1/models.py:63-65 | keeps exactly the issue dates within [debut, fin], both ends included |
| Queries.Recherche | django_exo_1/models.py:67-74 | keeps an invoice iff the term occurs, ignoring case, in its number, client name, client e-mail or description |
| Queries.RechercheIgnoresCase | django_exo_1/models.py:67-74 | searching with a term or its lower-case form selects the same invoices |
| Queries.RechercheEmptyKeepsAll | django_exo_1/models.py:67-74 | the empty term keeps every invoice |
| Queries.RechercheFindsNumero | django_exo_1/models.py:70 | an invoice whose number equals the term up to case is always found |
| Queries.SumPayeesIsPaidTotal | django_exo_1/models.py:80-84 | summing the totals of payees equals the paid total |
| Queries.PaidTotalNonNegative | django_exo_1/models.py:80-84 | with non-negative totals the revenue is non-negative |
| Queries.PaidTotalNoPaid | django_exo_1/models.py:80-84 | with no paid invoice the paid total is 0 |
| Queries.ChiffreAffaires | django_exo_1/models.py:80-84 | revenue is the paid total; it is 0 and never absent when no invoice is paid |
| Queries.ComputeStatistiques | django_exo_1/models.py:134-144 | total is the store size; payees, en_attente, brouillons and annulees each equal both the size of their status filter and the independent per-status count; en_retard equals the overdue filter and the independent overdue count; over valid statuses the four status counts sum to the total; revenue is the paid total, and 0 when nothing is paid |
| Queries.ParDate | django_exo_1/models.py:421-423 | keeps exactly the log entries created on the given day |
| Queries.AujourdHui | django_exo_1/models.py:425-428 | keeps exactly the entries whose instant falls within today's day |
| Queries.ParFacture | django_exo_1/models.py:430-432 | keeps exactly the entries of the given invoice |
| Queries.ParIp | django_exo_1/models.py:434-436 | keeps exactly the entries with the given IP address |
| Forms.CleanDateEcheance | django_exo_1/forms.py:194-203 | rejects iff both dates are present and the due date is before the issue date; equal dates pass; otherwise the due date is returned |
| Forms.FirstWithNumero | django_exo_1/forms.py:224 | finds a stored invoice with the number, or reports that none has it |
| Forms.CleanNumero | django_exo_1/forms.py:219-230 | an empty or unused number passes unchanged; a rejection names a stored invoice with that number and a different pk |
| Forms.CleanNumeroIff | django_exo_1/forms.py:219-230 | with unique numbers, a non-empty number is rejected iff another record holds it, so re-saving under the same number passes |
| Forms.FindCategoryNamed | django_exo_1/forms.py:247-253 | finds a category with that name, and reports none exactly when none exists |
| Forms.CountNamedAppend | django_exo_1/models.py:256 | adding a category raises the count of its name by one and leaves other names' counts unchanged |
| Forms.GetOrCreateAutres | django_exo_1/forms.py:247-253 | returns a stored "Autres"; an existing one is reused and the store is unchanged; otherwise exactly one is appended, with a fresh id, the fixed description and colour #6c757d |
| Forms.CleanCategorie | django_exo_1/forms.py:243-255 | a supplied category is returned and the store is untouched; with none, the result is the "Autres" fallback |
| Forms.FallbackIdempotent | django_exo_1/forms.py:247-253 | after one or more fallbacks, exactly one "Autres" exists |
| Forms.FindCategory | django_exo_1/forms.py:105 | finds the chosen category, or reports that no category has that id |
| Forms.NumeroErrors | django_exo_1/forms.py:205-230 | the stripped number is accepted iff it is non-empty, at most 50 characters (models.py:317) and passes clean_numero; a blank number is only "required" and an over-long one only "too long" |
| Forms.DateErrors | django_exo_1/forms.py:181-203 | no error iff both dates are present and the due date is not before the issue date; each missing date is reported |
| Forms.ClientErrors | django_exo_1/forms.py:172-175 | no error iff a client is chosen and it is a stored client |
| Forms.MontantErrors | django_exo_1/models.py:330-341 | no error iff montant_ht is present and at least 0.01 and taux_tva is present |
| Forms.CategorieErrors | django_exo_1/forms.py:178 | no error iff the category is absent or a stored category |
| Forms.StatutErrors | django_exo_1/models.py:355-360 | no error iff the status as typed is one of the four choices; a blank status is "required", anything else outside the choices an invalid choice |
| Forms.FieldErrors | django_exo_1/forms.py:172-230 | the form has no error iff the submission meets every field rule (Acceptable); a blank number, an over-long number and an unknown status are each reported |
| Forms.NoFieldErrors | django_exo_1/forms.py:172-203 | a form without errors has every required field, a stripped number of at most 50 characters that no other invoice holds, a known client and category, montant_ht ≥ 0.01, a status from the choice set as typed, and ordered dates |
| Forms.MissingRequiredReported | django_exo_1/forms.py:172-178 | each missing required field (numero, dates, client, montant_ht, description, and the statut the model makes required) is reported |
| Forms.Accepted | django_exo_1/forms.py:172-255 | a submission without field errors yields a cleaned record with the stripped number, unused by any other invoice, the typed values, the status as typed and blank notes kept as "" |
| Forms.FullClean | django_exo_1/forms.py:172-255 | fails iff some field error exists; on success the cleaned invoice satisfies every rule, keeps the status as typed, strips the description and keeps blank notes as "" rather than absent; the category store changes only by the fallback |
| Forms.CreateInvoice | django_exo_1/views.py:76-101 | a form with errors re-renders and stores nothing; a valid one appends exactly one invoice whose number is unused and at most 50 characters, whose status is the one typed and whose total is computed as on save, then redirects |
| Forms.Register | django_exo_1/models.py:377-391 | the saved new invoice gets a primary key no stored invoice has, carries the cleaned values, has both timestamps set to the save time and a total computed from net amount and rate |
| Views.SelectedUnpaid | django_exo_1/views.py:726-728 | keeps exactly the selected invoices that are neither paid nor cancelled |
| Views.MarkPaid | django_exo_1/views.py:735 | exactly the selected unpaid invoices get status payee; every other invoice and every other field is unchanged |
| Views.BulkAction | django_exo_1/views.py:716-748 | non-POST and an empty selection or unknown action change nothing, each with its message; mark_paid updates exactly the selected unpaid invoices and reports their count, or warns "all paid" when there are none |
| Views.BulkCountIsDraftOrSent | django_exo_1/views.py:726-735 | over valid statuses, the reported count equals the number of selected brouillon or envoyee invoices |
| Views.BulkCountStep | django_exo_1/views.py:726-735 | one step of that count: the head is counted iff it is selected and draft or sent |
| Views.NothingLeftToMark | django_exo_1/views.py:730-732 | when no selected invoice is unpaid, the selection is empty |
| Views.BulkActionIdempotent | django_exo_1/views.py:724-732 | repeating the same mark_paid request changes nothing and reports "all paid" |
| Views.MarkPaidRaisesRevenue | django_exo_1/views.py:735 | with non-negative totals, marking invoices paid never lowers the revenue |
| Views.FactureList | django_exo_1/views.py:143-166 | the list is the conjunction of the given status, category, client and search filters; empty parameters are ignored |
| Views.FactureListNoFilter | django_exo_1/views.py:143-166 | with no parameter the whole store is listed |
| Views.FactureListByStatut | django_exo_1/views.py:147-149 | the status parameter alone, for each of the four statuses (brouillon, envoyee, payee, annulee), gives the matching query-set status filter |
| Views.ClientList | django_exo_1/views.py:400-421 | sorted by name; a client is listed iff it passes the type, est_actif (== "true") and search filters; no client appears more often than in the store |
| Views.ToJson | django_exo_1/views.py:692-697 | an entry carries the client's id, name and e-mail, and an address equal to the model's adresse_complete |
| Views.ActiveClients | django_exo_1/views.py:685 | keeps exactly the active clients |
| Views.JsonOf | django_exo_1/views.py:691-697 | one entry per client, in order |
| Views.ClientListJson | django_exo_1/views.py:685-699 | one entry per active client, each address in the model's format |
| Views.ClientListJsonOnlyActive | django_exo_1/views.py:685 | every entry is that of an active client |
| Views.ClientListJsonAllActive | django_exo_1/views.py:685 | every active client is exported |
| Views.ClientListJsonSorted | django_exo_1/models.py:215 | the export follows the client default ordering by name |
| Views.ClientDetailStats | django_exo_1/views.py:481-487 | total_factures counts the client's invoices; factures_payees and factures_en_attente equal the client's payee and envoyee filter sizes and the independent per-status counts; ca_total is absent iff the client has no paid invoice, and is otherwise the paid total |
| Views.DisjointCount | django_exo_1/views.py:484-486 | paid plus pending counts never exceed the total |
| Sorting.InsertBy | django_exo_1/views.py:421 | inserting into a name-sorted list keeps it sorted and adds exactly that element |
| Sorting.SortBy | django_exo_1/views.py:421 | the result is sorted by the key and is a permutation of the input |
| Sorting.SortByMembers | django_exo_1/views.py:421 | sorting neither adds nor drops an element |
| Middleware.ProcessRequest | django_exo_1/middleware.py:54-64 | only POST requests are routed; a resolution failure leaves both names absent; nothing else in the request changes |
| Middleware.IsFactureCreation | django_exo_1/middleware.py:92-118 | a creation iff the request is a POST routed to django_exo_1 / facture_create and the response status is 302 |
| Middleware.IsFactureCreationAfterRouting | django_exo_1/middleware.py:92-118 | after routing, a response counts as a creation iff it is a POST, resolved to django_exo_1 / facture_create, with status 302 |
| Middleware.GetClientIp | django_exo_1/middleware.py:188-195 | an absent or empty X-Forwarded-For gives REMOTE_ADDR; otherwise the result is the stripped first comma-separated piece |
| Middleware.FirstForwarded | django_exo_1/middleware.py:191 | the first comma-separated piece is a comma-free prefix of the header, ended by a comma or by the end of the header, and stays comma-free once stripped |
| Middleware.FirstPieceOfSplit | django_exo_1/middleware.py:191 | the first piece of a split is a prefix of the text, followed by the separator or by nothing |
| Middleware.ClientIpSingleForward | django_exo_1/middleware.py:188-191 | a single forwarded address is returned stripped |
| Middleware.SanitizePostData | django_exo_1/middleware.py:207-219 | a key is kept iff its lower-case form contains none of the five sensitive words; values are unchanged |
| Middleware.SanitizeIdempotent | django_exo_1/middleware.py:216-219 | sanitising twice equals sanitising once |
| Middleware.SensitiveIgnoresCase | django_exo_1/middleware.py:218 | a key and its lower-case form are equally sensitive |
| Middleware.WordIsSensitive | django_exo_1/middleware.py:208-214 | each sensitive word is itself a sensitive key |
| Middleware.ExactKeyIsSensitive | django_exo_1/middleware.py:208-211 | the model's three exact names are caught by the middleware's substring rule |
| Middleware.NoExactKeyLeft | django_exo_1/middleware.py:216-219 | a sanitised payload holds none of the model's three exact names |
| Middleware.ModelViewKeepsClean | django_exo_1/models.py:549-554 | a stored payload without those exact names is shown unchanged |
| Middleware.StoredPayloadAlreadySanitised | django_exo_1/middleware.py:158 | applying donnees_sanitisees to a payload the middleware stored removes nothing further |
| Middleware.Latest | django_exo_1/middleware.py:136 | returns an invoice with the number and the greatest creation time, or none exactly when no invoice has the number |
| Middleware.PostedNumero | django_exo_1/middleware.py:133-134 | present iff the POST carries a non-empty numero |
| Middleware.GetCreatedFacture | django_exo_1/middleware.py:132-140 | none for an absent or empty numero; otherwise the most recent invoice with exactly that numero, or none when no invoice has it |
| Middleware.NewLogEntry | django_exo_1/middleware.py:152-169 | the entry references the invoice, records method, IP, referer and session, defaults the user agent to "", stores exactly the sanitised POST payload and takes a fresh id |
| Middleware.RecordCreation | django_exo_1/middleware.py:150-174 | for a creation whose invoice was found, exactly one entry is appended unless the write fails; otherwise the log is unchanged |
| Middleware.ProcessResponse | django_exo_1/middleware.py:79-90 | the response status passes through unchanged; exactly one entry is appended iff the request is a creation, the raw-number lookup finds an invoice and the write succeeds, and that entry is the one built for the found invoice; otherwise the log is unchanged |
| Middleware.GetCreatedFactureStripped | django_exo_1/middleware.py:132-140 | the same lookup by the stripped number: none for a missing or blank number, otherwise the most recent invoice with that number, or none when no invoice has it |
| Middleware.ProcessResponseStripped | django_exo_1/middleware.py:79-90 | the same pass-through and single entry as ProcessResponse, against the invoice the stripped lookup finds |
| Middleware.LookupsAgreeOnTrimmedNumero | django_exo_1/middleware.py:133-136 | when the posted number has no surrounding white space, both lookups and both response phases give the same result |
| Middleware.CreationLoggedOnce | django_exo_1/middleware.py:133-136 | with the stripped lookup, every successful creation through the form adds exactly one entry, for the invoice just created |
| Middleware.PaddedNumeroNotLogged | django_exo_1/middleware.py:133-136 | as written, a creation whose typed number has surrounding white space adds no entry |
| Middleware.TrimmedNumeroLogged | django_exo_1/middleware.py:79-90 | as written, a creation whose number was typed without surrounding white space adds exactly one entry, for the invoice just created |
| Middleware.LatestOfFresh | django_exo_1/middleware.py:136 | an invoice appended under a number no earlier invoice bears is the one the lookup returns |
| Middleware.LeadingSpaceIsStripped | django_exo_1/middleware.py:133 | a number typed with a leading space differs from its stripped form, so such input exists |
| MigrateClients.ClientLess | django_exo_1/management/commands/migrate_clients.py:25 | keeps exactly the invoices with no client |
| MigrateClients.GroupByNameSpec | django_exo_1/management/commands/migrate_clients.py:36-46 | one group per distinct name, in order of first occurrence, each holding exactly the invoices with that name in order, with the e-mail and address of the first; group sizes add up to the input size |
| MigrateClients.GroupsDistinct | django_exo_1/management/commands/migrate_clients.py:39 | no two groups share a name |
| MigrateClients.GroupsFactures | django_exo_1/management/commands/migrate_clients.py:46 | each group holds exactly the invoices bearing its name, in order |
| MigrateClients.GroupsFirst | django_exo_1/management/commands/migrate_clients.py:39-45 | each group keeps the e-mail and address of the first invoice with its name |
| MigrateClients.GroupsOrder | django_exo_1/management/commands/migrate_clients.py:38-46 | groups come in the order their names first occur |
| MigrateClients.CityLine | django_exo_1/management/commands/migrate_clients.py:56-64 | with a code, the stripped last line is exactly code + " " + city and the code is all digits; without one, the city is the whole stripped line |
| MigrateClients.CityLineCodeIff | django_exo_1/management/commands/migrate_clients.py:59-64 | a code is read iff the stripped line has a space preceded only by digits, which is then its first space |
| MigrateClients.WithDefaults | django_exo_1/management/commands/migrate_clients.py:66-69 | an empty code becomes "00000" and an empty city "Ville non définie"; non-empty values are kept |
| MigrateClients.ParseAddress | django_exo_1/management/commands/migrate_clients.py:50-69 | the street is the first line; with more than one line the code and city are those CityLine reads from the last line, with defaults applied; a one-line address gets both defaults; code and city are never empty |
| MigrateClients.ParseAddressRoundTrip | django_exo_1/management/commands/migrate_clients.py:50-64 | "street\ncode city" parses back to (street, code, city) |
| MigrateClients.ParseAddressWholeCity | django_exo_1/management/commands/migrate_clients.py:59-69 | a last line without a space, even a bare number, becomes the city and the code takes its default |
| MigrateClients.ParseAddressLastLine | django_exo_1/management/commands/migrate_clients.py:50-64 | with any number of lines, the street is the first and code and city come from the last; the lines in between are ignored |
| MigrateClients.ClassifyType | django_exo_1/management/commands/migrate_clients.py:72-79 | always one of the four client types; association beats administration beats particulier beats entreprise, each iff its keywords (and no earlier list's) occur in the lower-cased name |
| MigrateClients.ClassifyIgnoresCase | django_exo_1/management/commands/migrate_clients.py:73 | the guess does not depend on letter case |
| MigrateClients.ClubIsAssociation | django_exo_1/management/commands/migrate_clients.py:74-75 | a name containing "club" in any case is an association, whatever else it contains |
| MigrateClients.FindClient | django_exo_1/management/commands/migrate_clients.py:83-85 | finds a client with that name and e-mail, or reports that none exists |
| MigrateClients.GetOrCreateClient | django_exo_1/management/commands/migrate_clients.py:83-94 | reuses a client with the same name and e-mail and leaves the store unchanged; otherwise it appends one with a fresh id, the guessed type, the parsed address, an empty phone, the migration note, country France, active |
| MigrateClients.ApplyNewClients | django_exo_1/management/commands/migrate_clients.py:83-97 | a client added during the loop was built for the first group or for one of the later groups |
| MigrateClients.AssignClient | django_exo_1/management/commands/migrate_clients.py:101-104 | links every client-less invoice with that name and changes nothing else |
| MigrateClients.ApplyGroups | django_exo_1/management/commands/migrate_clients.py:48-104 | every client-less invoice of a group is linked to a client with the group's name and e-mail; other invoices and fields are unchanged; updates = grouped invoices; the existing clients are kept; creations ≤ groups; every added client is the one built for some group: its name, e-mail, guessed type, parsed address, empty phone and migration note |
| MigrateClients.Run | django_exo_1/management/commands/migrate_clients.py:16-113 | nothing to do when no invoice lacks a client; a dry run writes nothing and reports groups and client-less invoices; a real run links each client-less invoice to a client with its name and first-seen e-mail and reports as many updates; every client it adds takes the e-mail, the parsed address and the guessed type of the first client-less invoice with its name, an empty phone and the migration note |
| MigrateClients.GroupClientsFromInvoices | django_exo_1/management/commands/migrate_clients.py:36-46 | a client built for a group is the one built for the first client-less invoice with the group's name |
| MigrateClients.NothingClientLess | django_exo_1/management/commands/migrate_clients.py:25-29 | an empty selection means every invoice already has a client |
| MigrateClients.GroupedTotal | django_exo_1/management/commands/migrate_clients.py:46 | the groups hold as many invoices as lack a client |
| MigrateClients.GroupedCover | django_exo_1/management/commands/migrate_clients.py:38-46 | every client-less invoice's name has a group |
| MigrateClients.GroupEmailIsFirst | django_exo_1/management/commands/migrate_clients.py:39-43 | a group's e-mail is that of the first invoice seen with its name |
| MigrateClients.GroupNameOccurs | django_exo_1/management/commands/migrate_clients.py:39-41 | every group is named after some grouped invoice |
| MigrateClients.RunThenNothingLeft | django_exo_1/management/commands/migrate_clients.py:25-29 | after a real run, running again, dry or not, stops at once |
| MigrateClients.DryRunForecast | django_exo_1/management/commands/migrate_clients.py:106-113 | the simulation announces exactly the real invoice count and never fewer clients than are really created |
| MigrateClients.DryRunExactForNewNames | django_exo_1/management/commands/migrate_clients.py:106-113 | when no existing client bears a migrated name, the simulated and real client counts agree |
| MigrateClients.ApplyCreatesAll | django_exo_1/management/commands/migrate_clients.py:83-97 | groups with distinct names unknown to the client store each create their client |

## Left out

- The ORM, the database, transactions, query optimisation (`select_related`, `prefetch_related`) and pagination: stores are sequences, and a query set is an order-preserving selection.
- Rendering, flash messages, templates, URL reversal and the admin: a view returns the changed store and a message kind or response kind.
- Python's Unicode `lower()` and `isdigit()`: lower-casing and digit tests cover ASCII only, so accented capitals such as "É" are not folded.
- The `DecimalField` limits (10 digits, 2 places) and storage rounding: amounts are exact reals.
- Parsing of raw form input (dates, decimals, ids): the form input arrives already typed, with "absent" for a missing value. Text fields (number, status, description, notes) arrive as the raw text.
- The `max_length` of the status column (20): every accepted status is one of the four choices, all shorter.
- The default ordering of invoice lists (`-date_emission`, `-numero`): the invoice list keeps store order.
- Time zones: "today" and the log day are plain day numbers given as parameters.
- Queries.EcheanceProche: the horizon `jours` is always passed explicitly; the source's default of 7 days is not modelled as a default argument.
- The HTTP response object: the middleware passes it through untouched, and the model carries only its status code.
- Django's `EmailField` validator, the phone and SIRET fields, and `ClientForm` and `CategorieFactureForm`, which only declare widgets.
- Logging, the session object and exceptions raised by the database: a failed log write is a boolean parameter, and a failed URL resolution is an absent route.
- Concurrency: the middleware's lookup by number and `get_or_create` races are not modelled.
- The `MultipleObjectsReturned` case of `get_or_create` in the migration: the first client found with the same name and e-mail is reused.
- In the migration, `facture.save()` also recomputes the total; legacy rows carry no amounts in this model, so only the client link changes.
- `create_test_data` (seed data): it also uses a type "professionnel" that is outside the four client types.
- `dashboard_statistics`, the log list view and the detail, update and delete views: they only render or delegate to the modelled operations.
- Views.BulkAction: the branch that warns "no invoice could be updated" is unreachable, because the selection is known to be non-empty at that point, and the contract states that this message never occurs.
- Views.ClientList: the contract bounds the multiplicities by the store's (`multiset(r) <= multiset(clients)`) and states membership exactly; it does not fix the order among clients with equal names, which the database leaves open too.
- MigrateClients.Run: the real run's creation count is bounded by the number of groups; it is exact only when no existing client already has a migrated name (DryRunExactForNewNames). With such a client the dry run over-counts the clients that would be created.
- MigrateClients.Run: the client-less invoices arrive as a sequence in the query set's order, and "first invoice with a name" means first in that sequence. The command's query set follows the invoice default ordering (`-date_emission`, `-numero`, django_exo_1/models.py:375), so in the source the e-mail and address come from the most recently issued invoice with that name. The model does not sort the sequence itself.
- Middleware.GetClientIp: the address text is stored as read. `GenericIPAddressField` (django_exo_1/models.py:478-483) stores an empty value as NULL and normalises IPv6 addresses, and neither is modelled.
- Views.ClientList: `order_by('nom')` follows the database collation, while `LexLe` compares code points, so accented or mixed-case names may sort differently.
- MigrateClients.ClassifyType: the private-person keywords "mr", "mme" and "m." match as substrings, as in the command, so a name such as "Primrose SARL" counts as a private person.

## Findings

| source | as written | input that shows it | evidently intended | confidence | as-written member | corrected member |
|---|---|---|---|---|---|---|
| django_exo_1/middleware.py:133-136 | the middleware looks the new invoice up by the posted `numero` exactly as typed, while the form strips surrounding white space before saving it | a valid creation whose `numero` is " FAC-1" saves "FAC-1", and the lookup for " FAC-1" finds nothing | every successful creation is logged once, against the invoice just created (lookup by the stripped number) | not executed | Middleware.PaddedNumeroNotLogged | Middleware.CreationLoggedOnce |
