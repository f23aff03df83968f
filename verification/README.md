# worldgate-track-trace: shipment aggregation and user-service rules in Dafny

This project models the core of the worldgate track-and-trace backend.

The main part is the shipment aggregation service (`viewAllShipments.py`). Its two endpoints, `getExportContainerNum` and `getImportContainerNum`, run the same pipeline:

1. One reference lookup returns the caller's base records (`data.output`).
2. Then, for each record in order, one container lookup is made, keyed by that record's own reference number (`export_ref_n` / `import_ref_n`).
3. A non-empty `data.container_nums` list is merged into its record as `container_numbers`, together with a `type` tag (`"Export"` / `"Import"`).

A missing key anywhere raises in the source and aborts the whole request. The model has one function, `Shipments.Aggregate`, parameterised by a `Category`. The two downstream services are oracle functions from a request to the list the aggregator reads out of the reply; `None` stands for a missing key. Each run returns its outcome and the log of downstream calls, so the lemmas can talk about which lookups were issued. `Shipments.AggregateLoop` is the source's loop written as a method and proved equal to the recursive definition.

The second part is the decision logic of the user service (`user.py`), separated from Flask, the database and the JWT library:

- the `is_email` regular expression, as an executable check proved equivalent to a split of the string;
- `User.json`;
- `validate_username` and the sign-up flow, with the table as a sequence of rows and the commit as an oracle;
- the sign-in outcome, with SHA-512 as an uninterpreted `hash` of `password + salt`;
- the after-request token refresh, with time as whole seconds;
- the double-submit CSRF comparison.

Modules: `Wrappers` (Option/Result), `JsonValue` (JSON values and records), `Strings` (index search, `str.split`), `Shipments` and `ShipmentLemmas`, `Email`, `Http` (responses and access tokens), `Users`, `Session`.

Facts about the program that shape the model:

- A record whose container list is empty is returned unchanged, with no `type` tag (viewAllShipments.py:56).
- A missing `data.container_nums` aborts the whole request, not just that record (viewAllShipments.py:54).
- The category is recorded under the key `type` (viewAllShipments.py:59, 95).
- The container numbers are attached as the list's elements in order. The source converts the list to a tuple (viewAllShipments.py:57), which serialises back to the same JSON array.
- The documented sample response (viewAllShipments.py:117-219) shows no `type` key, although line 59 adds one to every enriched record.

## Model

| member | source | states |
|---|---|---|
| `Shipments.Merge` | services/backend/core/viewAllShipments.py:56-59 | an empty container list leaves the record equal to the base record; a non-empty one adds exactly `container_numbers` (the list, in order) and `type` (the category's tag); every other field keeps its value |
| `Shipments.EnrichFrom` | services/backend/core/viewAllShipments.py:44-59 | the per-record stage from position i: on success one record and one container lookup per remaining base record; on failure the fault is a per-record one, names a position in range, and at most the lookups up to that position were issued |
| `Shipments.Aggregate` | services/backend/core/viewAllShipments.py:29-61 | no call at all iff the inbound body lacks `wguser_id`; otherwise the first call is the reference lookup for that user; on success the output has as many records as `data.output` and the log holds one more call than that |
| `Shipments.AggregateLoop` | services/backend/core/viewAllShipments.py:29-61 | both stages as a method: the `wguser_id` check, the reference lookup, then a loop over the base records that ends early on the first missing key; it computes the same outcome and the same call log as the recursive definition. The source updates each record in place (lines 58-59), while the method appends each merged record to a new list; the two agree because `json.loads` (line 41) gives fresh dicts that nothing else refers to |
| `ShipmentLemmas.EnrichFromSucceedsIff` | services/backend/core/viewAllShipments.py:44-56 | the per-record stage succeeds iff every remaining base record is an object with a reference number whose container reply has `container_nums` |
| `ShipmentLemmas.EnrichFromOutput` | services/backend/core/viewAllShipments.py:44-61 | on success there is one output per base record, at the same position, each equal to that record merged with its own answer |
| `ShipmentLemmas.EnrichFromCalls` | services/backend/core/viewAllShipments.py:44-51 | on success exactly one container lookup is issued per base record, in order, keyed by that record's reference number |
| `ShipmentLemmas.EnrichFromStops` | services/backend/core/viewAllShipments.py:44-54 | on failure the fault names the first base record that could not be enriched, and why: not an object, no reference number, or no `container_nums` |
| `ShipmentLemmas.EnrichFromStopsCalls` | services/backend/core/viewAllShipments.py:44-54 | on failure the calls issued are the lookups of the records before the faulty one, plus the faulty one's lookup when it had a reference number |
| `ShipmentLemmas.LookupsOfPrepend` | services/backend/core/viewAllShipments.py:44-51 | a lookup keyed by record i followed by the lookups of records i+1.. is the lookup sequence of records i.. |
| `ShipmentLemmas.AggregateSucceedsIff` | services/backend/core/viewAllShipments.py:32-54 | an endpoint returns a list iff the inbound body has `wguser_id`, the reference reply has `data.output`, and every record is answered; any missing key fails the whole call with no partial list |
| `ShipmentLemmas.AggregateKeepsLengthAndOrder` | services/backend/core/viewAllShipments.py:42-61 | a successful call returns exactly as many records as the reference lookup, in its order, none dropped, duplicated or moved |
| `ShipmentLemmas.OneLookupPerRecord` | services/backend/core/viewAllShipments.py:39-51 | a successful call issues the reference lookup first and then exactly one container lookup per base record, keyed by its own reference number |
| `ShipmentLemmas.ReferenceLookupIssuedOnce` | services/backend/core/viewAllShipments.py:33-39 | the reference lookup is issued at most once, first, to the category's URL, with a body holding only the caller's `wguser_id`; every later call goes to the container URL |
| `ShipmentLemmas.EmptyReferenceList` | services/backend/core/viewAllShipments.py:42-44 | an empty reference list gives an empty output and no container lookups |
| `ShipmentLemmas.EnrichmentOnlyAdds` | services/backend/core/viewAllShipments.py:56-59 | every output record keeps its base record's reference number and all other fields except `container_numbers`/`type`; an empty answer leaves it unchanged; a non-empty answer adds exactly those two keys with the answer's numbers in order and the category tag |
| `ShipmentLemmas.VariantsDifferOnlyInTag` | services/backend/core/viewAllShipments.py:56-95 | the export and import merges give the same keys and values except `type`, which is `"Export"` for one and `"Import"` for the other |
| `ShipmentLemmas.EndpointsTagByCategory` | services/backend/core/viewAllShipments.py:92-95 | every record an endpoint enriches carries its endpoint's tag, `"Export"` or `"Import"` |
| `ShipmentLemmas.SampleExportRun` | services/backend/core/viewAllShipments.py:109-141 | for the documented sample request, restricted to the first two documented records (17612 and 17625) with the container service answering their documented lists, each output record equals the documented one plus `type: "Export"`, a key the documented response lacks |
| `JsonValue.StringsOfStrArray` | services/backend/core/viewAllShipments.py:57-58 | attaching the list as a JSON array and reading it back gives the same strings in the same order |
| `Email.IsEmail` | services/backend/core/user.py:81-85 | the validator returns true iff some placement of `@` and `\.` makes the full pattern match, anchors included |
| `Email.AcceptedHasOneAt` | services/backend/core/user.py:82-83 | an accepted string has exactly one `@`, preceded by a non-empty run over `[A-Za-z0-9._%+-]` |
| `Email.AcceptedDomainAndSuffix` | services/backend/core/user.py:82-83 | after the `@` come a non-empty run over `[A-Za-z0-9.-]`, the string's last `.`, and at least two characters over `[A-Z\|a-z]` running to the end |
| `Email.AcceptedBoundaries` | services/backend/core/user.py:82 | because of the `\b` anchors an accepted string starts with a letter, digit or `_` and ends with a letter; a leading `.` or `-` or a trailing `\|` is rejected |
| `Email.AcceptsOrdinaryAddress` | services/backend/core/user.py:82-83 | `john.doe@example.com` is accepted |
| `Email.AcceptsPipeInsideSuffix` | services/backend/core/user.py:82 | `\|` is literal inside the suffix class, so `a_b@mail.c\|m` is accepted |
| `Email.RejectsSecondAt` | services/backend/core/user.py:82-83 | a string with two `@` is rejected |
| `Users.ToJson` | services/backend/core/user.py:57-66 | the JSON form has exactly the seven column names as keys |
| `Users.JsonRoundTrip` | services/backend/core/user.py:57-66 | each column appears under its own name, so with the salt given back the JSON form reads back to the same user |
| `Users.JsonHidesSalt` | services/backend/core/user.py:62-63 | `password_salt` carries the hash, so users differing only in their salt serialise identically and the salt is never revealed |
| `Users.Find` | services/backend/core/user.py:155-157 | `.first()` returns None iff no row matches, and otherwise the earliest matching row |
| `Users.ValidateUsername` | services/backend/core/user.py:69-76 | an error response (envelope code 401, HTTP status 404) exactly when some row already has the username |
| `Users.SignUp` | services/backend/core/user.py:91-134 | the response is 201, 404 or 500; the table changes only with 201, and then by exactly the attempted row appended to a readable body; an insert is attempted only for a readable body whose username no row has |
| `Users.SignUpRejectsTakenUsername` | services/backend/core/user.py:106-107 | once every field is present and the username is a string, a taken username is answered with the 404 envelope before any insert, leaving the table as it was, whatever `email` and `password` hold; for a fully readable body an insert is attempted iff the username is free |
| `Users.SignUpAddsOnlyCommittedRow` | services/backend/core/user.py:109-134 | the table changes iff the response is 201; it then gains exactly the attempted row, which stores the salt and `hash(password + salt)`, and the commit succeeded |
| `Users.SignInQuery` | services/backend/core/user.py:148-157 | the lookup is by email iff the regular expression fully matches the given name, otherwise by username, and it always carries that name |
| `Users.SignIn` | services/backend/core/user.py:136-192 | the response is 200, 401, 404 or 500; a 500 is the login-failed envelope and never happens for a body with a string `username` and `password`; a 200 means the body is readable and the row the query found stores `hash(password + salt)` |
| `Users.SignInLookup` | services/backend/core/user.py:143-157 | sign-in queries the table iff both fields are present and the name is a string, and the query is by email iff the name is an email address |
| `Users.SignInOutcome` | services/backend/core/user.py:159-185 | for a readable body: no user gives 404; a hash mismatch gives 401; a match gives 200 with an access token for the row's username |
| `Users.OnlySuccessfulSignInSetsToken` | services/backend/core/user.py:170-185 | for any body, an access token is set iff the response is 200 |
| `Users.SignUpThenSignIn` | services/backend/core/user.py:109-168 | after a committed sign-up, signing in with the same password under a username not shaped like an email gives 200 and a token for that username |
| `Users.EmailShapedUsernameNotFound` | services/backend/core/user.py:99-157 | after a committed sign-up whose username is shaped like an email and differs from the email field, with no row holding that address as its email, signing in with that username gives 404 |
| `Users.EmailShapedUsernameExample` | services/backend/core/user.py:99-157 | username `a@b.co` with email `x@y.co` signs up into an empty table with 201, and signing in with it then gives 404 |
| `Users.PlainNameWithoutRowNotFound` | services/backend/core/user.py:148-163 | a name not shaped like an email that no row has as its username gives 404 on sign-in, whatever emails the rows hold |
| `Users.NoAtIsNotEmail` | services/backend/core/user.py:82-83 | a string without `@` never matches the email pattern |
| `Users.EmailShapedUsernameLockedOut` | services/backend/core/user.py:99-163 | username `a@b.co` with email `foo` signs up into an empty table with 201, and then signing in as `a@b.co` and as `foo` both give 404 |
| `Users.GuardedSignUp` | services/backend/core/user.py:99-107 | the corrected sign-up refuses exactly the string usernames the regular expression matches; on every other body its result equals sign-up's; a 201 implies a readable body whose username is not email-shaped |
| `Users.GuardedSignUpThenSignIn` | services/backend/core/user.py:109-185 | under the corrected sign-up, every committed user can sign in with the same username and password, getting 200 and a token for that username |
| `Session.RefreshExpiringJwt` | services/backend/core/user.py:202-213 | the hook never changes a response's status or body |
| `Session.RefreshReissuesIff` | services/backend/core/user.py:204-213 | a token for the same identity is set iff a JWT with an expiry is present and `now + 15 min > exp`; otherwise the response is returned unchanged |
| `Session.RefreshLeavesFifteenMinutes` | services/backend/core/user.py:204-209 | after the hook, a client with a JWT either holds a fresh half-hour token or its old token still has at least 15 minutes left |
| `Session.HeaderToken` | services/backend/core/user.py:235 | the last space-separated piece of the header is exactly the text after its last space, and contains no space |
| `Session.VerifyJwtCsrfValidity` | services/backend/core/user.py:230-244 | the check passes iff there is a JWT with a `csrf` claim, a header, and the text after the header's last space equals the claim; on success it returns code 200 with the identity as `data`; a missing JWT, a missing `csrf` claim and a missing header each give their own failure, checked in that order |
| `Session.CsrfIgnoresHeaderPrefix` | services/backend/core/user.py:235-237 | whatever precedes the last space is ignored: `prefix + " " + claim` passes |
| `Session.CsrfClaimWithSpaceNeverMatches` | services/backend/core/user.py:235-237 | a claim containing a space never matches any header |
| `Strings.Split` | services/backend/core/user.py:235 | `str.split(sep)` returns at least one piece, and no piece contains the separator |
| `Strings.LastPieceIsAfterLast` | services/backend/core/user.py:235 | the last piece of `split(' ')` is exactly the text after the last space |
| `Strings.JoinSplit` | services/backend/core/user.py:235 | joining the pieces of `split(sep)` with `sep` gives back the original string |

## Left out

- HTTP transport (`invoke_http`), Flask routing, CORS, and the `json.dumps`/`json.loads` pairs. The pairs are identity round trips; the downstream services are oracle functions.
- Replies whose `data.container_nums` is present but not a list of strings (null, a string, a number). The downstream contract returns a list of strings, so the container oracle is typed that way. A reply with no `data` is treated like one with no `data.output` or `data.container_nums`.
- Shipments.Aggregate: the inbound body is a JSON object (`body: Record`). In the source, a body that is null, a list or a string makes `data['wguser_id']` raise TypeError (viewAllShipments.py:32-33), ending in Flask's error page, just like a missing key.
- Replies whose `data.output` is present but not a list. The reference oracle returns a list of JSON values. In the source, null or a number makes line 44 raise. An empty string or an empty object is returned as it is. A non-empty string or object is iterated, and line 45 then raises on its first element.
- Timeouts, retries, parallel fan-out, per-record degradation and a combined two-category view. The source has none of these: it is sequential and aborts on a missing key.
- SQLAlchemy and Oracle persistence. The table is a sequence of rows, and `.first()` is the first match in sequence order. The table lookups (user.py:70, 155, 157) cannot fail in the model; only the commit can, and its outcome is an oracle. So a sign-in body with a string `username` and `password` never reaches the 500 handler in the model.
- SHA-512, `uuid4`, `shortuuid` and `create_access_token`. The hash is an uninterpreted function; salts, ids and the double-submit value are parameters.
- UTF-8 encoding failures.
- The signing, cookie layout and CSRF check that flask_jwt_extended performs on its own inside `jwt_required`.
- `sign_out` and `health_check`, which return fixed replies. `test_decode_jwt` is also left out: it calls the CSRF check, returns its `data`, and turns an AssertionError (a mismatch) into a 401 envelope (user.py:215-225).
- The `data: str(err)` field of the 500 envelopes.
- Users.SignUpThenSignIn: it requires a username not shaped like an email address. Without that, the program as written does not let the user sign in; see Findings.
- Users.SignUp: a `username` that is present but not a string is treated as an uncaught error. The source would pass it to the table lookup at user.py:70, whose behaviour on such values is not modelled.
- Users.SignUp: a non-string `email` with a free username is also treated as an uncaught error. The source would instead build the row and reach the commit inside its try (user.py:114-118). The row type holds the email as a string, so that commit is not modelled. With a taken username the email is never looked at, and the model agrees with the source there.
- Session.RefreshExpiringJwt: time is whole seconds, so the fractional part of `datetime.timestamp` is not modelled. A non-integer `exp` claim is not represented.
- Email.IsWordChar: Python's `\b` uses Unicode word characters. Only ASCII ones are modelled, which is enough because every character a match can contain is ASCII.
- The frontend files and `backend/scrapers/import.py`: UI, network client, and a thin database-query wrapper.

## Findings

| source | as written | input that shows it | evidently intended | confidence | as-written member | corrected member |
|---|---|---|---|---|---|---|
| services/backend/core/user.py:99-157 | sign-up accepts any free username, but sign-in looks up a name the email regular expression matches by email only; such a user can still sign in with their stored email only when that email itself matches the regular expression and no earlier row has it; with email `foo` they cannot sign in under either name | sign up username `a@b.co`, email `x@y.co` into an empty table (201), then sign in as `a@b.co` with the same password (404) | every user who signs up can sign in with their username; here, sign-up refuses email-shaped usernames (answering 400, a reply the source does not have) | not executed; medium that this was unintended | `Users.EmailShapedUsernameNotFound`, `Users.EmailShapedUsernameExample`, `Users.EmailShapedUsernameLockedOut` | `Users.GuardedSignUp`, `Users.GuardedSignUpThenSignIn` |
