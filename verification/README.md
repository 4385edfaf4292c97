# Ceen login teardown, XSRF gate, command parameters and CRUD rules in Dafny

This project models four pieces of the Ceen web server and proves properties about them.

- **Logout** (`LogoutHandler.HandleAsync`). A request carries up to three credentials: the XSRF token, the session cookie and the long-term ("remember me") cookie. Each credential drives one teardown branch over the short-term and long-term session stores. The handler then sets the configured status and, when a redirect target is set, the `Location` header.
- **XSRF gate** (`XSRFTokenRequiredHandler.HandleAsync`). The gate's verdict admits a request only when its XSRF header names a stored, unexpired session. That session is then refreshed and, if the refresh completes, the pipeline continues. Any other request is handed to `SetXSRFError`, whose return value the handler passes on.
- **Command parameters** (`DbSupport`). A command's positional parameter list is resized to an exact length, sized by counting `?` in the command text, and filled with values by position.
- **CRUD decision rules** (`CRUDHelper`). These are the access-type check, the Bad Request answers given before any database work, the mapping from exceptions to a status, the `ListResponse` constructor, and how each action turns the database's answer into a reply.

The stores are sequences of records:

- a lookup returns the first matching record;
- a drop removes every copy of a record;
- an add appends.

Logout returns the trace of store calls it made, and the model proves that its final stores are exactly the starting stores with that trace replayed. The XSRF gate reports only its own lookup; the stores after it are whatever the error or refresh collaborator leaves.

Code the model cannot see is passed in as function parameters, and the model assumes nothing about it beyond the inputs it is given and the shape of its answer. `SetXSRFError` and `RefreshSessionTokensAsync` receive the request and the whole context. Each of them either returns, possibly changing the stores and the response, or throws. This covers:

- long-term cookie parsing;
- the expiry half of `Utility.IsNullOrExpired`;
- `SetXSRFError`;
- `RefreshSessionTokensAsync`;
- the database work of each CRUD action.

Modules:

- `Text`: nullable values, `string.IsNullOrWhiteSpace`, character counting.
- `Http`: request headers and cookies, and the response with its list of added cookies.
- `LoginCommon`: login settings, records, the store model, the call trace and its replay, and the unique-key invariant.
- `LogoutHandler`, `XsrfTokenRequired`, `DbSupport`, `CrudHelper`: one module per source file.

Logging out twice with the same cookies does not give the same response. The session cookie is cleared only when a session was dropped, so a request carrying only the session cookie clears it on the first logout, and a second logout with the same request leaves the cookie alone. `LogoutHandler.LogoutResponseNotIdempotent` exhibits this.

## Model

| member | source | states |
|---|---|---|
| Text.CountIsMultiplicity | Ceen.Database/DbSupport.cs:24 | Counting `?` with `Count(x => x == '?')` gives the character's multiplicity in the text. |
| Http.AddCookie | Ceen.Common/Interfaces.cs:237 | Adding a response cookie appends it to the end of the list and leaves status, message, headers and the earlier cookies unchanged. |
| LoginCommon.SessionByXsrf | Ceen.Security/Login/LogoutHandler.cs:39 | The XSRF lookup returns a stored session carrying that token, and returns null exactly when no stored session carries it. |
| LoginCommon.SessionByCookie | Ceen.Security/Login/LogoutHandler.cs:61 | The cookie lookup returns a stored session carrying that cookie, and returns null exactly when none does. |
| LoginCommon.WithoutSession | Ceen.Security/Login/LogoutHandler.cs:43 | Dropping a session removes that record and keeps every other record; the long-term store is untouched. |
| LoginCommon.WithSession | Ceen.Security/Login/LogoutHandler.cs:48-53 | Adding a session keeps every record and adds the new one; the long-term store is untouched. |
| LoginCommon.LongTermBySeries | Ceen.Security/Login/LogoutHandler.cs:71-76 | The series lookup finds only a record of a configured long-term store with that series, and finds nothing exactly when no store is configured or no record has the series. |
| LoginCommon.WithoutLongTerm | Ceen.Security/Login/LogoutHandler.cs:78 | Dropping a persistent login removes it from the long-term store, keeps the others, and leaves the short-term store alone. |
| LoginCommon.ReplayAppend | Ceen.Security/Login/LogoutHandler.cs:37-83 | Replaying two call traces one after the other is replaying their concatenation, so the three branches' traces compose. |
| LogoutHandler.XsrfCredential | Ceen.Security/Login/LogoutHandler.cs:32 | The XSRF credential is the header whenever the header is present, even if blank, and the XSRF cookie otherwise. |
| LogoutHandler.TeardownXsrf | Ceen.Security/Login/LogoutHandler.cs:37-57 | The XSRF branch drops a session exactly when the credential is non-blank and some session holds it. When it does, its calls are lookup, drop, then add of an anonymous cookie-less record on the same token expiring `ShortTermExpirationSeconds` after now. A blank credential makes no call. |
| LogoutHandler.TeardownSessionCookie | Ceen.Security/Login/LogoutHandler.cs:59-67 | A blank session cookie makes no call. A non-blank one is looked up and its session, if any, dropped. The cookie is cleared exactly when it is non-blank and a session went by this branch or by the XSRF branch. |
| LogoutHandler.TeardownLongTerm | Ceen.Security/Login/LogoutHandler.cs:69-83 | A non-blank long-term cookie is always cleared. The store is consulted only when it is configured and the cookie parses as valid. The found login is dropped; short-term sessions are untouched. |
| LogoutHandler.HandleLogout | Ceen.Security/Login/LogoutHandler.cs:15-91 | Logout always returns true with the configured status and message. It sets `Location` exactly when the redirect target is non-blank. The added cookies are exactly the session-cookie clear (when a session went and the cookie was presented) followed by the long-term clear (when that cookie was presented). |
| LogoutHandler.LogoutAddsOnlyClearingCookies | Ceen.Security/Login/LogoutHandler.cs:59-83 | Logout keeps the response's earlier cookies and adds at most two. Each added cookie is empty, on the cookie path, expired at 1970-01-01 with max-age 0, and names the session or long-term cookie, session first. |
| LogoutHandler.LogoutReplacesXsrfSession | Ceen.Security/Login/LogoutHandler.cs:37-53 | When the XSRF credential finds a session, the first three calls look it up, drop that session, and then add the anonymous replacement: drop before add. |
| LogoutHandler.LogoutLooksUpXsrfCredential | Ceen.Security/Login/LogoutHandler.cs:32-39 | The token looked up is the header value when the header is present and the XSRF cookie otherwise, and only when it is non-blank. |
| LogoutHandler.LogoutXsrfLookups | Ceen.Security/Login/LogoutHandler.cs:37-39 | Logout makes an XSRF lookup for a token exactly when the credential is non-blank and the token is that credential. |
| LogoutHandler.LogoutBlankXsrfSkipsXsrfBranch | Ceen.Security/Login/LogoutHandler.cs:37 | With a blank XSRF credential there is no XSRF lookup and no add. The only session dropped is the one the session cookie finds. |
| LogoutHandler.LongTermBranchCalls | Ceen.Security/Login/LogoutHandler.cs:69-80 | The long-term branch looks up the parsed series exactly when it consults the store, and drops exactly the login that lookup returns. |
| LogoutHandler.LogoutLongTermCalls | Ceen.Security/Login/LogoutHandler.cs:69-80 | Over the whole logout: a series lookup happens exactly for a non-blank, valid long-term cookie with storage configured, and a login is dropped exactly when that lookup finds one. |
| LogoutHandler.LogoutWithoutCredentials | Ceen.Security/Login/LogoutHandler.cs:37-88 | With no credential, logout calls no store, changes no store and adds no cookie. |
| LogoutHandler.XsrfBranchFollowsCalls | Ceen.Security/Login/LogoutHandler.cs:37-57 | The XSRF branch's stores are its starting stores with its own calls replayed. |
| LogoutHandler.SessionBranchFollowsCalls | Ceen.Security/Login/LogoutHandler.cs:59-67 | The session-cookie branch's stores are its starting stores with its own calls replayed. |
| LogoutHandler.LongTermBranchFollowsCalls | Ceen.Security/Login/LogoutHandler.cs:69-83 | The long-term branch's stores are its starting stores with its own calls replayed. |
| LogoutHandler.LogoutStoresFollowCalls | Ceen.Security/Login/LogoutHandler.cs:37-83 | The stores after logout are exactly the starting stores with the reported call trace replayed, so no store change goes unreported. |
| LogoutHandler.XsrfBranchKeepsKeysUnique | Ceen.Security/Login/LogoutHandler.cs:39-53 | If tokens and cookies address at most one session before the XSRF branch, they still do afterwards. After a drop, the anonymous replacement is the only session holding the token. |
| LogoutHandler.SessionBranchKeepsKeysUnique | Ceen.Security/Login/LogoutHandler.cs:59-63 | The session-cookie branch keeps keys unique, only removes sessions, and never removes a session that has no cookie. |
| LogoutHandler.LogoutKeepsKeysUnique | Ceen.Security/Login/LogoutHandler.cs:37-83 | Logout preserves the invariant that every XSRF token and session cookie addresses at most one session. |
| LogoutHandler.LogoutLeavesAnonymousXsrfSession | Ceen.Security/Login/LogoutHandler.cs:46-53 | After logging out a session found by its XSRF token, looking that token up yields the anonymous, cookie-less replacement expiring `ShortTermExpirationSeconds` after now. |
| LogoutHandler.LogoutExample | Ceen.Security/Login/LogoutHandler.cs:15-91 | A worked case with the default settings: the stores, the call trace, the single cleared session cookie and the 302 redirect to "/". |
| LogoutHandler.LogoutResponseNotIdempotent | Ceen.Security/Login/LogoutHandler.cs:59-67 | With only a session cookie, the first logout clears that cookie, and a second logout on the resulting stores adds no cookie. |
| XsrfTokenRequired.HandleXsrfRequired | Ceen.Security/Login/XSRFTokenRequiredHandler.cs:18-32 | The gate makes at most one lookup and hands at most one session to the refresh, and a blank header is rejected with no lookup. Its verdict is Proceed exactly when the header's session exists and has not expired. On a rejection there is no refresh, and the outcome is what `SetXSRFError` leaves and returns; if it throws, the exception escapes and nothing is returned. On Proceed the session is refreshed once; if the refresh returns, the context is what it leaves and the handler returns false, and if it throws, the exception escapes. |
| XsrfTokenRequired.ContinuesOnlyAfterRefresh | Ceen.Security/Login/XSRFTokenRequiredHandler.cs:22-31 | The handler returns false, letting the pipeline continue, exactly when a live session's refresh returned, or when a rejected request's `SetXSRFError` itself returned false. A refresh that throws never lets the request through. |
| XsrfTokenRequired.GateReadsOnlyXsrfHeader | Ceen.Security/Login/XSRFTokenRequiredHandler.cs:20 | Two requests with the same XSRF header get the same verdict, the same lookup and the same session refreshed, whatever their cookies (the XSRF cookie included) and other headers. |
| XsrfTokenRequired.GateOutcomeFollowsCollaborators | Ceen.Security/Login/XSRFTokenRequiredHandler.cs:18-32 | When, in addition, `SetXSRFError` and the refresh answer the two requests alike (including whether they throw), the whole outcome is the same: the gate itself reads nothing else from the request. |
| XsrfTokenRequired.GateAdmitsExactlyLiveTokens | Ceen.Security/Login/XSRFTokenRequiredHandler.cs:20-31 | With unique tokens, the gate's verdict is Proceed exactly when the request's non-blank XSRF header is the token of a stored, unexpired session. |
| DbSupport.Resized | Ceen.Database/DbSupport.cs:40-43 | The resized list has exactly the requested length. A list no longer than that is kept as a prefix, followed only by new parameters; a longer one is rebuilt from new parameters. |
| DbSupport.ResizedIdempotent | Ceen.Database/DbSupport.cs:40-43 | Resizing twice to the same length is the same as resizing once. |
| DbSupport.AddParameters | Ceen.Database/DbSupport.cs:33-44 | A null command is rejected with `ArgumentNullException("cmd")` and a negative count with `ArgumentOutOfRangeException("count")`. Otherwise the command is unchanged except for its parameter list, resized to the count. |
| DbSupport.SetParameterValues | Ceen.Database/DbSupport.cs:51-72 | A null command is rejected and a null value list counts as empty. Afterwards there is one parameter per value, parameter i holds value i and keeps its name, and the text and transaction are unchanged. |
| DbSupport.CreateCommand | Ceen.Database/DbSupport.cs:93-101 | A null connection fails with a null reference. Otherwise the new command takes the given text and transaction only when they are non-null, keeps the connection's defaults for the rest, and keeps its parameters. |
| DbSupport.SetupCommand | Ceen.Database/DbSupport.cs:15-26 | The call fails with `ArgumentNullException("commandtext")` exactly when the text is null or white space. A null connection then fails with a null reference. Otherwise the result is the command CreateCommand makes, with its parameters resized as AddParameters does to the number of `?` in the text, so the text is set, the transaction is set only when given, and existing parameters are kept as a prefix. |
| DbSupport.CreateCommandWithParameters | Ceen.Database/DbSupport.cs:110-115 | The call fails with `ArgumentNullException("command")` exactly when the text is null, and white-space text is accepted. A null connection then fails with a null reference. Otherwise the result is the command CreateCommand makes, with its parameters resized to the number of `?` in the text. |
| DbSupport.SetupAgreesWithCreateCommandWithParameters | Ceen.Database/DbSupport.cs:15-115 | SetupCommand and CreateCommandWithParameters give the same result on text that is not white space. On white-space text through a connection, SetupCommand refuses what CreateCommandWithParameters accepts. |
| CrudHelper.ListResponseOf | Ceen.Extras/CRUDHelper.cs:62-67 | `new ListResponse(data)` holds the data, with the total equal to its length, or 0 for null, and offset 0. |
| CrudHelper.WrapExceptionMessage | Ceen.Extras/CRUDHelper.cs:93-108 | Exactly validation and filter-parser errors map to Bad Request. The message is `"<member> - " + message`, or just the message when there is no member, or `"Filter error: " + message`; every other exception maps to null. |
| CrudHelper.WrappedMessageEndsWithOriginal | Ceen.Extras/CRUDHelper.cs:95-105 | Every wrapped message ends with the exception's own message. |
| CrudHelper.Recover | Ceen.Extras/CRUDHelper.cs:274-281 | Through HandleExceptionAsync and the `catch` block of each action, a known exception becomes its wrapped Bad Request reply, and any other exception is rethrown unchanged. |
| CrudHelper.Authorize | Ceen.Extras/CRUDHelper.cs:204-210 | Access is granted exactly when the allowed list contains the access type. Otherwise it is refused with `HttpException(MethodNotAllowed)`, or with the null-argument error when the list is null. |
| CrudHelper.AccessListsContents | Ceen.Extras/CRUDHelper.cs:186-191 | `FullAccess` holds every access type, and `ReadOnlyAccess` holds exactly Get and List. |
| CrudHelper.ReadOnlyAccessNeverWrites | Ceen.Extras/CRUDHelper.cs:186-210 | Under `ReadOnlyAccess`, Patch, Post and Delete are refused with 405 and never reach the database, whatever the request; `FullAccess` refuses nothing. |
| CrudHelper.GetItem | Ceen.Extras/CRUDHelper.cs:291-318 | An unauthorized caller gets the authorization error without database work. Otherwise the reply is the found item as JSON, Not Found for null, or the recovered exception. |
| CrudHelper.Patch | Ceen.Extras/CRUDHelper.cs:330-386 | Authorization comes first, then a null or empty value set gets Bad Request with no database work. The updated item is returned exactly when a row was updated; an update that finds nothing or changes no rows gets Not Found. An exception from the database work is recovered. |
| CrudHelper.Post | Ceen.Extras/CRUDHelper.cs:395-424 | Authorization comes first, then a null item gets Bad Request with no database work. Otherwise the inserted item is echoed, or the exception is recovered. |
| CrudHelper.DeleteItem | Ceen.Extras/CRUDHelper.cs:434-462 | After authorization, the reply is OK exactly when a positive number of rows was deleted and Not Found exactly when none was. An exception from the database work is recovered. |
| CrudHelper.Search | Ceen.Extras/CRUDHelper.cs:470-515 | Authorization comes first, then a null request gets Bad Request with no database work. The listing's offset is the request's offset, and its total and rows are what the database counted and selected. An exception from the database work is recovered. |
| CrudHelper.AuthorizationPrecedesValidation | Ceen.Extras/CRUDHelper.cs:291-485 | For every allowed list, argument and database behaviour, a caller whose list lacks the action's access type gets 405 with no database work, even when its arguments are also bad. This holds for Get, Patch, Post, Delete and Search. |
| CrudHelper.EarlyAnswersIgnoreDatabase | Ceen.Extras/CRUDHelper.cs:291-515 | An action that reports no database work gives the same result whatever the database would have done, so authorization failures and Bad Request answers depend on the arguments alone. |
| CrudHelper.FirstPageIsListResponse | Ceen.Extras/CRUDHelper.cs:62-67 | A granted search at offset 0 whose counted total equals the number of selected rows answers exactly `new ListResponse(rows)`. |

## Left out

- Asynchrony, the HTTP server and sockets are not modelled. Each handler is one sequential pass over a request, and `DateTime.Now` is the `now` parameter (seconds on a clock whose epoch is `UnixEpoch`).
- Header and cookie name matching is exact. The case-insensitivity of Ceen's header collection is not modelled.
- Store internals are not modelled. How a real store indexes, expires or persists records is not visible, so lookups here do not filter expired records. Concurrent requests against the stores are not modelled.
- `LongTermCookie` parsing and its PBKDF2 check are not modelled. The handler receives the parse as a function from the cookie value to validity and series. The parse and the expiry test of `Utility.IsNullOrExpired` are assumed to return normally; whether they can throw is not visible.
- `Utility.IsNullOrExpired`, `SetXSRFError` and `RefreshSessionTokensAsync` are function parameters. The latter two see the request and the context, and either return or throw. Nothing else is assumed; in particular, nothing is claimed about how the refresh changes expiry.
- HandleLogout: assumes every store call succeeds. An exception from an awaited store call (LogoutHandler.cs:39, 43, 48, 61, 63, 76, 78) would leave `HandleAsync` early, skipping the later branches, the status, `Location` and `return true`. The model does not have that path because the store implementations are not part of it, so `handled` and the status hold only for stores that do not throw.
- HandleXsrfRequired: assumes the session lookup at XSRFTokenRequiredHandler.cs:25 succeeds; an exception thrown there would propagate out of the gate, and that path is not modelled, for the same reason. When `SetXSRFError` (lines 23, 27) or the refresh (line 29) throws, the model leaves the context as it was before the call: whatever the collaborator changed before throwing is not modelled.
- The XSRF cookie clearing at LogoutHandler.cs:56 is commented out in the source, so the model never clears the XSRF cookie.
- `GetAsString`, `ExecuteReader`, `ExecuteNonQuery`, `ExecuteScalar` and the rest of DbSupport after line 115 are not modelled. They forward to the database provider.
- A parameter's provider-side attributes other than name and value are not modelled.
- CRUD query building, transactions, JSON serialisation and `PopulateObject`, the `OnQueryAsync`/`BeforeInsertAsync`/`BeforeUpdateAsync`/`PostProcess` hooks, and `Connection` are not modelled. Each action's database work is one oracle value: the exception it raised, or what it returned.
- `ListResponse(data, offset, total)` needs no function: it is the `ListResponse` datatype constructor itself. The parameterless constructor is `ListResponse(0, 0, None)`.
- Integer widths are not modelled: `long` offsets and totals, the `int` row counts and the `int` expiration seconds are unbounded integers here.
- Ceen.Httpd.Cli, Ceen.Common's interface declarations and DialectSupport.cs hold no behaviour of these handlers. They are not part of this model.
