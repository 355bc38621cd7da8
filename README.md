# Chat-site data access, admin sessions and analytics, modelled in Dafny

This project models the server-side core of a Next.js chat website. That core has four layers:

- **A Supabase-style query builder and its SQL compiler.** `QueryBuilder` collects a query descriptor. `buildWhereClause` and `executeServerQuery` turn that descriptor into MySQL text and the values bound to its `?` placeholders.
- **The `/api/db` gateway.** It decides which descriptors from the browser may reach the compiler.
- **The admin session.** Credentials are checked against a salted scrypt hash or a plaintext password. Sessions are `base64url(JSON payload "." hex HMAC-SHA256)` tokens. Base64url follows section 5 of RFC 4648 and HMAC follows RFC 2104. The login route and the middleware's per-IP rate limiter and admin-page gate use them.
- **The analytics pipeline:**
  - the client-side event queue (`AnalyticsTracker`);
  - upload validation;
  - batch ingestion of events into intended database writes;
  - the integer aggregations of the analytics dashboard (top lists, hourly buckets, the journey funnel and the detailed view).

## Modules

| module | what it models |
|---|---|
| `Wrappers` | `Option` and `Result` (with a thrown error message) |
| `Text` | JavaScript string helpers: `split`, `join`, `trim`, `includes`, `padStart` and number printing |
| `Query` | the descriptor, its actions, filters, records and results |
| `Compiler` | `buildWhereClause` (a loop-based method proved against a function) and `executeServerQuery` |
| `Builder` | the `QueryBuilder` class, which updates its `state` in place, plus the `execute` dispatch |
| `Gateway` | `POST /api/db` |
| `Encoding` | UTF-8 (`Buffer.from` / `toString('utf-8')`), lower-case hex and base64url |
| `SessionPayload` | `JSON.stringify({email, exp})` and the matching `JSON.parse` |
| `AdminAuth` | everything in `src/lib/admin-auth.ts` |
| `Login` | `POST /api/admin/login` |
| `Middleware` | the rate-limiter class, `getClientIp`, the admin gate and the order of these checks |
| `Upload` | `POST` / `DELETE /api/upload` |
| `Tracker` | the `AnalyticsTracker` class and its queue, `trackMessage`, and the user-agent classifiers |
| `Batch` | `POST /api/analytics/batch`, `processEvent` and the daily-active-user count |
| `Tally` | the count-by-key fold, `Object.entries` order, and a stable descending sort with `slice` |
| `Analytics` | the `GET /api/analytics` helpers and dispatch, and the detailed view |

How the model treats what it cannot compute:

- The store, the network, the file system and the clock are parameters: the store's reply to the issued statement, whether a write failed, `now`, an `iso` function for `toISOString`, and the hour of each message (local `getHours` for the peak hours, `getUTCHours` for the detailed view).
- The crypto primitives are also parameters, given as a `Crypto` value of two functions. The model fixes only their output lengths: 32 bytes for HMAC and 64 bytes for scrypt.
- The verdicts of the security layers are parameters too. These are `MaximumSecurity` and `APISecurityManager`, whose source is not part of this model.
- Environment variables are a `Config`, where the empty string stands for "unset".

## Model

| member | source | states |
|---|---|---|
| Compiler.OpSymbol | src/lib/supabaseClient.ts:50-58 | each of the six operators maps to its SQL symbol; any other name that is not an `Object.prototype` member reads as `undefined`, and exactly then; no symbol holds `?` |
| Compiler.BuildWhereClause | src/lib/supabaseClient.ts:42-63 | the loop that pushes one term and one value per filter yields exactly the WHERE clause and the values of the filter list |
| Compiler.WhereClauseMeaning | src/lib/supabaseClient.ts:42-63 | no filters: empty clause and no values; otherwise the clause starts "WHERE ", it binds the filter values in filter order, and it holds one `?` per filter (plus any in the column names) |
| Compiler.CleanWhereCount | src/lib/supabaseClient.ts:58-62 | with column names free of `?`, the clause holds exactly one placeholder per filter |
| Compiler.RowMajorLength | src/lib/supabaseClient.ts:113 | `flatMap` over k rows of c columns binds k·c values |
| Compiler.RowMajorLayout | src/lib/supabaseClient.ts:113 | the value at position i·c+j is row i's value for column j |
| Compiler.Cells | src/lib/supabaseClient.ts:113 | one value per column, each the row's value for it (undefined when absent) |
| Compiler.Assignments | src/lib/supabaseClient.ts:126 | the conflict clause sets every column to `VALUES(column)` |
| Compiler.SetTerms | src/lib/supabaseClient.ts:133 | the SET clause has one `` `col` = ? `` per column, in column order |
| Compiler.InsertCount | src/lib/supabaseClient.ts:112-114 | the INSERT text holds k·c placeholders |
| Compiler.UpsertCount | src/lib/supabaseClient.ts:124-127 | the upsert text holds k·c placeholders; the conflict clause adds none |
| Compiler.UpdateCount | src/lib/supabaseClient.ts:133-134 | the UPDATE text holds one placeholder per column plus the WHERE clause's |
| Compiler.DeleteCount | src/lib/supabaseClient.ts:141-142 | the DELETE text holds exactly the WHERE clause's placeholders |
| Compiler.SelectCount | src/lib/supabaseClient.ts:148-155 | the trimmed SELECT text holds exactly the WHERE clause's placeholders |
| Compiler.IncrementCount | src/lib/supabaseClient.ts:71-78 | the session-counter statement holds two placeholders |
| Compiler.MessageCountsCount | src/lib/supabaseClient.ts:81-90 | the daily message report holds one placeholder |
| Compiler.ActiveUsersCount | src/lib/supabaseClient.ts:93-102 | the daily active-user report holds one placeholder |
| Compiler.RpcCount | src/lib/supabaseClient.ts:70-104 | every issued procedure statement binds one value per placeholder |
| Compiler.PlaceholdersMatchParams | src/lib/supabaseClient.ts:65-167 | whenever a statement is issued for a descriptor with integer limit/offset, a filter list, and identifiers that hold no `?`, its placeholders and bound values agree in number |
| Compiler.AbsentDataFails | src/lib/supabaseClient.ts:108-122 | insert/update/upsert without data resolve to the TypeError of `Object.keys(undefined)` as an error result |
| Compiler.EmptyWriteSkipsStore | src/lib/supabaseClient.ts:108-121 | an empty row list issues no statement and returns `data: []` |
| Compiler.InsertCompiles | src/lib/supabaseClient.ts:108-116 | insert: the columns are the first row's keys, k·c values are bound row-major, and the rows are returned |
| Compiler.InsertNamesTable | src/lib/supabaseClient.ts:114 | the text starts with INSERT INTO, the quoted table and the quoted column list |
| Compiler.InsertResult | src/lib/supabaseClient.ts:115-129 | a successful insert or upsert returns all the rows, whatever the store answered |
| Compiler.UpsertExtendsInsert | src/lib/supabaseClient.ts:123-130 | upsert is the insert of the same rows and values plus ON DUPLICATE KEY UPDATE over every column |
| Compiler.UpdateCompiles | src/lib/supabaseClient.ts:132-137 | update binds the first row's values for its keys, then the filter values, and returns the first row |
| Compiler.UpdateIgnoresLaterRows | src/lib/supabaseClient.ts:119-137 | rows after the first do not change the compiled update |
| Compiler.DeleteCompiles | src/lib/supabaseClient.ts:140-145 | delete binds the filter values and returns null; without filters the statement has no WHERE |
| Compiler.SelectCompiles | src/lib/supabaseClient.ts:147-164 | select binds the filter values, and keeps only the first row exactly when `single` or `maybeSingle` is set |
| Compiler.SelectText | src/lib/supabaseClient.ts:148-155 | the text starts with SELECT, the column list ("*" when unset) and the quoted table; the ORDER BY, LIMIT and OFFSET pieces appear when set |
| Compiler.SelectReturnsRows | src/lib/supabaseClient.ts:156-164 | the store's rows are returned; a reply that is not a list gives `[]` |
| Compiler.SelectReturnsFirstRow | src/lib/supabaseClient.ts:158-163 | `single`/`maybeSingle` return the first row, or null when there is none |
| Compiler.RpcCompiles | src/lib/supabaseClient.ts:70-106 | only the three names run; the session counter binds the session id twice and returns null; the reports bind the start date and return the rows; other names give "RPC <name> not implemented" |
| Compiler.UnsupportedAction | src/lib/supabaseClient.ts:167 | an unknown action, or a procedure call without a name, gives "Unsupported query action" |
| Compiler.StoreErrorContained | src/lib/supabaseClient.ts:65-170 | a store error becomes an error result with a non-empty message; only a failure to get a client rejects |
| Compiler.ErrorMessage | src/lib/supabaseClient.ts:169 | the reported message is never empty |
| Builder.Route | src/lib/supabaseClient.ts:288-294 | `execute` sends the merged copy unchanged, to the API route exactly in a browser and in process otherwise |
| Builder.QueryBuilder.constructor | src/lib/supabaseClient.ts:193-199 | a new builder holds a select on the table with no filters |
| Builder.QueryBuilder.Select | src/lib/supabaseClient.ts:201-205 | sets the action to select and the columns, defaulting to "*"; nothing else changes |
| Builder.QueryBuilder.Update | src/lib/supabaseClient.ts:211-215 | records the update action and the data; nothing runs |
| Builder.QueryBuilder.Upsert | src/lib/supabaseClient.ts:217-221 | records the upsert action and the data |
| Builder.QueryBuilder.Delete | src/lib/supabaseClient.ts:223-226 | records the delete action |
| Builder.QueryBuilder.AddFilter | src/lib/supabaseClient.ts:228-256 | appends one filter at the end and keeps the earlier filters in place |
| Builder.QueryBuilder.Order | src/lib/supabaseClient.ts:258-261 | sets the order column, ascending unless told otherwise |
| Builder.QueryBuilder.Limit | src/lib/supabaseClient.ts:263-266 | sets the limit |
| Builder.QueryBuilder.Range | src/lib/supabaseClient.ts:268-272 | offset = from and limit = to − from + 1, so the last row is `to` |
| Builder.QueryBuilder.MaybeSingle | src/lib/supabaseClient.ts:274-277 | sets `maybeSingle` |
| Builder.QueryBuilder.Single | src/lib/supabaseClient.ts:279-282 | sets `single` |
| Builder.QueryBuilder.Insert | src/lib/supabaseClient.ts:207-209 | runs at once on a copy with the insert action and data; the stored descriptor is unchanged |
| Builder.QueryBuilder.Rpc | src/lib/supabaseClient.ts:284-286 | runs at once on a copy with the procedure name and params |
| Builder.QueryBuilder.Then | src/lib/supabaseClient.ts:296-301 | awaiting runs the descriptor as it stands |
| Builder.SupabaseRpc | src/lib/supabaseClient.ts:317 | `supabase.rpc` is a procedure call on the `_rpc` pseudo-table |
| Gateway.TableSetsNest | src/app/api/db/route.ts:5-32 | public reads ⊆ admin-write tables ⊆ allowed tables |
| Gateway.UnknownTableRefused | src/app/api/db/route.ts:38-40 | a table outside the allowed set gives 400 whatever the action or session (this includes `_rpc`) |
| Gateway.RpcRefused | src/app/api/db/route.ts:42-44 | a procedure call on an allowed table gives 400 and is never executed |
| Gateway.SessionRequired | src/app/api/db/route.ts:46-61 | without a valid session, writes to admin tables and reads of non-public tables give 401 |
| Gateway.ForwardExactly | src/app/api/db/route.ts:38-63 | a request reaches the executor if and only if every check passes |
| Gateway.OpenRequests | src/app/api/db/route.ts:17-63 | writes to non-admin allowed tables, reads of the public table and unknown actions reach the executor with no session |
| Gateway.SessionAdmitsAll | src/app/api/db/route.ts:38-63 | a valid session admits every non-procedure request on an allowed table |
| Gateway.ForwardedIgnoresProcedure | src/app/api/db/route.ts:42-63 | what an admitted descriptor compiles to does not depend on any procedure name or params it carries |
| Gateway.ForwardedResponse | src/app/api/db/route.ts:63-70 | an executor error gives 400 with its message, success gives 200 with the data, and a connection failure gives 500 |
| Gateway.MalformedBody | src/app/api/db/route.ts:35-36 | a body that is not JSON gives 500 with a non-empty message |
| Gateway.FailureMessage | src/app/api/db/route.ts:69 | the 500 message is never empty |
| Encoding.EncodeChar | src/lib/admin-auth.ts:46 | a character takes one to four UTF-8 bytes |
| Encoding.DecodeEncodedChar | src/lib/admin-auth.ts:56 | the decoder reads back exactly the encoded character and no more |
| Encoding.MaximalSubparts | src/lib/admin-auth.ts:56 | ill-formed input gives one U+FFFD per maximal subpart: a truncated sequence is one replacement, an impossible second byte costs only the lead byte |
| Encoding.Utf8RoundTrip | src/lib/admin-auth.ts:46-56 | decoding the UTF-8 bytes of a text gives the text back |
| Encoding.Utf8Injective | src/lib/admin-auth.ts:29 | texts with equal bytes are equal |
| Encoding.Utf8Concat | src/lib/admin-auth.ts:46 | the bytes of a concatenation are the concatenated bytes |
| Encoding.Utf8Ascii | src/lib/admin-auth.ts:29 | ASCII text takes one byte per character |
| Encoding.Hex | src/lib/admin-auth.ts:14 | two lower-case hex digits per byte |
| Encoding.HexRoundTrip | src/lib/admin-auth.ts:20-21 | hex text decodes back to its bytes |
| Encoding.HexHasNoDot | src/lib/admin-auth.ts:39 | a hex signature never holds a dot |
| Encoding.Sextets | src/lib/admin-auth.ts:46 | n bytes become ⌈4n/3⌉ six-bit groups (no padding) |
| Encoding.Base64UrlRoundTrip | src/lib/admin-auth.ts:46-56 | base64url decoding of the encoded bytes gives the bytes back |
| Encoding.Base64UrlAlphabet | src/lib/admin-auth.ts:46 | the encoder writes only URL-safe alphabet characters and no '=' |
| SessionPayload.EscapeChar | src/lib/admin-auth.ts:44 | an escaped character holds a dot exactly when it is a dot |
| SessionPayload.EscapeHasDotIff | src/lib/admin-auth.ts:44 | an escaped text holds a dot exactly when the text does |
| SessionPayload.ReadEscaped | src/lib/admin-auth.ts:63 | a string literal written by the serializer reads back as its text, and reading stops after the closing quote |
| SessionPayload.ParseStringify | src/lib/admin-auth.ts:44-63 | `JSON.parse(JSON.stringify({email, exp}))` gives the same claims |
| SessionPayload.ParseIntToString | src/lib/admin-auth.ts:44-63 | a printed integer parses back to itself |
| SessionPayload.StringifyDots | src/lib/admin-auth.ts:44 | the payload holds a dot exactly when the email does |
| SessionPayload.CutPayload | src/lib/admin-auth.ts:44-63 | a payload whose email holds a dot splits, at its first dot, into a head that is not JSON |
| AdminAuth.HashPassword | src/lib/admin-auth.ts:13-15 | 128 hex characters that decode to the scrypt key |
| AdminAuth.TimingSafeEqual | src/lib/admin-auth.ts:25-29 | throws exactly on a length mismatch, otherwise tells equality |
| AdminAuth.HashedPassword | src/lib/admin-auth.ts:17-26 | with a hash and salt configured (these take precedence), a password is accepted exactly when its scrypt key equals the configured one, and nothing throws |
| AdminAuth.PlaintextPassword | src/lib/admin-auth.ts:28-30 | the plaintext branch throws exactly on a byte-length mismatch, and accepts exactly the configured password |
| AdminAuth.NoPasswordConfigured | src/lib/admin-auth.ts:32 | with neither configured, every password is refused |
| AdminAuth.PlaintextMismatchThrows | src/lib/admin-auth.ts:29 | a wrong password of another length makes the check throw |
| AdminAuth.GuardedPassword | src/lib/admin-auth.ts:17-33 | the guarded check never throws, and accepts exactly what the unguarded one accepts |
| AdminAuth.SignSession | src/lib/admin-auth.ts:35-40 | throws exactly without a secret; otherwise 64 hex characters with no dot |
| AdminAuth.IssuedToken | src/lib/admin-auth.ts:42-47 | issuing throws exactly without a secret; a token decodes to payload "." signature(payload) |
| AdminAuth.GenuineParts | src/lib/admin-auth.ts:59-67 | a genuine payload and its signature verify until exp inclusive, and not after |
| AdminAuth.IssueThenVerify | src/lib/admin-auth.ts:42-67 | with the last-dot split, a token verifies with its email until issue time + 8 h inclusive, and not after |
| AdminAuth.LastIndexOf | src/lib/admin-auth.ts:57 | the last occurrence of the character, or none |
| AdminAuth.LastDotBeforeSignature | src/lib/admin-auth.ts:57 | in payload "." signature, with no dot in the signature, the last dot separates the two |
| AdminAuth.IssueThenVerifyPlainEmail | src/lib/admin-auth.ts:42-67 | as written, a token for an email without a dot verifies until its expiry |
| AdminAuth.DottedEmailNeverVerifies | src/lib/admin-auth.ts:57-63 | as written, a token for an email holding a dot never verifies |
| AdminAuth.UnparsedPayloadRejected | src/lib/admin-auth.ts:63-69 | a payload that is not JSON is refused, not thrown |
| AdminAuth.ValidMeansSigned | src/lib/admin-auth.ts:58-67 | a valid answer implies a secret, the exact signature, a parsed payload and `now <= exp` |
| AdminAuth.VerifyNeedsCookieAndSecret | src/lib/admin-auth.ts:50-53 | without a cookie or without a secret, nothing verifies |
| AdminAuth.RequireAdminAuth | src/lib/admin-auth.ts:73-82 | authenticated exactly for a valid session, otherwise 401 "Unauthorized" |
| AdminAuth.LowerAscii | src/lib/admin-auth.ts:88 | lower-casing keeps the length |
| AdminAuth.CredentialsMeaning | src/lib/admin-auth.ts:84-92 | accepted if and only if the email and secret are configured, the email matches ignoring case, and the password check accepts; a throw comes only from the plaintext branch |
| AdminAuth.EmailCaseIgnored | src/lib/admin-auth.ts:88 | any casing of the admin email gives the same verdict |
| AdminAuth.GuardedCredentialsTotal | src/lib/admin-auth.ts:84-92 | with the guarded password check, credentials never throw and accept the same inputs |
| Login.Failed | src/app/api/admin/login/route.ts:27-29 | a throw gives 500 with a non-empty message and no cookie |
| Login.MissingCredentials | src/app/api/admin/login/route.ts:9-11 | a missing email or password gives 400 "Missing credentials" and no cookie |
| Login.RejectedCredentials | src/app/api/admin/login/route.ts:13-15 | rejected credentials give 401 "Invalid credentials" and no cookie |
| Login.AcceptedCredentials | src/app/api/admin/login/route.ts:17-26 | accepted credentials give 200 and an `admin_session` cookie holding the session for the submitted email: httpOnly, lax, path "/", secure only in production, with a max age equal to the token lifetime |
| Login.CookieOnlyOnSuccess | src/app/api/admin/login/route.ts:13-26 | a cookie is set exactly on a 200 |
| Login.WrongLengthPasswordIs500 | src/app/api/admin/login/route.ts:13-29 | as written, a wrong plaintext password of another length gives 500, not 401 |
| Login.GuardedLoginOutcomes | src/app/api/admin/login/route.ts:13-26 | with the guarded check: 200 exactly for accepted credentials, 401 otherwise |
| Login.LoginCookieVerifies | src/app/api/admin/login/route.ts:17-19 | with the verifier corrected to split at the last dot, the issued cookie verifies for the submitted email exactly until it expires |
| Login.LoginCookieAsWritten | src/app/api/admin/login/route.ts:17-26 | with the verifier as written, the issued cookie verifies for the submitted email until it expires when the email holds no dot, and never when it holds one |
| Middleware.EffectiveLimit | src/middleware.ts:35-38 | 100, 50 or 10 for 0, 1 or ≥2 penalties, and never below 10 |
| Middleware.RateLimiter.constructor | src/middleware.ts:6 | the map starts empty |
| Middleware.RateLimiter.IsRateLimited | src/middleware.ts:15-64 | the in-place update of the IP's entry and the answer are those of `Decide` |
| Middleware.FirstRequest | src/middleware.ts:19-22 | an unseen IP is allowed and recorded with count 1 and no penalties |
| Middleware.WindowReset | src/middleware.ts:25-32 | strictly after 60 s the window restarts at count 1, penalties kept, and the request is allowed |
| Middleware.InWindow | src/middleware.ts:34-56 | refused exactly in a burst or at the limit; a refusal adds one penalty and nothing else; an allowed request adds one to the count and nothing else |
| Middleware.AllowedWithinLimit | src/middleware.ts:49-56 | an allowed request never takes the count past the effective limit |
| Middleware.BurstBoundKept | src/middleware.ts:40-56 | within 10 s of a window start no count exceeds 21, and every decision keeps this |
| Middleware.GetClientIp | src/middleware.ts:66-75 | the answer is never empty |
| Middleware.ClientIpChoice | src/middleware.ts:66-75 | the first trimmed x-forwarded-for entry if non-empty, else the trimmed x-real-ip, else "unknown" |
| Middleware.AdminGate | src/middleware.ts:114-120 | a redirect carries the path as returnUrl |
| Middleware.AdminGateExactly | src/middleware.ts:114-120 | redirect exactly for /admin paths outside /admin/login with no cookie; any cookie value passes |
| Middleware.Matched | src/middleware.ts:296-307 | the matcher excludes every path beginning with /api, so the /api/ branch of the middleware never runs, and includes every /admin path; the `.` of favicon.ico and robots.txt matches any character |
| Middleware.Handle | src/middleware.ts:85-120 | an /api/ request is blocked by the security layer, else answered 429 exactly when the limiter keyed by the client IP refuses it, else passed on; only such requests touch the limiter; other paths meet only the admin gate |
| Upload.Allowed | src/app/api/upload/route.ts:52-64 | each kind has its MIME list and its bucket |
| Upload.UploadNeedsAdmin | src/app/api/upload/route.ts:18-31 | the admin check comes before the API security layer and before the form |
| Upload.UploadChecks | src/app/api/upload/route.ts:38-68 | no file gives 400; a kind outside image/audio/video gives 400; over 10 MiB gives 400; a stored file was at most 10 MiB and had an allowed MIME type |
| Upload.StoredUpload | src/app/api/upload/route.ts:55-91 | the bucket of the kind; url "/uploads/<bucket>/<name>"; the name ends in "." and the text after the last dot of the original name |
| Upload.DeleteChecks | src/app/api/upload/route.ts:99-122 | the admin check first; missing parameters give 400; a removal only for a safe, non-empty name |
| Upload.BucketUnchecked | src/app/api/upload/route.ts:112-119 | any non-empty bucket passes, even "..", which climbs out of the uploads directory |
| Tracker.Filled | src/lib/analytics-tracker.ts:230-232 | missing user id, session id and timestamp are filled in; present ones are kept |
| Tracker.AnalyticsTracker.constructor | src/lib/analytics-tracker.ts:31-47 | a tracker with an empty queue and tracking off |
| Tracker.AnalyticsTracker.EnableTracking | src/lib/analytics-tracker.ts:430-433 | turns tracking on and leaves the events alone |
| Tracker.AnalyticsTracker.DisableTracking | src/lib/analytics-tracker.ts:435-437 | turns tracking off and leaves the events alone |
| Tracker.AnalyticsTracker.FlushEvents | src/lib/analytics-tracker.ts:390-400 | the whole queue becomes one snapshot in flight (an empty queue: nothing) |
| Tracker.AnalyticsTracker.TrackEvent | src/lib/analytics-tracker.ts:226-243 | the new state is `Track` of the old one |
| Tracker.AnalyticsTracker.FinishFlush | src/lib/analytics-tracker.ts:396-405 | the settled snapshot is delivered, or put back ahead of the queue |
| Tracker.AnalyticsTracker.TrackMessage | src/lib/analytics-tracker.ts:245-280 | tracks the message, the counter and the journey steps in order |
| Tracker.IgnoredEvents | src/lib/analytics-tracker.ts:227-228 | disabled tracking, or an event without a type or data, changes nothing |
| Tracker.TrackedEvent | src/lib/analytics-tracker.ts:230-242 | the filled event goes at the end; session_start or a 50th event flushes the queue with it |
| Tracker.QueueBelowThreshold | src/lib/analytics-tracker.ts:234-242 | a tracked event never leaves 50 or more queued when fewer were queued |
| Tracker.FailedSendRefills | src/lib/analytics-tracker.ts:234-242 | the bound is not kept across a failed send: the 50th event sends the queue, a failed send puts all 50 back, and the next tracked event sends them at once |
| Tracker.FlushKeepsEvents | src/lib/analytics-tracker.ts:390-400 | flushing loses nothing and keeps the order; the snapshot is the queue |
| Tracker.TrackAddsEvent | src/lib/analytics-tracker.ts:226-243 | a tracked event adds exactly itself, filled in, to what the tracker holds |
| Tracker.ResolveKeepsEvents | src/lib/analytics-tracker.ts:396-405 | settling a send loses and duplicates nothing |
| Tracker.ResolveOrder | src/lib/analytics-tracker.ts:402-405 | a failed snapshot goes back at the front in its order, ahead of later events; a delivered one leaves the queue alone |
| Tracker.MessageContent | src/lib/analytics-tracker.ts:252 | the stored content is the first min(500, length) characters |
| Tracker.MessageSteps | src/lib/analytics-tracker.ts:245-280 | two events, plus message_sent for a user, plus long_session after 15 minutes |
| Tracker.BrowserName | src/lib/analytics-tracker.ts:131-137 | one of the five names |
| Tracker.BrowserOrder | src/lib/analytics-tracker.ts:131-137 | Chrome, Firefox, Safari, Edge checked in that order, else Other |
| Tracker.OsName | src/lib/analytics-tracker.ts:139-147 | one of the six names |
| Tracker.OsOrder | src/lib/analytics-tracker.ts:138-146 | Windows, Mac, Linux, Android, iOS tested in that order, each name exactly when its word is the first one the agent holds, else Other |
| Tracker.DeviceTypeExactly | src/lib/analytics-tracker.ts:75-79 | tablet exactly for iPad, mobile for the other markers, desktop otherwise |
| Tracker.AndroidSeenAsLinux | src/lib/analytics-tracker.ts:143-144 | an Android agent that mentions Linux is reported as Linux |
| Batch.Or | src/app/api/analytics/batch/route.ts:80 | `x \|\| fallback`: the value when truthy, else the fallback |
| Batch.PseudoId | src/app/api/analytics/batch/route.ts:101 | userId, else sessionId, else "anonymous_"+timestamp; never empty |
| Batch.Outcomes | src/app/api/analytics/batch/route.ts:54-56 | one outcome per event, in order |
| Batch.CountsAddUp | src/app/api/analytics/batch/route.ts:58-59 | successful + failed = processed |
| Batch.AllFulfilled | src/app/api/analytics/batch/route.ts:58-59 | all successful exactly when none failed |
| Batch.BatchSizes | src/app/api/analytics/batch/route.ts:45-67 | no events or not an array gives 400; more than 100 gives 400; 1 to 100 give a summary whose counts add up |
| Batch.RejectedEvents | src/app/api/analytics/batch/route.ts:78-97 | an event fails only when its eventData is missing or it is a `message_sent` event; such an event with string or absent content whose insert succeeds is fulfilled |
| Batch.UndefinedFieldsBound | src/app/api/analytics/batch/route.ts:209-237 | a field the event leaves out is still a column bound as `undefined`: the `user_analytics` upsert names all ten columns, each copied one holding the event's field, and `session_update` sets all three columns |
| Batch.UnknownTypeSucceeds | src/app/api/analytics/batch/route.ts:239-243 | an unknown type succeeds and writes nothing |
| Batch.MessageDefaults | src/app/api/analytics/batch/route.ts:84-116 | message defaults msg_<ts>, user, kruthika_chat, no image; content cut to 500; then the activity upsert and the daily refresh |
| Batch.AdCountsExclusive | src/app/api/analytics/batch/route.ts:135-148 | impressions 1 exactly for "view", clicks 1 exactly for "click", never both |
| Batch.DauAppend | src/app/api/analytics/batch/route.ts:258 | a row adds an active user exactly when its id is new |
| Batch.DauBounds | src/app/api/analytics/batch/route.ts:253-258 | at most the number of rows, and equal when no id repeats |
| Tally.Keys | src/app/api/analytics/route.ts:60 | the keys of the entries, in order |
| Tally.BumpCounts | src/app/api/analytics/route.ts:52-58 | `acc[k] = (acc[k] \|\| 0) + 1` keeps a count table correct |
| Tally.CountCorrect | src/app/api/analytics/route.ts:52-58 | the fold gives each distinct key once with its number of occurrences |
| Tally.LookupCount | src/app/api/analytics/route.ts:55 | looking up a key gives its occurrences, 0 if never counted |
| Tally.SortDescCorrect | src/app/api/analytics/route.ts:61 | the sort orders by count, largest first, and is a permutation |
| Tally.SortDescStable | src/app/api/analytics/route.ts:61 | the sort is stable: the elements of each weight keep their input order |
| Tally.TopKeepsTies | src/app/api/analytics/route.ts:60-62 | among the first n after sorting, the elements of each weight are the earliest of that weight in the input, in input order |
| Tally.Take | src/app/api/analytics/route.ts:62 | `slice(0, n)` is a prefix of length min(n, length) |
| Tally.TopIsHeaviest | src/app/api/analytics/route.ts:60-62 | the first n after sorting come from the input, largest first, and nothing left out outweighs the last kept |
| Analytics.Named | src/app/api/analytics/route.ts:51 | rows without a country are dropped; the others are kept with their multiplicities |
| Analytics.PagePaths | src/app/api/analytics/route.ts:150 | a missing path counts as "/" |
| Analytics.TopOfCount | src/app/api/analytics/route.ts:52-62 | count, sort, slice give at most five distinct entries, each with its true count, in non-increasing order; no key left out beats the fifth, and keys of equal count keep their order of first appearance |
| Analytics.TopCountriesMeaning | src/app/api/analytics/route.ts:49-63 | the top list of named countries; no entry is the empty name |
| Analytics.TopPagesMeaning | src/app/api/analytics/route.ts:147-158 | the top list of pages with "/" for a missing path |
| Analytics.TwelveHourClock | src/app/api/analytics/route.ts:94 | the label is the 12-hour reading (12 for hours 0 and 12), AM exactly before noon |
| Analytics.HourFormattedDigits | src/app/api/analytics/route.ts:93 | tens digit, units digit, ":00" |
| Analytics.HourCountsCorrect | src/app/api/analytics/route.ts:85-89 | the count for each hour is its number of messages |
| Analytics.PeakHoursMeaning | src/app/api/analytics/route.ts:83-96 | [] for no messages; otherwise 24 entries, entry i for hour i with its count and labels |
| Analytics.Title | src/app/api/analytics/route.ts:191 | capitalising word starts keeps the length |
| Analytics.StepLabelShape | src/app/api/analytics/route.ts:191 | "chat_started" becomes "Chat Started": only the first underscore becomes a space, and each word is capitalised |
| Analytics.UserJourneyMeaning | src/app/api/analytics/route.ts:179-194 | [] for no rows; otherwise six entries in the fixed order, each with its label and occurrence count |
| Analytics.DaysBack | src/app/api/analytics/route.ts:358-373 | 1, 7, 30 or 90 |
| Analytics.RefererChecked | src/app/api/analytics/route.ts:301-306 | a present referer not containing the present host gives 401 |
| Analytics.Dispatch | src/app/api/analytics/route.ts:319-384 | type defaults to overview and dateRange to 7d; an unknown range reaches back 7 days; an unknown type gives 400 |
| Analytics.SendersBounded | src/app/api/analytics/route.ts:616-617 | user + ai counts never exceed the rows, equal exactly when every sender is one of them |
| Analytics.BreakdownTotal | src/app/api/analytics/route.ts:637-642 | the total is user + ai, so at most the rows |
| Analytics.Hourly | src/app/api/analytics/route.ts:621-632 | 24 hourly rows |
| Analytics.HourlyOutOfOrder | src/app/api/analytics/route.ts:643-646 | as written, a busier hour than midnight puts another hour first in hourlyDistribution |
| Analytics.OneMessageAtFive | src/app/api/analytics/route.ts:643-646 | one message at 05:00 UTC shows it |
| Analytics.DetailedCorrectedMeaning | src/app/api/analytics/route.ts:634-646 | corrected: hourlyDistribution is by hour; peakHours holds six of its hours, busiest first, none quieter than an hour left out, and hours of equal count are the earliest such hours, in hour order |

## Left out

- `executeApiQuery` and the network request it makes, `client.query`, `getMysqlClient` (`src/lib/mysql-client.ts`) and the database itself. The model covers the statement and values that would be sent; the store's answer is a parameter.
- The builder's extra options (`onConflict`, `ignoreDuplicates`, `{ count, head }`). The source's methods take one argument and drop them, and the model has no place for them either.
- `JSON.parse` is modelled only for the `{"email":…,"exp":…}` shape that `createAdminSession` writes. Any other text is either refused or read by this grammar.
- The session payload's `exp` is an integer. `Date.now()` gives whole milliseconds, so no fractional part arises.
- `Buffer.from(…, 'base64url')` is lenient, as in Node: characters outside the alphabet are skipped. The model does not cover Node's exact treatment of trailing bits.
- UTF-16 lone surrogates are not modelled. Dafny's `char` is a Unicode scalar value.
- `AdminAuth.LowerAscii`: `toLowerCase` is modelled on A–Z only, not full Unicode case mapping.
- Login fields that are not strings are not modelled. The body is either text fields or unparsable.
- `MaximumSecurity` and `APISecurityManager` are not part of this model. Their verdicts are boolean parameters.
- The middleware's Instagram redirect and the response headers are left out. `Middleware.Handle` is modelled as the function it is, with its `/api/` branch, although `Middleware.Matched` shows that the config matcher keeps `/api` requests away from it.
- `Compiler.PlaceholdersMatchParams`: the descriptor's `limit` and `offset` are integers and `filters` is always a list. The `/api/db` gateway forwards untyped JSON, so the source can also receive a string `limit` such as "?", which `LIMIT ${state.limit}` puts into the text (one placeholder, no bound value), or a body without `filters`, which throws in `buildWhereClause` and comes back as an error result. The model represents neither input, so the agreement of placeholders and values is promised only for the typed descriptor.
- `Compiler.OpSymbol`: an operator named after an `Object.prototype` member ("constructor", "toString", "__proto__", …) reads from the prototype in the source and puts that member's text into the clause. The model emits `undefined` for it; JavaScript's prototype chain is not modelled.
- `Analytics.TopCountriesMeaning`: the source counts with `acc[k] = (acc[k] || 0) + 1` on `{}`, so a country named after an `Object.prototype` member is counted wrongly ("constructor" starts from the function's text, "__proto__" is never recorded). The model counts every name as a plain key.
- `Analytics.TopPagesMeaning`: the same `{}` fold miscounts a page path named after an `Object.prototype` member; the model counts it as a plain key.
- `Analytics.UserJourneyMeaning`: the same `{}` fold's treatment of a `step_name` named after an `Object.prototype` member is not modelled; the model counts it as a plain key. The reported counts do not depend on it, because only the six fixed step names are read back and none of them is a prototype member.
- Upload's file writes and deletions, `path.join` normalisation, `Math.random` and `Date.now()` are parameters or left out. So is the `MAX_UPLOADS_PER_DAY` quota, which the source never uses.
- Floating-point metrics are left out: percentages, journey conversion, revenue, CTR, CPM and `Math.ceil(count * 0.7)` users.
- Date conversion (`toISOString`, `getHours`, `getUTCHours`) is an input: an `iso` function and hour integers.
- `trackMessage` reads the clock once for all its events. The source reads it per event.
- `getOverviewAnalytics`, `getRealTimeMetrics`, `getRealDeviceBreakdown`, the ad metrics, cookie-consent and session metrics of the analytics route are not modelled. Neither are its seed insert and its `POST`.
- The tracker's timer flushes, its singleton, `initializeTracking` (reading consent and the start-up events) and device and location detection are left out. The constructor starts with tracking off.
- Concurrency is not modelled. The non-awaited flush is split into `FlushEvents` (the synchronous part) and `FinishFlush` (the settled `fetch`).
- `substring(0, 500)` counts UTF-16 code units. The model counts characters.
- `Object.entries` lists integer-like keys first. The model keeps insertion order for every key.
- A batch event without a timestamp, and `toISOString` throwing on an invalid date, are not modelled.
- `src/lib/auth-utils.ts` is not part of this model beyond its outcome: the route receives "authenticated or not".
- The React pages and `src/app/api/health/route.ts` are not part of this model.

## Findings

| source | as written | input that shows it | evidently intended | confidence | as-written member | corrected member |
|---|---|---|---|---|---|---|
| src/lib/admin-auth.ts:57 | `decoded.split('.')` keeps only the first two pieces, so when the email holds a dot the payload is cut inside the email, and that piece is never valid JSON | any email with a dot, e.g. `admin@example.com` | split at the last dot: the hex signature never holds one | not executed | AdminAuth.DottedEmailNeverVerifies | AdminAuth.IssueThenVerify |
| src/lib/admin-auth.ts:29 | the plaintext branch calls `timingSafeEqual` with no length guard, which throws on unequal lengths, so login answers 500 | configured password "secret", submitted "x" | the length guard of the hash branch (line 22), giving 401 | not executed | Login.WrongLengthPasswordIs500 | Login.GuardedLoginOutcomes |
| src/app/api/analytics/route.ts:643-646 | `hourlyDistribution` is the same array that is then sorted in place for `peakHours`, so it is ordered by message count, not by hour | one message at 05:00 UTC: hour 5 comes first | the distribution in hour order, with `peakHours` sorted separately | not executed | Analytics.HourlyOutOfOrder | Analytics.DetailedCorrectedMeaning |
