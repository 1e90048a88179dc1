# PIM-Manager core in Dafny

PIM-Manager is a browser extension. It lets a signed-in user list their Azure
AD Privileged Identity Management (PIM) role eligibilities and active role
assignments through Microsoft Graph, self-activate an eligible role, and
extend an active one. This project models the logic of the extension's two
scripts:

- the background service worker, `background.js`;
- the popup, `popup.js`.

Each is modelled as far as its behaviour does not depend on the browser.

| file | module | what it models |
|---|---|---|
| `wrappers.dfy` | `Wrappers` | `Option` and `Result` |
| `text.dfy` | `Text` | the JavaScript string operations the scripts rely on: truthiness, `a \|\| b`, `includes`, `startsWith`, `indexOf`, `replace` of the first match, `toLowerCase`, `join`, number-to-text |
| `seqs.dfy` | `Seqs` | `Array.prototype.filter` and the order-keeping de-duplication done by `[...new Set(xs)]` |
| `pkce.dfy` | `Pkce` | the PKCE helpers: the random code verifier and the base64url encoding of the challenge (RFC 7636) |
| `tokens.dfy` | `Tokens` | the `TokenManager` class: token expiry with its 60-second margin, refresh, code exchange, the interactive flow, and `getValidToken`'s choice between them |
| `graph.dfy` | `Graph` | the `GraphAPIClient` class: request URLs, error-message extraction, the role-definition cache with its one-hour lifetime, the batched name lookup, the active-assignment filter and normalisation, and the activation and extension request bodies |
| `background.dfy` | `Background` | `AzurePIMManager`: one step of the message protocol (`handleMessage`) over the token and Graph state |
| `roleview.dfy` | `RoleView` | the popup's role model: `convertApiRole` with its service and importance classifiers and its ISO-duration parser, the expiring-role selection, `isExpiringSoon` and `formatTimeRemaining` |
| `popup.dfy` | `Popup` | the `AzurePIMHelper` class state: the theme cycle, `sendMessage` with its retries, `loadRoles`, and the activate and extend handlers with their in-flight id sets |

Pure code is modelled as functions, with lemmas about those functions. The
classes whose methods update fields in place are Dafny classes:

- `TokenManager`;
- `GraphAPIClient`;
- `AzurePIMManager`;
- `AzurePIMHelper`.

Each method of these classes has an ensures clause that ties its new state
and its result to a specification function of the old state. A few methods
also state a property directly (`PreloadRoleDefinitions` says when it sends a
request, `ClearCache` that the cache is stale afterwards). For most of them,
what the code promises is proved as lemmas about the specification function,
and the contracts of those functions.

Several inputs are parameters rather than effects of the method:

- the clock (`now`, milliseconds since the epoch);
- `Math.random` (the picked indices);
- the outcome of each network call, browser-identity call and runtime message.

A Graph call that is not made ignores its reply parameter. As in
`makeRequest`, every Graph request first asks the token manager for a valid
token. That lookup may refresh the tokens, clear them, or start an
interactive sign-in, and the request is made only when it succeeds. The
answers met by those lookups (the token endpoint's reply to a refresh or a
code exchange, the picked verifier indices, the sign-in redirect) are a
parameter too, `Graph.Credentials`. The error string of a failed Graph reply
in the `Network` parameter stands for the message `makeRequest` throws, that
is `Graph.ErrorMessage` of the response's status and body, for a request sent
to `Graph.RequestUrl` of its endpoint.

## Model

| member | source | states |
|---|---|---|
| `Text.OrElse` | background.js:189 | `a \|\| b` on optional strings: `a` when it is a non-empty string, otherwise `b`, with an absent `b` read as the text `undefined` |
| `Text.ReplaceFirst` | popup.js:202 | string `replace` with a string pattern: only the leftmost occurrence is replaced, and the text is unchanged when the pattern does not occur |
| `Text.ToLower` | popup.js:202 | same length; ASCII capitals lowered, every other character kept |
| `Text.NatToStringRoundTrip` | popup.js:192 | the decimal text of a number is non-empty, all digits, and reads back as the same number |
| `Seqs.Filter` | background.js:414 | an element is kept iff it is in the list and satisfies the predicate; the result is no longer than the list |
| `Seqs.FilterConcat` | background.js:414 | filtering distributes over concatenation, so the kept elements stay in their original order |
| `Seqs.Dedup` | background.js:361 | `[...new Set(xs)]`: no element repeated, exactly the members of `xs`, no longer than `xs`, and in the order of their first occurrence in `xs` |
| `Seqs.FilterDistinct` | background.js:362 | filtering a list without repeats leaves a list without repeats |
| `Pkce.CharsetIsUnreserved` | background.js:8 | the verifier alphabet has 66 characters, and these are exactly the RFC 7636 unreserved characters |
| `Pkce.RandomString` | background.js:7-14 | returns exactly `length` characters, each the charset character at the picked index, all unreserved |
| `Pkce.Base64UrlEncode` | background.js:21-24 | the output has no `+`, no `/` and no trailing `=`; each output character is the URL-safe image of the input character at the same position; only `=` characters are dropped from the end |
| `Pkce.EncodeDropsPadding` | background.js:23 | for a padded base64 text, the encoding is exactly as long as the text minus its padding |
| `Pkce.Base64UrlRoundTrip` | background.js:21-24 | restoring `+`, `/` and the padding recovers the standard base64 text, so the encoding loses nothing |
| `Pkce.ChallengeLength` | background.js:26-37 | the S256 challenge of a 32-byte digest is 43 characters, the same as the verifier length |
| `Tokens.Expired` | background.js:80-83 | an unexpired token has an access token and an expiry more than one minute ahead |
| `Tokens.Refreshed` | background.js:208-249 | a refresh grant is sent iff a refresh token is present; a failure leaves the session as it was (a thrown request) or cleared (a rejected one); after a success the storage already holds the session, so reloading it gives the same session |
| `Tokens.Exchanged` | background.js:151-206 | the code grant is sent iff a code verifier is stored; a failure changes nothing; a success removes the verifier from storage |
| `Tokens.Authenticated` | background.js:85-149 | any code grant sent carries the verifier just generated; after a failed sign-in no access token, refresh token or expiry is left in storage |
| `Tokens.ValidToken` | background.js:66-78 | the token returned is the session's access token after the step, and a token request is sent only when the token was expired |
| `Tokens.ExpiredWhenAbsent` | background.js:80-81 | a session without an access token, or whose expiry is absent or 0, is expired |
| `Tokens.RefreshMarginBoundary` | background.js:80-83 | with an access token and a non-zero expiry, the token counts as expired exactly from 60 seconds before the expiry: valid with 61 seconds left, expired with 60 or 59 |
| `Tokens.ValidTokenUntouched` | background.js:66-78 | with an unexpired access token, `getValidToken` returns it, sends no request and changes nothing |
| `Tokens.ExpiredTokenRoute` | background.js:66-78 | with an expired token, a refresh grant is sent iff a refresh token is present, and it carries that token; otherwise any request sent is an authorization-code grant carrying the stored verifier |
| `Tokens.FailedRefreshClears` | background.js:229-233 | a refresh the endpoint rejects clears all three fields, removes their three stored keys, keeps every other stored key, and reports `Token refresh failed: ` followed by the endpoint's reason |
| `Tokens.FailedRefreshForcesAuthentication` | background.js:260-266 | after a failed refresh, and after reloading from storage, the next `getValidToken` must authenticate interactively |
| `Tokens.SuccessfulRefreshPersists` | background.js:236-247 | a successful refresh stores the new tokens and expiry `now + expires_in·1000`, keeps the old refresh token when none is returned, and reloading the storage gives back the same session |
| `Tokens.SuccessfulExchangePersists` | background.js:192-204 | a successful code exchange sends the code with the stored verifier, takes the returned access and refresh tokens and the expiry `now + expires_in·1000`, removes the code verifier, and reloading gives back the same session |
| `Tokens.ThrownReplyKeepsSession` | background.js:179-227 | when the token request throws (a rejected `fetch` or a body that is not JSON), refresh and exchange leave the session unchanged and report the thrown message |
| `Tokens.AuthenticationUsesFreshVerifier` | background.js:85-149 | the interactive flow only ever exchanges a code with the verifier it just generated; when a code comes back without an error, exactly that exchange is sent, and the outcome is the token or a `Token exchange failed: ` error |
| `Tokens.FailedAuthenticationKeepsFields` | background.js:121-141 | a denied or failed redirect sends nothing and reports an error; the in-memory tokens are left as they were, but the stored tokens are already wiped, so reloading gives none |
| `Tokens.ClearedStaysCleared` | background.js:251-266 | reloading a cleared session from storage gives back the same cleared session; at every instant, both must authenticate interactively |
| `Tokens.TokenManager.constructor` | background.js:59-64 | the fields start absent, over the given storage |
| `Tokens.TokenManager.LoadStoredTokens` | background.js:251-258 | the fields become the values stored under the three keys, and storage is unchanged |
| `Tokens.TokenManager.ClearTokens` | background.js:260-266 | the state becomes `Cleared` of the old state |
| `Tokens.TokenManager.PersistTokens` | background.js:243-247 | only the storage changes; the access token, refresh token and expiry keys are written |
| `Tokens.TokenManager.RefreshAccessToken` | background.js:208-249 | the new state, the request sent and the result are those of `Refreshed` |
| `Tokens.TokenManager.ExchangeCodeForTokens` | background.js:151-206 | the new state, the request sent and the result are those of `Exchanged` |
| `Tokens.TokenManager.Authenticate` | background.js:85-149 | the verifier is the 43 picked charset characters, and the new state, the request sent and the result are those of `Authenticated` with that verifier |
| `Tokens.TokenManager.GetValidToken` | background.js:66-78 | the new state, the request sent and the result are those of `ValidToken` |
| `Graph.RequestUrl` | background.js:282 | an endpoint starting with `http` is used as is; any other endpoint is appended to the Graph v1.0 base URL |
| `Graph.ErrorMessage` | background.js:293-305 | the message for a failed response is never empty |
| `Graph.ErrorMessagePriority` | background.js:297-302 | the JSON `error.message` wins over `error_description`, and a JSON body with neither gives `API request failed`; an unparsable or null body gives `HTTP <status>: <statusText>` |
| `Graph.Put` | background.js:326-331 | caching a list keeps every key already cached |
| `Graph.PutKeys` | background.js:326-331 | after caching a list of definitions, the keys are the old keys plus the ids of the list |
| `Graph.PutLastWins` | background.js:326-331 | when an id occurs several times in one list, the last occurrence is the cached entry |
| `Graph.PutElsewhere` | background.js:374-379 | caching a list leaves every other key's entry unchanged |
| `Graph.Preloaded` | background.js:313-338 | a preload either leaves the cache as it was or stamps it with `now`, and changes it only when the cache is stale and the request succeeds |
| `Graph.PreloadReplaces` | background.js:313-338 | a successful preload stamps the cache with `now`, and caches exactly the returned ids, each under its last definition |
| `Graph.PreloadNoChange` | background.js:313-338 | a preload on a fresh cache, or one whose request fails, leaves the cache unchanged |
| `Graph.PreloadThenFresh` | background.js:316-318 | after a successful preload with at least one definition, the cache stays fresh for one hour |
| `Graph.FetchedCaches` | background.js:340-358 | a cached id is answered without a request; a fetched definition is cached under the requested id; a failed fetch answers the id itself; the freshness stamp never changes |
| `Graph.RoleIds` | background.js:361 | one role-definition id per role, in order |
| `Graph.Clauses` | background.js:369 | one `id eq '…'` clause per missing id, in order |
| `Graph.ClauseInjective` | background.js:369 | different ids give different filter clauses |
| `Graph.MissingIdsExact` | background.js:361-369 | the ids requested in the batch are exactly the role ids missing from the cache, without repeats, so the filter holds no duplicate clause |
| `Graph.NameFor` | background.js:388 | a cached definition with a display name supplies the name; otherwise the id itself is shown |
| `Graph.WithNames` | background.js:387-389 | every role is kept in place, with only its `roleName` set, from the cache |
| `Graph.Enriched` | background.js:360-389 | enrichment never moves the freshness stamp and never drops a cached definition |
| `Graph.EnrichedShape` | background.js:360-389 | the enriched list has the same roles in the same order, each named from the cache after the batch was merged |
| `Graph.EnrichedRequestsOnlyMissing` | background.js:364-386 | a batch request is made iff some id is missing, and its filter is the `or`-join of the missing ids' clauses; with nothing missing, the cache is untouched |
| `Graph.EnrichedFailureKeepsCache` | background.js:383-385 | a failed batch leaves the cache unchanged and names each uncached role by its id |
| `Graph.ActiveAssignments` | background.js:413-422 | the active list is no longer than the listing, and each of its entries is in the listing and active now |
| `Graph.ActiveAssignmentsExact` | background.js:413-422 | an assignment is listed as active iff it has started and has not ended; the selection keeps order; start and end are inclusive and exclusive |
| `Graph.NormalizeAll` | background.js:426-434 | one normalised assignment per active one, in order |
| `Graph.NormalizedCopiesWindow` | background.js:426-434 | each normalised assignment's schedule carries the assignment's own start and end, and a missing end gives no schedule end |
| `Graph.Activation` | background.js:440-469 | the body is an error iff the eligibility has no principal and `/me` failed; otherwise it starts now and names the eligibility's role |
| `Graph.ActivationShape` | background.js:440-484 | a `selfActivate` body for the target's role and scope (`/` by default), with the target's principal or else the signed-in user's id; a failed `/me` lookup is an error; the default duration is `PT1H` and the default justification `Temporary access required` |
| `Graph.Extension` | background.js:486-503 | the body starts now and always asks for an end later than the current end (later than `now` when there is none) |
| `Graph.ExtensionAddsTwoHours` | background.js:486-509 | a `selfExtend` body ending two hours after the current end (after `now` when there is none), whatever additional duration was asked for; the default justification is `Extension required` |
| `Graph.RequestedThroughLookup` | background.js:279-281 | with an unexpired token a request changes no token state and yields its reply; otherwise the session is what the token lookup left, and a failed lookup is the request's error whatever the reply would have been |
| `Graph.ListingWithValidToken` | background.js:391-438 | with an unexpired token a listing changes no token state; it is the preload, the listing and the enrichment acting on the cache alone, and a failed listing returns its own error |
| `Graph.ListingTokenFailure` | background.js:313-403 | a failed token lookup fails a listing on a fresh cache with the lookup's error, the cache unchanged; on a stale cache, the preload swallows it and leaves the cache as it was |
| `Graph.SubmissionBodies` | background.js:440-509 | with an unexpired token, activation and extension change no token state and post exactly the body built for them; a posted body is always that body |
| `Graph.GraphClient.constructor` | background.js:271-277 | a client over the given token manager, with an empty cache that has never been updated |
| `Graph.GraphClient.MakeRequest` | background.js:279-311 | the token lookup comes first; the new token state and the outcome are those of `Requested` |
| `Graph.GraphClient.PutAll` | background.js:326-331 | the cache becomes the old cache with the definitions added in order |
| `Graph.GraphClient.PreloadRoleDefinitions` | background.js:313-338 | a request is made iff the cache is stale; the new tokens and cache are those of `PreloadedWith`, which swallows a failed token lookup as it swallows a failed request |
| `Graph.GraphClient.FetchRoleDefinition` | background.js:340-358 | the new tokens, the new cache and the answer are those of `FetchedWith`: a cached id needs no token |
| `Graph.GraphClient.EnrichRolesWithNames` | background.js:360-389 | the new tokens, the new cache, the batch filter and the named roles are those of `EnrichedWith`: the token is looked up only when a batch is needed |
| `Graph.GraphClient.ListEligibleRoles` | background.js:391-403 | the new tokens and cache and the result are those of `ListedWith` for eligibilities: preload, then the listing, then enrichment, each request after its own token lookup |
| `Graph.GraphClient.ListActiveRoles` | background.js:405-438 | as for eligible roles, with only the currently active assignments kept and normalised |
| `Graph.GraphClient.Identify` | background.js:443-453 | `/me` is requested, after a token lookup, only when the eligibility has no principal; the new tokens and the answer are those of `Identified` |
| `Graph.GraphClient.ActivateRole` | background.js:440-484 | the new tokens, the body posted and the result are those of `ActivatedWith` |
| `Graph.GraphClient.ExtendRole` | background.js:486-509 | the new tokens, the body posted and the result are those of `ExtendedWith` |
| `Graph.GraphClient.PostSchedule` | background.js:472-476 | the body is posted only when a token was obtained; the new tokens and the result are those of `Submitted` |
| `Graph.GraphClient.ClearCache` | background.js:511-514 | the cache is empty and stale at every instant |
| `Background.Handled` | background.js:544-600 | only the two listing actions can change the role-definition cache |
| `Background.ResponseShape` | background.js:544-600 | every reply is a success without an error, the unknown-action error, or a failure whose `needsAuth` is computed from its error text |
| `Background.ResponsePayloads` | background.js:548-587 | only `getAuthStatus` reports `authenticated`, which is whether the token is unexpired; only the list actions carry `data`, and only activate and extend carry `result` |
| `Background.UnknownActionChangesNothing` | background.js:589-591 | an action other than the six that `handleMessage` dispatches changes no state, posts nothing and answers `Unknown action` |
| `Background.ClearAuthKeepsCache` | background.js:583-586 | `clearAuth` clears the tokens, after which authentication is required, but keeps the role-definition cache |
| `Background.PostedBodies` | background.js:563-581 | only activate and extend post a request body; a posted extension body is the `Extension` body; with an unexpired token, extend always posts it and activate posts the `Activation` body whenever it is not an error |
| `Background.TokensChangeOnlyByLookupOrClearAuth` | background.js:548-591 | `getAuthStatus` and an unknown action never change the tokens; with an unexpired token, no action but `clearAuth` changes them |
| `Background.RejectedRefreshReachesPopup` | background.js:229-233 | with an expired token whose refresh the endpoint rejects, a listing on a fresh cache, and any extension, answers `Token refresh failed: ` with the reason, leaves the tokens cleared, posts nothing and keeps the cache |
| `Background.RejectedRefreshDuringPreload` | background.js:313-338 | on a stale cache the preload swallows a rejected refresh; the listing request then finds the tokens cleared and starts an interactive sign-in, whose failure is the answer |
| `Background.RefreshHappensOnce` | background.js:66-78 | when the refresh of an expired token succeeds with a lifetime beyond the one-minute margin, the message is handled exactly as if it had arrived with the refreshed tokens |
| `Background.NeedsAuthAfterPrefix` | background.js:597 | a prefix containing neither `au` nor `to` does not change whether an error text mentions `authentication` or `token` |
| `Background.TokenFailuresNeedAuthOnlyFromReason` | background.js:592-599 | the errors `Token refresh failed: R`, `Token exchange failed: R` and `Auth error: R` ask for re-authentication exactly when `R` itself mentions `authentication` or `token` |
| `Background.PimManager.constructor` | background.js:519-530 | creates a token manager loaded from storage and an empty Graph client that uses that token manager |
| `Background.PimManager.HandleMessage` | background.js:544-600 | the new token and cache state, the posted body and the reply are those of `Handled` |
| `RoleView.ServiceOf` | popup.js:170-179 | a name is an Azure role iff it has an Azure word; it is a Microsoft 365 role iff it has a Microsoft 365 word and neither an Azure nor an Entra ID word |
| `RoleView.RoleTypeOf` | popup.js:181-188 | critical iff the name has a critical word; medium iff it has neither a critical nor a high word |
| `RoleView.ClassifierPrecedence` | popup.js:170-188 | a name that mentions a critical role word anywhere is critical, and a name that mentions an Azure word anywhere is an Azure role, whatever surrounds the word |
| `RoleView.KeyVaultAdministratorIsAzureHigh` | popup.js:170-188 | `Key Vault Administrator` is an Azure role of high importance |
| `RoleView.GlobalAdministratorIsEntraCritical` | popup.js:170-188 | `Global Administrator` is an Entra ID role of critical importance |
| `RoleView.ExchangeAdministratorIsM365` | popup.js:170-179 | `Exchange Administrator` mentions no Azure or Entra ID word and is a Microsoft 365 role |
| `RoleView.ExchangeAdministratorIsMedium` | popup.js:181-188 | `Exchange Administrator` mentions no critical or high word and is of medium importance |
| `RoleView.GlobalReaderIsAzure` | popup.js:170-179 | the Entra ID role `Global Reader` is shown as an Azure role, because `Reader` is an Azure word matched anywhere |
| `RoleView.ParseDuration` | popup.js:190-194 | the text starts with a digit and ends in ` hour` or ` hours`; `1 hour` for a missing or empty duration |
| `RoleView.ParseDurationShowsDigits` | popup.js:190-194 | for every duration the text before ` hour` is exactly `1`, and the text before ` hours` is a run of digits other than `1` |
| `RoleView.HoursText` | popup.js:193 | the text for a run of digits is those digits followed by ` hour`, plus `s` unless the digits are `1` |
| `RoleView.DigitRun` | popup.js:192 | the `\d+` run is the longest all-digit prefix |
| `RoleView.FindMatch` | popup.js:192 | the match found is the leftmost place where `PT`, digits and `H` occur |
| `RoleView.WrittenDurationMatches` | popup.js:192 | `PT<digits>H` matches at position 0 with exactly those digits |
| `RoleView.ParseWrittenDuration` | popup.js:190-194 | `PT<digits>H` is shown as `<digits> hour`, plus `s` unless the digits are `1` |
| `RoleView.ParseDurationRoundTrip` | popup.js:190-194 | the duration `PT<n>H` is shown as `<n> hour`, plus `s` unless `n` is 1, for every number `n` |
| `RoleView.NoMatchWithoutPT` | popup.js:191-193 | a duration not containing `PT` is shown as `1 hour` |
| `RoleView.OtherUnitsReadAsOneHour` | popup.js:192-193 | `PT<digits>` followed by a unit other than hours, with no later hour match, is shown as `1 hour` |
| `RoleView.ParseDurationDefaults` | popup.js:191 | a missing or empty duration, and a day-based one such as `P1DT2H`, are shown as `1 hour` |
| `RoleView.ParseDurationMinutesExample` | popup.js:192-193 | `PT30M` is shown as `1 hour` |
| `RoleView.ParseDurationKeepsDigits` | popup.js:193 | `PT01H` is shown as `01 hours`, with the digits as written |
| `RoleView.ConvertApiRole` | popup.js:196-216 | a card has eligible details iff it is built as eligible, and requires a justification iff the assignment says so |
| `RoleView.ConvertApiRoleShape` | popup.js:196-216 | a card keeps the assignment's ids, principal, raw scope and name, with its importance and service from the classifiers and, when eligible, its maximum duration from the parser; its scope reads `Directory` for the root scope `/` (or a raw scope that is itself `Directory`) and is the raw scope otherwise; a missing justification flag means none is required; only eligible cards carry a maximum duration, and an active card without a schedule has no start or end |
| `RoleView.ActiveCardUsesNormalizedWindow` | popup.js:212-213 | an active card built from a normalised assignment shows the assignment's own start and end |
| `RoleView.ConvertAll` | popup.js:254-255 | one card per assignment, in order, each of the given kind |
| `RoleView.ExpiringRoles` | popup.js:261-266 | the expiring list is no longer than the active list, and each entry is an active card that is expiring |
| `RoleView.ExpiringRolesExact` | popup.js:261-266 | the expiring list holds exactly the active cards whose end is at most one hour away, in their original order; the hour is inclusive |
| `RoleView.ExpiringSoonStays` | popup.js:663-667 | the badge test agrees with the list selection, an end already passed counts as expiring, and a role stays expiring as time goes on |
| `RoleView.FormatTimeRemaining` | popup.js:651-661 | hours are shown iff at least one hour remains |
| `RoleView.FormatTimeRemainingSplits` | popup.js:651-661 | from one hour on, the text is `<h>h <m>m` with `m` below 60; below an hour it is `<m>m` |
| `RoleView.FormatTimeRemainingExamples` | popup.js:651-661 | 90 minutes show as `1h 30m`, 10 minutes as `10m`, and 5 minutes past the end as `-5m` |
| `Popup.IndexIn` | popup.js:152 | `indexOf`: -1 iff the value is absent, otherwise the first position holding it |
| `Popup.NextTheme` | popup.js:150-156 | the next theme is a known theme and differs from the current one |
| `Popup.ThemeCycle` | popup.js:150-156 | light, dark and system follow each other in a cycle of three; an unknown theme moves to light |
| `Popup.Sent` | popup.js:91-131 | `sendMessage` rejects only when every allowed try failed |
| `Popup.SentOutcome` | popup.js:91-131 | a reply is obtained iff one of the first `retries + 1` attempts delivers, and it is the first delivery (empty when the reply is absent); otherwise the error of the last attempt is reported |
| `Popup.ConnectionErrorRewritten` | popup.js:118-123 | a `Could not establish connection` error becomes the service-worker-not-responding message |
| `Popup.LoadError` | popup.js:235-247 | the load has an error iff some reply was rejected or unsuccessful; a rejected `sendMessage` wins over an unsuccessful response, because `Promise.all` rejects before either response is checked; the eligible reply is checked before the active one |
| `Popup.RejectionWinsOverFailedResponse` | popup.js:235-247 | with an unsuccessful eligible response and a rejected active request, the load fails with the active rejection's message |
| `Popup.LoadOutcome` | popup.js:220-301 | without the service worker the load fails; a successful load lists as expiring only active cards |
| `Popup.LoadOutcomeShape` | popup.js:220-301 | roles load iff the service is ready and both replies are successes; then each list keeps its replies' ids in order and the expiring list is exactly the active cards near their end; otherwise the failure text is one of the three classified messages or starts with `Failed to load roles: ` |
| `Popup.WorkerNotRespondingIsServiceFailure` | popup.js:290-291 | a worker-not-responding error is shown as the service-not-responding message |
| `Popup.UnavailableServiceNotRecognised` | popup.js:228-296 | the popup's own `Extension service is not available` error is shown as `Failed to load roles: Extension service is not available` |
| `Popup.FindRole` | popup.js:319 | `find` by id: absent iff no role has the id, otherwise the leftmost role with it |
| `Popup.ActivationJustification` | popup.js:341-351 | roles that differ only in the justification flag get the required or the default justification text; the duration is always `PT1H` |
| `Popup.ActivationRequestPosted` | popup.js:331-351 | for a card with a principal, an activation from the popup posts its body exactly when the service worker obtains a token, and the body asks for one hour for the card's principal, scope and justification |
| `Popup.ExtensionCountsFromNow` | popup.js:380-387 | an extension from the popup posts its body exactly when the service worker obtains a token, and it ends two hours after `now`, because the assignment it sends carries no schedule |
| `Popup.PopupState.constructor` | popup.js:5-17 | light theme, no roles, nothing in flight, no status |
| `Popup.PopupState.CycleTheme` | popup.js:150-156 | the theme becomes the next one in the cycle |
| `Popup.PopupState.SendMessage` | popup.js:91-131 | the result is `Sent` of the attempts, tried at most `retries + 1` times, and stopping at the first delivery |
| `Popup.PopupState.LoadRoles` | popup.js:220-301 | on success the three lists and the `Loaded <n> roles` status are set; on failure only the error status changes |
| `Popup.PopupState.HandleActivateRole` | popup.js:318-369 | an unknown id only sets `Role not found`; a known role sends its activation message while its id is in flight, then the id leaves the in-flight set and the status reports the reply |
| `Popup.PopupState.HandleExtendRole` | popup.js:371-403 | the role is looked up among the active and expiring cards; it is sent while its id is in flight, then the id leaves the set and the status reports the reply or `Role not found` |

## Left out

- DOM rendering, event wiring, button states, tab switching, `applyTheme` and the theme icon: view layer with no state of its own beyond the fields modelled.
- `chrome.identity.launchWebAuthFlow`, `fetch`, `chrome.runtime` messaging and `chrome.storage`: each call's outcome is a parameter (`Redirect`, `TokenReply`, the `Network` replies, `Attempt`), and storage is a map held in the token state.
- The authorization URL and the form fields of the token requests (client id, scopes, redirect URI, the `code_challenge` parameter): only the grant and what it carries (`TokenRequest`) are modelled.
- SHA-256 and `btoa`: `Pkce.Base64UrlEncode` takes the standard base64 text as input.
- `Math.random`: the picked indices are a parameter of `Pkce.RandomString`.
- Date parsing and ISO date text: instants are integer milliseconds, and request bodies carry `now` rather than its ISO rendering; the NaN that a missing `expires_in` or a malformed date produces is not modelled.
- The answers to token lookups: every lookup made while one message is handled meets the same `Graph.Credentials`, so a message that looks up a token twice cannot see two different answers from the token endpoint or the sign-in window.
- The bearer token sent with each Graph request: the request's reply is a parameter and does not depend on it.
- `encodeURIComponent` of the batch filter: the filter is modelled before encoding.
- `toLowerCase` beyond ASCII letters.
- Logging, and the timings read from `performance.now`.
- `Popup.PopupState.LoadRoles`: the success status omits the ` in <n>ms` suffix that comes from those timings.
- Timers: the message timeout and back-off delay of `sendMessage`, the reload scheduled after an activation or extension, and the status auto-hide.
- The concurrency of `Promise.all` in `loadRoles`: when both `sendMessage` calls reject, the source reports whichever rejects first and the model reports the eligible one. A single rejection wins over an unsuccessful response, as in the source (`Popup.RejectionWinsOverFailedResponse`).
- `ensureBackgroundScript`: its outcome is the `ready` parameter of `Popup.PopupState.LoadRoles`.
- `handleRefresh` and the refreshing flag: UI only.
- The service-worker keep-alive listeners and the install and startup handlers.
- `RoleView.ConvertApiRole`: requires a role name, which the background always sets; without one the script would throw a `TypeError`.
- `sha256` and `makePkcePair`'s challenge appear only in the authorization URL; `Pkce.ChallengeLength` states the challenge's length.

## Notes on the code

Proving the contracts above brings out the following points.

- Nothing calls `clearCache`, so signing out (`clearAuth`) clears the tokens but keeps the role-definition cache (`Background.ClearAuthKeepsCache`).
- The background answers `getAuthStatus`, `listEligibleRoles`, `listActiveRoles`, `activateRole`, `extendRole` and `clearAuth`. Every other action gets `Unknown action`.
- The preload swallows every error, a failed token lookup included. With an expired token whose refresh is rejected, a listing on a stale cache therefore goes on to an interactive sign-in rather than reporting the refresh failure (`Background.RejectedRefreshDuringPreload`).
- `needsAuth` tests the error text case-sensitively for `authentication` or `token`. The prefixes `Token refresh failed: ` and `Token exchange failed: ` therefore do not set it by themselves; only the reason after them decides (`Background.TokenFailuresNeedAuthOnlyFromReason`). `No authorization code returned` does not set it either.
- The popup's own `Extension service is not available` error is not recognised as a service problem, because the test looks for a lower-case `extension service`. It is shown as `Failed to load roles: …` (`Popup.UnavailableServiceNotRecognised`).
- The popup sends the extension request with an assignment that has no schedule. The background then extends from `now` rather than from the current end (`Popup.ExtensionCountsFromNow`). `extendRole` also ignores `additionalDuration` and always adds two hours (`Graph.ExtensionAddsTwoHours`).
- A role whose end has already passed counts as expiring soon, and its remaining time is shown as negative minutes (`RoleView.ExpiringSoonStays`, `RoleView.FormatTimeRemainingExamples`).
- A preload that returns no definitions stamps the cache with `now`, but an empty cache never counts as fresh, so every later listing preloads again. A failed batch lookup leaves uncached roles named by their id.
- The in-flight sets use `delete` after the request. A second click on a role already in flight ends with the id removed as soon as either request returns.
- The service classifier matches words anywhere in the name and tests the Azure words first. An Entra ID role such as `Global Reader` is therefore shown as Azure (`RoleView.GlobalReaderIsAzure`), and a name that matches no list is shown as Entra ID.
- The duration parser only reads hours. `PT30M` and a day-based `P1DT2H` are shown as `1 hour`, and `PT01H` as `01 hours`.
