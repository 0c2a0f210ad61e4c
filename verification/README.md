# Claviger: a verified model

Claviger keeps authentication sessions warm for a set of identities and runs a loopback gateway that
applies them to requests. This project models its session store, its gateway and the logic of its
login recipes in Dafny, and proves what they promise.

`dafny verify dfyconfig.toml` checks everything.

## How it is built

| file | what it models |
|---|---|
| Protocol | one entry of the store as a machine of atomic steps: any number of calls of `Get` and `Refresh`, each lock acquisition, each section under `sessMu`, each clock reading and each recipe call a step, in any interleaving |
| ProtocolInvariant, ProtocolTheorems | what every step keeps, and what follows for every reachable state and every run |
| Serving | which session `Get` and `Refresh` hand out over a whole run: live or not, cached or new |
| Adoption | runs in which `Get` returns an expired session and a waiting `Refresh` adopts a dead one |
| Coalescing | which concurrent calls of `Refresh` share one recipe call |
| Limiter | the sliding-window limiter: its meaning over the whole history, and the slice that is pruned in place |
| Entry | the code of `Get` and `Refresh` in its own form, executed against arbitrary interference; every execution is a run of the protocol |
| Sequential, Store | calls without concurrent callers, the store of all identities, `Health` and the proactive sweep |
| Recipes, RecipeRuns | OAuth2, form login and expiry arithmetic, alone and inside runs of the store |
| Templates, MultiStep | `{{name}}` substitution over a map in any order, and the multistep login |
| Headers, Paths, Gateway | the outbound header pipeline, the joined path, and the machine that serves one request after another |
| TokenRace | the token cache under concurrent requests, as a machine of its two sections and the fetch between them |
| GatewayRuns | the gateway's retry over runs of the store |
| Basics, Sessions | optional values, time, sessions |

Session pointers are indices into a heap that only grows, so a pointer comparison in `Refresh` is a
comparison of indices. The recipe, the upstream and the clock answer as they please. The history
variables `writes`, `log` and `admitted` of the protocol, and the logs of the gateway, influence no step.

## Where the code does less than its words

- The comment on `Refresh` (internal/store/store.go:184-187) says that waiting callers adopt the fresh
  session. After a failed refresh they adopt the expired copy, with a nil error (lines 202-204 and
  219-223). `Adoption.RefreshCanAdoptDead` is a run for every configuration and session, and
  `ProtocolTheorems.RefreshResult` says exactly when it happens: when the recipe call behind the
  adopted version failed.
- The comment on `Get` (lines 135-138) promises a session that has not expired. A session that the
  recipe has just granted is returned without a look at its expiry (lines 158-182):
  `Adoption.GetCanReturnExpired` is a run, for a recipe that grants an expired one.
  `Serving.GetLiveExactly` says when the promise holds: if and only if what the call's own recipe call
  granted had not expired when it was granted. No recipe of the repository grants an expired session:
  OAuth2, form and multistep logins are covered by `RecipeRuns.RecipesServeLive`, and the browser
  login sets no expiry (internal/recipe/browser.go:142). The run needs an implementation of `Recipe`
  from outside.
- docs/design.md:183-185 says that when many tools hit a 401 at once exactly one refresh runs, so that
  forty of them trigger one re-login. `Refresh` takes its first snapshot when it starts, not when the
  request was answered, so a caller that starts after the first one has committed logs in again:
  `Coalescing.LateRefreshLogsInAgain` is such a run, for every configuration. A `Refresh` goes on to
  log in if and only if the session was not written between its two snapshots
  (`Coalescing.SecondLook`), and all who look before the first write cause one call
  (`Coalescing.OneCallForAll`).
- docs/design.md:186 mentions exponential backoff. The limiter is a fixed sliding window, as
  docs/design.md:29 says.
- README.md:406-407 of the repository says that any header listed in `Connection` is stripped. Only the
  first `Connection` line is read (internal/gateway/gateway.go:466): `Headers.OneConnectionLine` shows that
  every listed name is dropped for certain if and only if there is at most one line, and
  `Headers.LaterLinesCovered` says of which requests with more lines it still holds.
- `subst` (internal/recipe/multistep.go:182-187) depends on Go's map order when a token begins in a
  value. `Templates.SafeValueExactly` says exactly which values are safe, `Templates.OnlyOpenBraceIsUnsafe`
  which characters all values may be spelled with, and `Templates.BraceCompletesToken` is a template
  and an order that go wrong.
- The comment in `forward` (internal/gateway/gateway.go:316-319) says that escaped characters reach the
  target verbatim. That fails for a target whose base path, trimmed, ends in an encoded slash;
  `Paths.EscapedPathPreserved` is the exact condition and `Paths.EncodedSlashLost` a target that fails.
- The comment on `invalidateCSRF` (internal/gateway/gateway.go:402-404) says that a token bound to the
  dead session is not reused. A fetch that is open across the invalidation stores its token afterwards
  (lines 366-396), and it is then served for up to its lifetime: `TokenRace.StaleTokenServed` is such a
  run, and `TokenRace.DropSafeExactly` the exact condition.
- If the token refetch after a reauthentication fails, the retry carries the token of the first attempt
  (gateway.go:277-283); `Gateway.RetryToken` has both cases.

## Model

| member | source | states |
|---|---|---|
| ProtocolInvariant.InvStep | internal/store/store.go:139-228 | every step of every thread, whatever the clock and the recipe do, keeps the lock discipline, the version history of the session field, the limiter's meaning, the call log and the health fields |
| ProtocolTheorems.SingleFlight | internal/store/store.go:139-228 | of the recipe calls made with one session object, all but the last are failed calls from Get; a call that succeeds or comes from Refresh retires the object, so callers of Refresh that share a session cause at most one call, the one under way included |
| ProtocolTheorems.EstablishOnce | internal/store/store.go:158-168 | after a call that wrote the session no call is Get's login from nothing, and every later call has a session in hand: a first login succeeds at most once |
| Coalescing.SecondLook | internal/store/store.go:196-204 | a Refresh goes on to the limiter if and only if the session field was not written between its two snapshots, and otherwise returns the current session |
| Coalescing.OneCallForAll | internal/store/store.go:184-228 | all calls of Refresh that take their first snapshot of a session before it is replaced cause one recipe call between them, however many and however long they wait |
| Coalescing.LateRefreshLogsInAgain | internal/store/store.go:194-212 | for every configuration there is a run in which the one Get has returned a session before any Refresh began, and two Refresh calls log in, the second with the first one's session |
| ProtocolTheorems.RateBound | internal/store/store.go:77-86 | Get and Refresh together: at most maxBurst admitted refreshes in any half-open window, at most maxBurst for each begun window of any span |
| ProtocolTheorems.AdmittedExactly | internal/store/store.go:172-175 | a consultation admits if and only if fewer than maxBurst of all admissions ever made lie inside the window; a refusal is an error and leaves log and history alone |
| ProtocolTheorems.RunGrows | internal/store/store.go:210-225 | along a run no session object changes and no write, call or admission is taken back |
| ProtocolTheorems.CurrentMovesForward | internal/store/store.go:45-65 | the current session never returns to nil and never to an earlier object |
| ProtocolTheorems.WrittenByHolder | internal/store/store.go:51-65 | only the holder of flightMu, inside its section, changes the session |
| ProtocolTheorems.Linearizable | internal/store/store.go:139-228 | a call that returns without error returns a session, and it was the current one at some point inside the call |
| ProtocolTheorems.GetServesLive | internal/store/store.go:144-156 | what Get returns was unexpired at some point inside the call, or the recipe had just made it for that call; `Serving.GetLiveExactly` has the exact condition |
| Serving.GetServesUnexpired | internal/session/session.go:37-42 | some time inside the call, what Get returns named no expiry or the clock had not passed it, unless the recipe had just made it for that call |
| Sessions.ExpiredMeans | internal/session/session.go:37-42 | the code's test is the negation of being in time: no expiry, or one that has not passed |
| Sessions.StaleMeans | internal/store/store.go:220-222 | the copy has every field of the original but its expiry, and is in time at no time after 1970 |
| Serving.GetLiveExactly | internal/store/store.go:135-182 | what Get returns was live at some point inside the call if and only if no recipe call of its own granted a session that had expired by then |
| Adoption.GetCanReturnExpired | internal/store/store.go:158-168 | for every configuration there is a run in which a Get returns the expired session that its recipe granted, live at no point inside the call |
| RecipeRuns.RecipesServeLive | internal/recipe/recipe.go:19-36 | with OAuth2, form and multistep logins Get only returns sessions that were live at some point inside the call |
| ProtocolTheorems.DeadStaysDead | internal/store/store.go:210-225 | after a failed Refresh on a session, a Get whose snapshot is still to come returns an error or a session committed after the invalidation |
| ProtocolTheorems.RefreshResult | internal/store/store.go:200-227 | a session that Refresh returns is an expired copy of the one the recipe was called with if and only if that call failed; otherwise it is the object that the recipe granted |
| Adoption.RefreshCanAdoptDead | internal/store/store.go:202-223 | for every configuration and session there is a run in which a caller of Refresh gets an expired session and no error |
| ProtocolTheorems.CachedUntilExpiry | internal/store/store.go:144-156 | while the current session is unexpired and Refresh calls no recipe, no recipe call is made |
| Serving.CachedSessionServed | internal/store/store.go:144-156 | and every Get that looks at the entry meanwhile returns that very session, without an error, without waiting for the flight lock and without a recipe call |
| Serving.RefreshReplaces | internal/store/store.go:188-228 | what Refresh returns without an error was written after the Refresh began |
| Serving.RetryCarriesNewer | internal/store/store.go:188-228 | a Get that begins after a Refresh has succeeded returns a newer object than any Get had returned before that Refresh began |
| ProtocolTheorems.HealthView | internal/store/store.go:59-72 | established if and only if a login time is set; with no flight open, the last error is that of the last finished recipe call |
| ProtocolTheorems.NoDeadlock | internal/store/store.go:139-228 | while a call is unfinished some thread can take a step |
| ProtocolTheorems.EveryCallTerminates | internal/store/store.go:139-228 | a run takes at most a fixed number of steps for each call, however the threads interleave |
| Limiter.AdmitMatchesHistory | internal/store/store.go:77-86 | the pruned list decides as the never-pruned history would and goes on representing it: sorted, a suffix, at most maxBurst long, refusals leaving no stamp |
| Limiter.WindowBound | internal/store/store.go:77-86 | stamps maxBurst apart being a window apart, any half-open window holds at most maxBurst of them |
| Limiter.SpanBound | internal/store/store.go:77-86 | the same for a span of any length, times the windows that cover it |
| Limiter.StampBuffer.PruneOlderThan | internal/store/store.go:294-302 | the filter in place leaves exactly the stamps later than the cutoff, in order, and overwrites nothing unread |
| Limiter.StampBuffer.RateLimited | internal/store/store.go:77-86 | verdict and remaining stamps are those of the limiter's specification |
| Entry.Entry.Get | internal/store/store.go:139-182 | under any interference the call is one thread of a protocol run, the one it starts, and returns that thread's result; alone it has the sequential outcome, and a session past its expiry is not what it returns |
| Entry.Entry.Refresh | internal/store/store.go:188-228 | the same for Refresh |
| Entry.Entry.AwaitTurn | internal/store/store.go:151-152 | waiting for a lock ends: others can always move on, and they run out of steps |
| Entry.Entry.RateLimited | internal/store/store.go:77-86 | the section over the stamp slice is the protocol's limiter step |
| Entry.Entry.CommitSession | internal/store/store.go:59-65 | the step publishes the new session, the login time and an empty error together |
| Entry.Entry.PublishStale | internal/store/store.go:219-223 | the session field points to a new object, a copy of the old one in all but its expiry |
| Sequential.SoloRun | internal/store/store.go:139-228 | a call that runs by itself makes at most one recipe call, with the current session, and writes the granted session, an expired copy, or nothing, according to its outcome |
| Sequential.SoloServed | internal/store/store.go:139-228 | at its end it has that outcome; a Get whose session stays in time returns it and changes nothing, from the entry it serves no other, and a session past its expiry it never returns |
| Sequential.FailedRefreshLeavesStale | internal/store/store.go:219-223 | after a failed Refresh the current session is the old one in all but its expiry |
| Store.Store.constructor | internal/store/store.go:100-117 | ceiling and window are the last positive ones among the options, or 10 and 60 seconds |
| Store.Store.Health | internal/store/store.go:268-292 | every identity is reported exactly once, in the order of the names, with its entry's own fields, and nothing changes |
| Store.Store.Identities | internal/store/store.go:230-241 | the registered names, each once and in ascending order |
| Store.Store.RefreshExpiring | internal/store/store.go:247-264 | for every `within` that a Duration can hold but the least, an identity is refreshed exactly once, under the store's own ceiling and window, if and only if its session's expiry is set and earlier than now + within, and its error is reported if and only if that failed; all others are left as they were |
| Store.DueMeans | internal/store/store.go:255 | saturating subtraction decides as exact arithmetic does |
| Store.BeforeMeans | internal/store/store.go:241 | the order of names is lexicographic |
| Store.LastPositiveMeans | internal/store/store.go:100-109 | an option that is not positive leaves the one before in force |
| Entry.HealthMeans | internal/store/store.go:279-291 | in every reachable state the report is that of the entry: established exactly with a login time, the session's expiry, and with no flight open the last recipe call's error |
| Store.InvalidatedIsDue | internal/store/store.go:219-223 | in every reachable state, as long as the last write is the invalidation by a failed Refresh, a sweep with a positive `within` finds the identity due |
| Store.FailedRefreshIsDue | internal/store/store.go:219-223 | in particular right after a Refresh that ran by itself and failed |
| Recipes.ExpiresLater | internal/recipe/recipe.go:23-36 | for every positive 64-bit lifetime the product does not wrap: the expiry is later than now, exact up to the clamp, and monotone |
| Recipes.ClampIsNeeded | internal/recipe/recipe.go:27-34 | without the clamp some positive lifetime wraps to the past |
| Recipes.RefreshHolds | internal/recipe/oauth.go:36-110 | one refresh, through carry-forward and fallback, leaves exactly the refresh token that its token requests call for, and sends the one held |
| Recipes.RefreshFallsBack | internal/recipe/oauth.go:95-110 | a refused refresh grant is followed by exactly one password grant, whose success is the refresh's; a granted one by none |
| Recipes.RefreshWithoutToken | internal/recipe/oauth.go:96-98 | without a refresh token there is just the password grant |
| RecipeRuns.OAuthAuthorizes | internal/recipe/oauth.go:79-84 | the upstream is shown the access token of the answer that granted the session, as its one Authorization value |
| RecipeRuns.FormAuthorizes | internal/recipe/formpost.go:75-81 | with a session from a form login the upstream is shown the answer's access token and, after the client's, its cookies |
| RecipeRuns.RefreshTokenTracked | internal/recipe/oauth.go:66-110 | over every run of the store the refresh token held is the last non-empty one in an accepted answer since, and including, the last accepted password grant |
| RecipeRuns.AuthTrafficBound | internal/recipe/oauth.go:95-110 | the refreshes admitted in one window make at most 2 * maxBurst token requests, and an established identity never logs in from nothing |
| RecipeRuns.StoredMaterial | internal/store/store.go:210-227 | if every session granted carries a cookie or a bearer token, so does every session the entry ever holds, expired copies included |
| RecipeRuns.OAuthStoresMaterial | internal/recipe/oauth.go:66-71 | an OAuth2 identity never holds a session without a bearer token |
| RecipeRuns.ServedForItsLifetime | internal/recipe/oauth.go:79-84 | a session that OAuth2 was granted is returned by every Get that looks at the entry, without a recipe call, until the lifetime named has passed, clamped or not, and for good if none was named, unless Refresh calls the recipe |
| RecipeRuns.FormStoresMaterial | internal/recipe/formpost.go:82-88 | a form identity never holds a session without a cookie and without a token |
| RecipeRuns.MultiStepStoresMaterial | internal/recipe/multistep.go:166-172 | nor does a multistep identity |
| Recipes.FormEstablish | internal/recipe/formpost.go:63-88 | a form login without a cookie and without a token is an error, so what it yields carries material |
| Templates.ChainIsParallel | internal/recipe/multistep.go:179-187 | in every key order the chain of replacements replaces exactly the known tokens at once and leaves unknown ones verbatim, for brace-free names and literals and values in which no token begins |
| Templates.OpensTokenMeans | internal/recipe/multistep.go:184 | a token begins in a text if and only if some suffix of it agrees with a token as far as both go |
| Templates.LoneBracesOpenNothing | internal/recipe/multistep.go:184 | no token begins in a text whose every opening brace is followed by another character, as in JSON |
| Templates.SafeValueExactly | internal/recipe/multistep.go:179-187 | a value is substituted in parallel in every plain template and every order, beside other safe values, if and only if no token begins in it |
| Templates.Subst | internal/recipe/multistep.go:179-187 | the loop over the map yields the chain for some key order, hence the parallel substitution if no token begins in a value |
| Templates.OnlyOpenBraceIsUnsafe | internal/recipe/multistep.go:179-187 | all values spelled with a set of characters are substituted in parallel in every order if and only if the set lacks the opening brace |
| Templates.BraceCompletesToken | internal/recipe/multistep.go:179-187 | a template and a key order for which a value that is one brace spells another token |
| Templates.NestedTokenDependsOnOrder | internal/recipe/multistep.go:179-187 | a value that spells another variable's token makes the result depend on the order |
| MultiStep.RunSteps | internal/recipe/multistep.go:92-149 | each URL, form value and body sent is the chain of replacements, in some order, with the variables that the earlier responses set, and parallel if no token begins in one of them; the first failing step ends the flow |
| MultiStep.Establish | internal/recipe/multistep.go:71-172 | a session results if and only if all steps succeed and a cookie or token was captured; it carries just what was captured, its CSRF value rendered with the final variables |
| MultiStep.FlowGoesOn | internal/recipe/multistep.go:112-142 | the flow goes on if and only if no step goes unanswered, is answered with 400 or more, or has a rule that finds nothing |
| MultiStep.VariableHolds | internal/recipe/multistep.go:86-142 | a variable holds what the last rule of its name found; one that no rule sets does not exist, but for the password |
| Headers.HopByHop | internal/gateway/gateway.go:451-463 | the names dropped are the fixed ones and the canonical, trimmed, non-empty tokens of the value |
| Headers.SplitJoin | internal/gateway/gateway.go:456-461 | splitting a Connection value written as a list gives back its tokens |
| Headers.CanonTwice | internal/gateway/gateway.go:468 | canonicalising a header name twice changes nothing more |
| Headers.CanonMeans | internal/gateway/gateway.go:468 | a canonical name has a capital at the start and after each dash, and no other |
| Headers.CanonSame | internal/gateway/gateway.go:468 | two names become the same canonical one if and only if they differ at most in letter case |
| Headers.TokenCharMeans | internal/gateway/gateway.go:460 | the characters of a header name are those of section 3.2.6 of RFC 7230 |
| Headers.TrimMeans | internal/gateway/gateway.go:457 | trimming takes white space, and only that, from both ends |
| Headers.SplitMeans | internal/gateway/gateway.go:456 | splitting at commas loses nothing |
| Headers.CopyHeader | internal/gateway/gateway.go:465-475 | in every map order exactly the values of the names not dropped are appended, in order |
| Headers.Apply | internal/session/session.go:20-35 | in every map order: bearer token and CSRF value replace, cookies join the present line, pinned headers are appended |
| Headers.BuildHeaders | internal/gateway/gateway.go:328-341 | the headers sent are, name by name, the end-to-end client headers with the session's and then the policy's token set over them |
| Headers.CookieLineReads | internal/session/session.go:24-26 | read back by splitting at "; " and at the first "=", the Cookie line holds the cookies that were there and then the session's, in order |
| Headers.SessionCarried | internal/session/session.go:20-30 | the upstream gets one such Cookie line, and the session's bearer token and CSRF value in place of the client's |
| Headers.NeverForwarded | internal/gateway/gateway.go:330-447 | the nine connection-scoped names and the gateway's own two are never passed on; without a Connection header every other is |
| Headers.PassedOn | internal/gateway/gateway.go:451-475 | for a Connection header written as a list, every client header is passed on but the hop-by-hop ones, the listed ones and the gateway's own (section 6.1 of RFC 7230) |
| Headers.OneConnectionLine | internal/gateway/gateway.go:466 | all listed names are dropped for certain if and only if there is at most one Connection line |
| Headers.LaterLinesCovered | internal/gateway/gateway.go:466 | one request's listed names are all dropped if and only if what its later lines list is always hop-by-hop or listed on the first line |
| Paths.DecodeConcat | internal/gateway/gateway.go:320-321 | percent-decoding distributes over concatenation |
| Paths.EscapedPathDecodes | internal/gateway/gateway.go:321 | the escaped path of any URL is a valid encoding of its path |
| Paths.TrimBoth | internal/gateway/gateway.go:320-321 | trimming slashes before and after decoding agrees if and only if no encoded slash is left at the end |
| Paths.EscapedPathPreserved | internal/gateway/gateway.go:315-322 | the upstream sees the trimmed base and the client's escaped path byte for byte if and only if the trimmed escaped base does not end in an encoded slash |
| Paths.EscapeByteMeans | internal/gateway/gateway.go:321 | letters, digits and thirteen marks stand for themselves in a computed path, any other byte is two capital hexadecimal digits |
| Paths.SlashKept | internal/gateway/gateway.go:321 | slashes stay slashes in a computed path |
| Paths.PlainPathVerbatim | internal/gateway/gateway.go:315-322 | a client path of bytes that need no escape reaches the upstream byte for byte behind the trimmed base |
| Paths.PlainBaseVerbatim | internal/gateway/gateway.go:315-322 | under a base of such bytes the base too is shown as written, without its last slashes |
| Paths.EncodedSlashLost | internal/gateway/gateway.go:315-322 | under the base path /a%2F every client path reaches the upstream re-encoded |
| Gateway.NewCSRFPolicy | internal/gateway/gateway.go:46-63 | a pattern that does not compile is an error; otherwise the methods are the trimmed, upper-cased, non-empty ones, or the state-changing four if there are none |
| Gateway.Gateway.Serve | internal/gateway/gateway.go:190-307 | the outcome of one request for every choice of answers: attempts, reauthentication, retry, token choice; POST and PATCH in any letter case are delivered once, and after a successful reauthentication GET, HEAD, PUT, DELETE, OPTIONS and TRACE, and only they, are retried; the client gets an answer if and only if some attempt was answered whole, namely the answer to the last such attempt, and the audit record has its status; nothing is sent for a refused or unreadable request |
| Gateway.Gateway.Exchange | internal/gateway/gateway.go:230-292 | one attempt, then a reauthentication if and only if the answer looks logged out, then one retry if and only if that succeeded and the method is one of the six that may be retried, in any letter case; every successful reauthentication is in the log by which the cache is right, retry or not; attempts and reauthentication go as the store and the upstream would have it |
| Gateway.Gateway.ForwardOnce | internal/gateway/gateway.go:314-358 | a request is sent whenever it can be built and, for a managed identity, store.Get returns a session; it has the client's method, query and body, the joined path, and the headers of the pipeline for that very session, and its answer is the upstream's |
| Gateway.DeliveredOnce | internal/gateway/gateway.go:252-292 | at most two deliveries and one store.Refresh; two only for an idempotent method after a logout signal and a refresh that succeeded, with the same method, URL, query and body |
| Gateway.MethodsRetried | internal/gateway/retry.go:6-15 | the methods written out, in any letter case: which are delivered once and which are retried |
| Gateway.MatchesMeans | internal/recipe/signature.go:16-31 | an answer looks logged out by its status, by what its first Location line holds, or by what its body holds; an empty criterion never applies |
| Gateway.NormalizedCovers | internal/gateway/gateway.go:51-56 | a configured method covers requests up to letter case and surrounding space |
| Gateway.DefaultCovers | internal/gateway/gateway.go:57-61 | by default POST, PUT, DELETE and PATCH are covered, in any letter case, and no other |
| Gateway.LastDeliveryWins | internal/gateway/gateway.go:283-306 | an answer found from the end of the attempts is that of the last attempt answered whole, for any number of attempts |
| Gateway.RetryToken | internal/gateway/gateway.go:273-283 | the retry of a covered request carries a token fetched after the reauthentication, or, if fetching failed, the first one |
| Gateway.RetrySession | internal/gateway/gateway.go:264-287 | the two deliveries carry the sessions of two calls of store.Get, one before the reauthentication and one after it |
| GatewayRuns.RetryCarriesRenewed | internal/gateway/gateway.go:264-287 | over every run of the store that makes those calls, a retry never carries the session found dead: it carries a newer object, committed after the first had been handed out |
| Gateway.Gateway.CSRFTokenFor | internal/gateway/gateway.go:360-400 | the cache goes on holding exactly the tokens still good by the log: fetched last and not followed by a reauthentication |
| Gateway.Gateway.InvalidateCSRF | internal/gateway/gateway.go:402-409 | after a reauthentication, dropping the identity's token and no other makes the cache right again |
| Gateway.ServedIsLive | internal/gateway/gateway.go:360-400 | every token served was fetched less than thirty seconds ago, and no reauthentication lies between |
| Gateway.FetchesApart | internal/gateway/gateway.go:360-400 | two fetches for one identity are thirty seconds apart unless it reauthenticated between them |
| TokenRace.NeverStale | internal/gateway/gateway.go:360-409 | with any number of concurrent requests, no token from before a reauthentication is served from the cache after the drop that follows it, if no fetch begun with an earlier session is open whenever the token is dropped |
| TokenRace.ServedWhileYoung | internal/gateway/gateway.go:366-371 | a request is served from the cache exactly if there is a token stored less than thirty seconds ago |
| TokenRace.DropSafeExactly | internal/gateway/gateway.go:366-409 | after a drop no stale token is served, however the requests go on, if and only if no fetch begun with an earlier session was open at that moment |
| TokenRace.StaleTokenServed | internal/gateway/gateway.go:366-409 | a run in which one request fetches, another reauthenticates and drops the token, and a third is served the old one |

## Left out

- Concurrency across requests in the class Gateway: it serves requests one at a time, and its cache theorems are about that; TokenRace has the cache of one identity, and Protocol the store, with full concurrency.
- The store's own lock, `lookup` and `ErrUnknownIdentity`, and re-registration of an identity: the map is fixed after start-up (cmd/daemon.go:118-121).
- A host clock before 1970: runs start later than `time.Unix(0, 1)`, the instant that marks an expired copy.
- Monotonic clock readings, and the saturation of `time.Since` in the token cache.
- Store.Store.RefreshExpiring: without concurrent callers, and each entry's clock is its own nondecreasing view; Store.Store.Health, too, reads entries that are at rest.
- Templates.Subst: for values in which a token begins it is the chain of some key order; which one, Go leaves open.
- Cookie sanitising in `AddCookie`, leading-slash repair in `URL.String`, `*` and empty request targets, and Unicode white space or case mapping outside ASCII.
- Inbound, upstream and session header names are taken in canonical form, as net/http delivers them; no recipe sets session headers.
- Bodies, regular expressions, JSON and extract rules: their results are inputs.
- The Host, Origin, Sec-Fetch-Site and token guards are one verdict; request cancellation, transport retries and TLS are not modelled.
- The browser recipe, replay, corpus loading, the control socket, the command line and configuration.
