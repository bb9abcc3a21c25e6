# A verified model of the credential service

This project models, in Dafny, the part of the service that decides: verification of credentials and delegation
chains, the issuer's handlers that create them, the gateway that authorizes requests with them and caches its
decisions, the sliding-window rate limiter, OpenID4VP response handling, the policy engine and its store, selective
disclosure, and the DID resolver cache. It proves what those components promise together, over all inputs and over
all runs.

`dafny verify dfyconfig.toml` checks everything.

## How the model is laid out

| file | what it holds |
|---|---|
| `Base.dfy`, `Instants.dfy`, `Credentials.dfy` | JSON values, time in integer nanoseconds, credentials and the collaborators of a verifier |
| `Tokens.dfy`, `Synthetic.dfy` | splitting and joining compact tokens; minting and reading synthetic JWTs |
| `Disclosures.dfy`, `DisclosureMeaning.dfy` | SD-JWT disclosures, built and applied; what that means |
| `Verify.dfy`, `VerifyMeaning.dfy` | verification of a credential and of a chain; what it means |
| `Chain.dfy`, `Formats.dfy` | attenuation, gluing, behaviour over time; the two payload formats |
| `Issuance.dfy`, `Delegation.dfy`, `IssuanceMeaning.dfy` | the issue and delegate handlers; what a path of their credentials verifies to; what each checks and whom it signs for |
| `Gateway.dfy`, `GatewayMeaning.dfy`, `GatewayRuns.dfy` | one decision; what it means; any number of requests in flight over one cache |
| `AuthorizeHandler.dfy`, `SequentialRuns.dfy` | one request handled start to end; what a few of them in a row show |
| `Limiter.dfy`, `LimiterWindows.dfy` | the Redis script over a sorted set, as an object; the windows for which it keeps its promises |
| `Policy.dfy`, `PolicyPanics.dfy`, `PolicyStore.dfy`, `PolicyMeaning.dfy` | the engine against a deny-overrides rule; when it panics; the store and its runs; what policies and the store mean |
| `Dcql.dfy`, `Presentations.dfy`, `PresentationRules.dfy`, `PresentationMeaning.dfy` | queries; response validation; its independence of map order; what it accepts and returns |
| `RequestStore.dfy`, `ReplayRuns.dfy` | the request store as an object, and response handlers in flight over it; the presentations they verify |
| `Resolver.dfy` | the DID resolver and its cache, alone and with lookups in flight |

The code that works step by step is modelled by methods with loops and by classes, each tied by its `ensures` to a
function of its inputs or its old state; the theorems are about those functions. The files named `...Meaning` say what
these functions decide in terms of raw fields, literal constants, the codec, the registry and the clock alone, so that
the two descriptions hold each other to account. Concurrency is modelled by state
machines whose steps are the handlers' own steps, interleaved in any order by a clock that never runs backwards.

Signatures, SHA-256, JSON and base64url are functions the model does not look inside. What a theorem needs of them
is written in its `requires` (`SigningLaws`, `SyntheticLaws`, `DisclosureLaws`): segments hold no separators and read
back, signatures made by the issuer's key verify, digests do not collide.

## Where the code is not what one would expect

* A VC-JWT without a positive `exp` is accepted after the `expires_at` its credential carries
  (`Formats.CarriedExpiryNotEnforced`). `Chain.LeafExpiryEndsInterval` says exactly when a chain does stop verifying at
  its leaf's expiry.
* The limiter's sorted set holds one member per timestamp, so requests with equal timestamps are not counted apart
  (`Limiter.EqualStampsAreFree`). Over clocks that may stand still the counting bound holds exactly when nothing is
  admitted, the window is empty, or the limit is one and the window at most an hour (`LimiterWindows.BoundExact`).
* Keys of the sorted set expire after an hour, while the window can be configured longer. Over clocks that tick between
  requests to a key, the counting bound, and refusal exactly when the window is full, hold on all runs exactly when the
  window is at most an hour, or nothing is admitted, or the limit exceeds the window less an hour, in nanoseconds
  (`LimiterWindows.SlidingWindowExact`, `LimiterWindows.RefusalExact`). Expiry changes no decision at all exactly in
  the first two cases and where the limit exceeds that by one more (`Limiter.ExpiryExact`), and nothing that is counted
  in the first two cases alone (`Limiter.CountsExact`).
* A policy whose `claim_equals` expects a list, or an object, makes evaluation panic where the claim is one of the same
  kind: Go cannot compare the two. Whether it does depends on the order in which Go walks the conditions
  (`PolicyPanics.PanicDependsOnOrder`). `PolicyPanics.EvaluationPanicsIff` says exactly which lists of policies can
  panic on an input, and `Gateway.StorePanicsIff` which tenants' stores; every other evaluation follows the
  deny-overrides rule. A request lost in this way is counted as a request and a cache miss and gets no outcome
  (`GatewayRuns.CountersConserved`); no run loses one exactly when no request may panic (`SequentialRuns.CrashlessIff`).
* The decision cache's key concatenates its fields, so different requests can share one (`Gateway.KeyInputsCollide`).
  Requests of two shapes can, exactly when the shapes differ and are equally long in all (`Gateway.ShapesCollideIff`).
  Whoever asks with the key of a request whose grant can be cached can be served that grant
  (`SequentialRuns.SharedKeyServes`, with one configuration in `SequentialRuns.CollidingKeysServeAnother`); hits serve
  the request asked, on all runs, exactly when no such key is shared (`SequentialRuns.HitsAreOwnIff`).
* A cached decision can be served after its leaf has expired, when deciding anew refuses it
  (`SequentialRuns.StaleHitServed`). A hit agrees with deciding anew exactly while no token of its chain has expired
  (`GatewayRuns.HitAgreesIff`), and an entry is served only before its leaf expires exactly when it was stored at the
  instant its lifetime was worked out or a whole default lifetime before (`GatewayRuns.ServedBeforeExpiryIff`). A
  resolved key can likewise be served for longer than the cache lifetime after it was produced
  (`Resolvers.LifetimeAloneIff`).
* The holder reported for an OpenID4VP response can depend on Go's map order (`PresentationRules.HolderDependsOnOrder`);
  `PresentationRules.HolderIndependentIff` says when it does not.
* `docs/OIDC4VP.md` asks for a stored request that is unused. The handler looks at that only after validation, and at
  whatever is stored by then: an answer validated against one request can use up another that was saved meanwhile
  (`ResponseRuns.StaleAnswerUsesUpNewSave`, `ResponseRuns.UsesUpItsOwnSaveIff` for exactly when it does not). Where no
  state is saved twice it never does (`ResponseRuns.FreshStatesUseTheirOwn`).
* The delegate handler checks expiry before it stamps, in nanoseconds. Rounding to whole seconds absorbs any delay below
  one second. After a second or more the handler can sign a child that verification rejects for its lifetime
  (`Delegation.LateStampRejected`); `Delegation.DelegationRunVerifies` says exactly when it does.

## Model

| member | source | states |
|---|---|---|
| `Tokens.SplitToken` | internal/domain/authz_bridge.go:159-172 | the one-pass splitter returns the parts at the dots: joined they give the token back, and none holds a dot |
| `Tokens.JoinOfSplit` | internal/domain/authz_bridge.go:159-172 | for every string and separator, joining the split restores the string and no part holds the separator |
| `Tokens.SplitIsUnique` | internal/domain/authz_bridge.go:159-172 | separator-free parts join to a string if and only if they are its split |
| `Tokens.CompactSplits` | internal/domain/authz_bridge.go:105-114 | a token of three dot-free segments splits into exactly those |
| `Tokens.ParseSDJWTInvertsJoin` | internal/domain/vc_verify.go:275-285 | parsing `credential~d1~...~dn` gives the credential and disclosures back if and only if none holds a `~` |
| `Synthetic.BuildSyntheticJWT` | internal/domain/authz_bridge.go:59-115 | minting, with its four refusals in order, the payload map filled entry by entry, and failures to encode or sign |
| `Synthetic.DecodeSyntheticJWT` | internal/domain/authz_bridge.go:118-133 | decoding the middle segment, and its errors |
| `Synthetic.DecodeMeans` | internal/domain/authz_bridge.go:118-133 | a token decodes to claims if and only if the second of three parts is a JSON object, or null for none; otherwise which of the two errors |
| `Synthetic.VerifySyntheticJWTSignature` | internal/domain/authz_bridge.go:136-157 | the signature check, and which of its four errors comes first |
| `Synthetic.MintedTokenReadsBack` | internal/domain/authz_bridge.go:59-157 | a minted token splits in three, decodes to the claims minted, verifies under the signer's key, and expires less than a second before `ttl` is over |
| `Synthetic.PayloadMeans` | internal/domain/authz_bridge.go:77-92 | what a token says: issuer, subject, depth, the second it is minted in, the second its lifetime ends in, on whose behalf and with what scope, and nothing else |
| `Synthetic.MintedIff` | internal/domain/authz_bridge.go:59-115 | which of the six refusals comes, else the signed text of the EdDSA header and the payload |
| `Synthetic.SignatureMeans` | internal/domain/authz_bridge.go:136-157 | a signature is accepted if and only if it decodes and verifies over the first two of three parts under an Ed25519 key; otherwise which error |
| `Instants.UnixComparisons` | internal/domain/vc_verify.go:184-191 | comparisons of whole seconds decide exactly what comparisons of nanoseconds decide |
| `Disclosures.ResolveDisclosures` | internal/domain/vc_helpers.go:26-54 | the first loop: the claims disclosed, or the error of the first bad disclosure |
| `Disclosures.CheckCoverage` | internal/domain/vc_helpers.go:56-71 | whatever order the digest set is walked in, it passes if and only if every digest is that of some disclosure |
| `Disclosures.ApplySDJWTDisclosures` | internal/domain/vc_helpers.go:17-81 | the whole procedure, tied to `Apply` |
| `Disclosures.BuildDisclosures` | internal/domain/vc.go:278-288 | one disclosure and one digest for each claim under its own salt; nothing at all if a salt cannot be drawn or a claim not marshalled |
| `Disclosures.DisclosureVerdict` | internal/domain/vc_helpers.go:17-81 | disclosures drawn in any order with repeats: foreign ones give the invalid-disclosure error, an item left out the missing-disclosure error, otherwise exactly the built claims are written over the old ones |
| `Disclosures.SameClaims` | internal/domain/vc_helpers.go:26-54 | neither the order nor the repetition of disclosures changes the claims they stand for |
| `DisclosureMeaning.ApplyMeans` | internal/domain/vc_helpers.go:17-81 | disclosures are accepted if and only if each decodes to a salted array whose digest the credential carries and each digest is that of one; the claims are then what the last disclosure of each key says, else what they were |
| `DisclosureMeaning.ApplyErrors` | internal/domain/vc_helpers.go:17-81 | each error if and only if the first disclosure that does not belong is malformed, is foreign, or none is and a digest goes unanswered |
| `Verify.VerifySingleCredential` | internal/domain/vc_verify.go:126-273 | both branches, field by field, with every error in its place |
| `VerifyMeaning.WrappedAcceptedIff` | internal/domain/vc_verify.go:139-206 | a VC-JWT verifies to a credential if and only if there are three parts and the Ed25519 key of `vc.issuer` signed the first two, `exp` and `iat` permit it to the nanosecond, the disclosures fit, the `aud` claim is the one expected, and the credential is the payload field by field |
| `VerifyMeaning.FlatAcceptedIff` | internal/domain/vc_verify.go:208-273 | the same for a flat payload, whose issuer, subject and times are its legacy fields where it has them |
| `VerifyMeaning.VerifiesIff` | internal/domain/vc_verify.go:126-273 | a token verifies to a credential if and only if one of the two holds |
| `VerifyMeaning.RefusedWith` | internal/domain/vc_verify.go:126-273 | the error is that of the first thing wrong: shape, key, signature, expiry, issue time, disclosures, audience |
| `Verify.ScopeFromClaims` | internal/domain/vc_verify.go:289-314 | the scopes a credential claims, in order, from any of the three spellings |
| `VerifyMeaning.ScopeMeans` | internal/domain/vc_verify.go:289-314 | the scopes are exactly the string the claim is, or the strings its list holds |
| `VerifyMeaning.ScopeInOrder` | internal/domain/vc_verify.go:289-314 | their order and repetition are the claim's: lists concatenate, items that are no strings vanish |
| `Verify.IsScopeSubset` | internal/domain/delegation.go:24-40 | the loop over the parent's set answers set inclusion |
| `Verify.VerifyCredentialChain` | internal/domain/vc_verify.go:55-115 | the loop computes `VerifyChain`, the same result or the same error |
| `VerifyMeaning.ChainAcceptedIff` | internal/domain/vc_verify.go:55-115 | a chain is accepted with given credentials, the last one's subject and the first one's delegator if and only if each token verifies to its credential, the last for the audience, no child claims a scope or a lifetime its parent lacks, and there are no more delegations than allowed, three by default |
| `VerifyMeaning.ChainRefusedWith` | internal/domain/vc_verify.go:63-112 | the error of the first token that does not verify or first link that is too deep, else too wide, else too long |
| `Chain.AcceptedIff` | internal/domain/vc_verify.go:55-115 | a chain is accepted if and only if each token verifies by itself and each neighbouring pair is a permitted delegation |
| `Chain.FinalDepthCheckNeverFires` | internal/domain/vc_verify.go:110-112 | a chain's verdict is the loop's: once the loop is through, the last depth check cannot fail |
| `Chain.Attenuation` | internal/domain/vc_verify.go:83-101 | in an accepted chain every credential's scopes lie within every ancestor's and it expires no later |
| `VerifyMeaning.NoneExceedsAnAncestor` | internal/domain/vc_verify.go:83-101 | the same over the claims' own scopes and expiry instants: no credential claims a scope, or a lifetime, that any credential before it lacks |
| `Chain.SubchainAccepted` | internal/domain/vc_verify.go:63-112 | every contiguous piece of an accepted chain is accepted when no audience is expected, with the same credentials |
| `Chain.Glue` | internal/domain/vc_verify.go:63-112 | two accepted chains sharing an end credential glue into an accepted chain exactly when the joint depth is allowed; otherwise depth is the error |
| `Chain.ChainOverTime` | internal/domain/vc_verify.go:183-191 | a chain accepted once is accepted at exactly the times every token's window covers, always with the same result |
| `Chain.StableUntilLeafExpiry` | internal/domain/vc_verify.go:96-101 | from acceptance on, the result stays the same for as long as the leaf has not expired |
| `Chain.ValidityInterval` | internal/domain/vc_verify.go:250-257 | the times at which a chain verifies are one interval: from the latest issue time less a minute to the leaf's expiry alone |
| `Chain.LeafExpiryEndsInterval` | internal/domain/vc_verify.go:149-186 | verification ends at the leaf's expiry if and only if some token enforces that very expiry |
| `Formats.FormatsAgree` | internal/domain/vc_verify.go:139-272 | a VC-JWT and a flat payload of the same content get the same verdict and error at every nanosecond |
| `Formats.ChainFormatsAgree` | internal/domain/vc_verify.go:55-273 | rewriting any tokens of a chain in the other format leaves its error, or its credentials' issuers, subjects, claims and times, unchanged at every nanosecond |
| `Formats.CarriedExpiryNotEnforced` | internal/domain/vc_verify.go:153-186 | a concrete VC-JWT accepted long after the expiry its credential carries |
| `Issuance.AnnotateFormat` | internal/domain/vc.go:304-349 | issue, read back, annotate and sign again; each of the four ways of falling back to the first token, and failures to encode or sign |
| `Issuance.HandleIssue` | internal/httpserver/issuer_handlers.go:66-151 | the issue handler's checks in order, the key store and the building of disclosures among them, its lifetime cap, and what it signs |
| `IssuanceMeaning.IssueChecks` | internal/httpserver/issuer_handlers.go:66-151 | which check fails first, in terms of the request and the policy alone: lifetimes are more than nothing and at most 86400 seconds or the policy's limit; past them the request's subject and claims are signed |
| `IssuanceMeaning.IssuedVerifies` | internal/httpserver/issuer_handlers.go:66-151 | what is signed verifies, wherever the tenant's key is known and while it lives, as the tenant's credential for the subject of the request, with its claims, id and times; afterwards as expired |
| `IssuanceMeaning.DIDMeans` | internal/domain/vc.go:418-446 | a DID is valid if and only if it has at most 1000 characters and reads `did:name:rest` with neither empty |
| `Issuance.HandleDelegate` | internal/httpserver/issuer_handlers.go:190-284 | the delegate handler's checks in order, the key store among them, and what it signs |
| `IssuanceMeaning.DelegateChecks` | internal/httpserver/issuer_handlers.go:190-284 | which check fails first; past them the parent is alive and signed by the tenant itself, and scope, lifetime and policy permit what is signed for the delegate |
| `IssuanceMeaning.DelegatedVerifies` | internal/httpserver/issuer_handlers.go:190-284 | what is signed verifies, while it lives, as the tenant's credential for the delegate, with just the scope asked for, all of it the parent's, the parent's id and audience, and an expiry that exceeds the parent's by no more than the stamping delay |
| `Delegation.IssuedTokenCarries` | internal/domain/vc.go:304-349 | an issued token carries the payload it was issued for, under the issuer's signature |
| `Delegation.DelegateStep` | internal/httpserver/issuer_handlers.go:240-284 | after any delay the child stays within the parent's scopes and keeps its audience; its link is permitted exactly when its stamped expiry is no later than the parent's, otherwise its lifetime is the error; a delay below a second is always in time |
| `Delegation.LateStampRejected` | internal/httpserver/issuer_handlers.go:262-284 | a two-token path that the handlers sign with a delay of one second and verification rejects for its lifetime while both tokens are alive |
| `Delegation.DelegationRunVerifies` | internal/httpserver/issuer_handlers.go:73-284 | a path of one issue and any number of delegate steps, whatever their delays: until its leaf expires it is accepted exactly when the verifier allows the depth and every step stamped in time; while all are alive the first link too deep or too late gives the error; it keeps the root's `aud` |
| `Delegation.PromptRunVerifies` | internal/httpserver/issuer_handlers.go:73-284 | where every step stamps within a second of its check the path is accepted until its leaf expires, within a day of the root, exactly when the depth is allowed |
| `Gateway.DecisionStable` | internal/httpserver/gateway_handlers.go:139-210 | a granted decision is the decision at every later instant before the leaf expires |
| `Gateway.RefusalCodes` | internal/httpserver/gateway_handlers.go:155-189 | refusals are never allowed nor labelled invalid or rate limited; grants are allowed |
| `Chain.SignedByItsIssuer` | internal/domain/vc_verify.go:162-181 | a verified credential is signed with the Ed25519 key its own issuer resolves to |
| `Gateway.GrantedIff` | internal/httpserver/gateway_handlers.go:139-210 | a decision is a grant if and only if the tokens form an accepted chain and the engine allows its leaf; then every issuer in it is trusted by the tenant and signed its credential |
| `GatewayMeaning.GrantMeans` | internal/httpserver/gateway_handlers.go:157-190 | a request is granted if and only if its tokens form a chain of at most three delegations by issuers the tenant trusts and the engine allows the question: may the leaf's subject, acting for the root's, with the leaf's scopes and claims, do this to that |
| `GatewayMeaning.AnswerMeans` | internal/httpserver/gateway_handlers.go:173-223 | the answer to such tokens, field by field: the leaf's subject, on behalf of the root's, with its `scope` and `roles` claims and the agent acting for the one before; or a denial that tells only the policy; or the engine's failure |
| `GatewayMeaning.RefusalMeans` | internal/httpserver/gateway_handlers.go:312-325 | each verification error has its one of four codes, and nothing else is told |
| `GatewayMeaning.PanicMeans` | internal/httpserver/gateway_handlers.go:177-190 | the engine may panic over a request if and only if its tokens present credentials about whose question it may |
| `GatewayMeaning.StoreGrantIff` | internal/httpserver/gateway_handlers.go:157-190 | with the engine over a policy store of any history, a request is granted if and only if the tenant has an allowing policy on file for the question and no denying one |
| `GatewayMeaning.RequestMeans` | internal/httpserver/gateway_handlers.go:327-358 | a request asks with its list or its single token, and is valid if and only if it names a resource and an action of at most 512 characters and its tokens have 1 to 8192 |
| `GatewayMeaning.CachedFor` | internal/httpserver/gateway_handlers.go:420-437 | a grant is cached for the longest time that exceeds neither a minute nor what the leaf has left |
| `GatewayMeaning.MintedFor` | internal/httpserver/gateway_handlers.go:236-237 | a synthetic token is stamped with the second it is minted in and expires 900 seconds later |
| `Gateway.GrantNeedsAllow` | internal/httpserver/gateway_handlers.go:157-210 | with the engine over a policy store of any history, a grant names a matching allow of the tenant's and no matching deny exists |
| `Gateway.BuildCacheKey` | internal/httpserver/gateway_handlers.go:377-390 | the running hash is fed the fields in turn |
| `GatewayMeaning.KeyMeans` | internal/httpserver/gateway_handlers.go:377-390 | the key hashes the tokens one after the other, then tenant, resource, action, audience, and a word for a synthetic token |
| `Gateway.KeyInputsCollide` | internal/httpserver/gateway_handlers.go:377-390 | two different requests with one key input |
| `Gateway.KeyInputIdentifies` | internal/httpserver/gateway_handlers.go:377-390 | among requests whose fields have the same lengths, key inputs are equal if and only if the requests are |
| `Gateway.ShapesCollideIff` | internal/httpserver/gateway_handlers.go:377-390 | two different requests of two given shapes can have one key input if and only if the shapes differ and their total lengths agree |
| `GatewayRuns.RunSound` | internal/httpserver/gateway_handlers.go:115-252 | in every run, every cached or pending grant is the decision for its own request when it was decided, and every entry was given a lifetime worked out from its leaf |
| `GatewayRuns.CacheCoherence` | internal/httpserver/gateway_handlers.go:139-250 | each cache hit serves the request asked and, until the leaf expires, answers what deciding anew at that instant would answer; it may come after the leaf's expiry by less than the storing delay |
| `GatewayRuns.HitIsEarlierDecision` | internal/httpserver/gateway_handlers.go:139-250 | every hit answers what the decision for its grant's request was, by the storing delay, before |
| `GatewayRuns.HitAgreesIff` | internal/httpserver/gateway_handlers.go:139-250 | on every run a hit is what deciding its grant's request anew would answer if and only if no token of the chain has expired by then; if one has, deciding anew refuses |
| `GatewayRuns.ServedBeforeExpiryIff` | internal/httpserver/gateway_handlers.go:409-437 | every instant at which an entry may be served lies before its leaf's expiry if and only if it was stored when its lifetime was worked out, or at least the default lifetime before that expiry |
| `GatewayRuns.CachedTokenBound` | internal/httpserver/gateway_handlers.go:236-250 | a synthetic token served from the cache has more than 839 seconds left, less the time from minting to storing |
| `GatewayRuns.OnlyAllowsAreCached` | internal/httpserver/gateway_handlers.go:249-250 | every stored response is an allow |
| `GatewayRuns.OnlyValidAreDecided` | internal/httpserver/gateway_handlers.go:117-126 | in every run only requests that name tokens, a resource and an action within their lengths are admitted, decided, cached or served |
| `GatewayRuns.RunBalanced` | internal/httpserver/gateway_handlers.go:115-250 | in every state of a run, requests equal outcomes and panics plus open requests, and lookups plus early denies plus waiting requests |
| `GatewayRuns.CountersConserved` | internal/httpserver/gateway_handlers.go:115-250 | with nothing in flight, requests = allows + denies + engine failures + panics, so the panics are all that can be missing, and hits + misses = requests less the denies before the cache |
| `AuthorizeHandlers.AuthorizeHandler.Judge` | internal/httpserver/gateway_handlers.go:157-210 | verification and then the engine yield `Decide`, or a panic of the engine and nothing |
| `AuthorizeHandlers.AuthorizeHandler.Authorize` | internal/httpserver/gateway_handlers.go:101-252 | the handler leaves cache and counters where the machine's steps do, and replies with what was decided or cached, or not at all after a panic |
| `AuthorizeHandlers.CountedAsTold` | internal/httpserver/gateway_handlers.go:115-256 | over a cache of grants, the last thing counted for a request is what its caller is told: an allow, a denial with its code, an engine failure, or nothing after a panic |
| `AuthorizeHandlers.AuthorizedIsReachable` | internal/httpserver/gateway_handlers.go:101-252 | handling a request takes a reachable gateway to a reachable one, so the theorems on runs hold of it |
| `SequentialRuns.SharedKeyServes` | internal/httpserver/gateway_handlers.go:139-154 | for every configuration and two valid requests with one key, the first of which is granted and cacheable, a run in which the second is served the first's grant |
| `SequentialRuns.HitsAreOwnIff` | internal/httpserver/gateway_handlers.go:139-250 | over all runs of given valid requests, every hit serves the request asked if and only if no cacheable one shares its key with another |
| `SequentialRuns.CollidingKeysServeAnother` | internal/httpserver/gateway_handlers.go:139-154 | a run in which a hit answers a request with the grant decided for another, where its own decision is a refusal |
| `SequentialRuns.StaleHitServed` | internal/httpserver/gateway_handlers.go:139-250 | a run in which a hit allows a request at the instant its only credential expires, where deciding anew refuses it |
| `SequentialRuns.CrashlessIff` | internal/httpserver/gateway_handlers.go:180-189 | over all runs of given valid requests, none is lost to a panic if and only if none of them may panic |
| `Limiter.RedisLimiter.Allow` | internal/ratelimit/redis_limiter.go:67-110 | the answer is the script's verdict on the key's whole history; other keys are untouched; a call that fails changes nothing, or has counted its request if only the reply was lost |
| `Limiter.ScriptMeans` | internal/ratelimit/redis_limiter.go:81-98 | the script admits if and only if fewer than the limit of the times kept are later than the window before, unless the key has expired; it then keeps this one with them for 3600 seconds, else only lets go of what is too old |
| `Limiter.SameCounted` | internal/ratelimit/redis_limiter.go:82-95 | the pruned set equals that of a limiter whose keys never expire, and the admissions within the window |
| `Limiter.ExpiryInvisible` | internal/ratelimit/redis_limiter.go:82-95 | with a window of at most an hour, key expiry never changes a decision |
| `Limiter.ExpiryExact` | internal/ratelimit/redis_limiter.go:82-95 | expiry changes no decision on any run if and only if the window is at most an hour, the limit admits nothing, or the limit is above the window less an hour plus one |
| `Limiter.CountsExact` | internal/ratelimit/redis_limiter.go:82-95 | what is counted is the same on all runs if and only if the window is at most an hour or the limit admits nothing |
| `LimiterWindows.DistinctBoundExact` | internal/ratelimit/redis_limiter.go:81-98 | on every run at most `requests` distinct admission times lie in any half-open interval as long as the window, if and only if the window is at most an hour, nothing is admitted, or the limit exceeds the window less an hour |
| `LimiterWindows.SlidingWindowExact` | internal/ratelimit/redis_limiter.go:67-110 | over increasing timestamps no such interval holds more than `requests` admissions, on all runs, if and only if that same condition holds |
| `LimiterWindows.RefusalExact` | internal/ratelimit/redis_limiter.go:88-98 | over increasing timestamps a request is refused exactly when `requests` admissions lie in the window that ends with it, on all runs, if and only if that same condition holds |
| `Limiter.EqualStampsAreFree` | internal/ratelimit/redis_limiter.go:92-94 | with any limit of two or more and any window, any number of requests at one instant are all admitted |
| `LimiterWindows.BoundExact` | internal/ratelimit/redis_limiter.go:81-98 | over clocks that may stand still the counting bound holds on every run if and only if nothing is admitted, the window is empty, or the limit is one and the window at most an hour |
| `Policies.FilterMatchingPolicies` | internal/policy/engine_impl.go:61-83 | the matching policies, in list order, each one's conditions walked in an order of its own; nothing if a comparison panics |
| `Policies.CheckScope` | internal/policy/engine_impl.go:184-226 | the search with a flag, for one string or for every string of a list |
| `Policies.CheckConditions` | internal/policy/engine_impl.go:156-182 | the conditions in a given order up to the first that fails or panics |
| `Policies.WalkAnswers` | internal/policy/engine_impl.go:156-182 | in whatever order, a walk that does not panic answers whether all conditions hold, and only a comparison of two lists or two objects panics |
| `PolicyPanics.WalkPanicsIff` | internal/policy/engine_impl.go:228-258 | some order of walking a policy's conditions panics if and only if its `claim_equals` is an object with a key whose claim is of the same composite type |
| `PolicyMeaning.EndangersMeans` | internal/policy/engine_impl.go:61-83 | said of the policy's own fields: enabled, naming action, resource and subject, and expecting of a claim that is there a list or an object of its own kind |
| `PolicyPanics.PanicDependsOnOrder` | internal/policy/engine_impl.go:161-180 | one policy and one request for which one order panics and the other fails |
| `Policies.EvaluatePolicies` | internal/policy/engine_impl.go:31-58 | filter, sort and scan compute `Evaluate`, or panic in the filter |
| `Policies.EvaluateDenyOverrides` | internal/policy/engine_impl.go:31-58 | the result is the deny-overrides rule: the least (priority, id) matching deny, else the least matching allow, else deny with no policy |
| `PolicyMeaning.MatchesMeans` | internal/policy/engine_impl.go:61-258 | a policy matches a request if and only if it is enabled, names its action in any letter case, its resource or a prefix of it before `*`, its subject, anyone or a role it holds, and has only the two kinds of condition, both met, said of the policy's own fields |
| `PolicyMeaning.EvaluateMeans` | internal/policy/engine_impl.go:31-58 | whatever the list's order: the applying deny of least priority and id denies; else such an allow allows; else the request is denied, and why; effects are read in any letter case |
| `PolicyMeaning.PlainPolicy` | internal/policy/engine_impl.go:31-58 | an enabled, unconditional policy that spells the request out denies it against whatever allows, or allows it if nothing denies |
| `PolicyPanics.EvaluationPanicsIff` | internal/policy/engine_impl.go:21-83 | some orders of walking make an evaluation panic if and only if an enabled policy that matches action, resource and subject compares composites; all others give the deny-overrides result |
| `Gateway.StorePanicsIff` | internal/policy/engine_impl.go:21-83 | over a store with any history, the same for exactly the tenant's policies |
| `Policies.DenyOverridesDetermines` | internal/policy/engine_impl.go:31-58 | the rule allows only one result |
| `Policies.EvaluateIgnoresOrder` | internal/policy/engine_impl.go:36-41 | lists with the same policies, in any order and with any repetition, get the same decision |
| `PolicyStore.MemoryStore.CreatePolicy` | internal/policy/store_memory.go:49-73 | the new state, id and times of a created policy; the index stays valid |
| `PolicyMeaning.CreateMeans` | internal/policy/store_memory.go:49-73 | a policy is filed under the next id with both its times, all else as given, and nothing else on file changes |
| `PolicyStore.MemoryStore.UpdatePolicy` | internal/policy/store_memory.go:76-99 | an existing entry is replaced and keeps its creation time unless given one |
| `PolicyMeaning.UpdateMeans` | internal/policy/store_memory.go:76-99 | the tenant's policy of that id is replaced, with the time it was created at unless given one, and nothing else on file changes; otherwise the error |
| `PolicyStore.MemoryStore.GetPolicy` | internal/policy/store_memory.go:102-112 | the entry filed under tenant and id, or not found |
| `PolicyStore.MemoryStore.DeletePolicy` | internal/policy/store_memory.go:115-130 | exactly that entry goes, or not found |
| `PolicyMeaning.DeleteMeans` | internal/policy/store_memory.go:115-130 | one policy goes and every other stays; not found if and only if there is none |
| `PolicyStore.MemoryStore.ListPoliciesForTenant` | internal/policy/store_memory.go:24-46 | whatever order the map is walked in, the list is the one `ListFor` gives |
| `PolicyStore.SortIsCanonical` | internal/policy/store_memory.go:38-43 | sorting policies with distinct ids gives one list for all orders |
| `PolicyStore.ListIsTenantsInOrder` | internal/policy/store_memory.go:24-46 | the list is exactly the tenant's entries in strictly increasing (priority, id) order |
| `PolicyMeaning.ListMeans` | internal/policy/store_memory.go:24-46 | after any run the list is what the tenant has on file, each once, by priority and then id |
| `PolicyMeaning.FiledWasGiven` | internal/policy/store_memory.go:49-99 | after any run whatever a tenant has on file was given in a create or update for that tenant, but for its id and times |
| `PolicyStore.RunValid` | internal/policy/store_memory.go:49-130 | after any run ids are unique across tenants and below the counter, each entry filed under its own |
| `PolicyStore.IDsNeverReused` | internal/policy/store_memory.go:61-62 | an id once assigned is never assigned again and was in use nowhere |
| `PolicyMeaning.NextIDMeans` | internal/policy/store_memory.go:19-73 | after any run the next id is one more than the number of policies created, for all tenants together |
| `PolicyStore.TenantsDoNotInterfere` | internal/policy/store_memory.go:49-130 | an operation on one tenant changes neither another's list nor any of its decisions |
| `PolicyStore.StoredDecision` | internal/policy/engine_impl.go:21-59 | after any run the engine's decision is the deny-overrides rule over exactly the tenant's entries |
| `Dcql.ValidateQuery` | internal/oidc4vp/types.go:96-133 | the error of the first offence; none if and only if the query is well-formed |
| `Dcql.QueryAcceptedIff` | internal/oidc4vp/types.go:96-133 | no offence if and only if ids are distinct and proper, and formats, metas, paths and options are given |
| `PresentationMeaning.RequestErrors` | internal/oidc4vp/types.go:79-133 | the error of a request: a missing parameter, else what is wrong first with its first offending query, else an empty choice |
| `Dcql.QueryMapLossless` | internal/oidc4vp/validation.go:62-68 | the query map holds every query if and only if queries with one id are one query |
| `Presentations.VerifyCredentialSetRequirements` | internal/oidc4vp/validation.go:171-211 | the nested loops answer the selection rule of section 6.4.2 of OpenID for Verifiable Presentations 1.0 |
| `PresentationMeaning.SelectionMeans` | internal/oidc4vp/validation.go:171-211 | the rule in terms of the queries' own fields: something for each query, or for all of a non-empty option of each set not marked optional |
| `Presentations.ContainsAll` | internal/oidc4vp/validation.go:446-464 | every required item is a non-empty string among the actual ones |
| `Presentations.ValidateTypeValues` | internal/oidc4vp/validation.go:404-423 | passes if and only if some option names only types the credential has |
| `Presentations.LookupClaimPath` | internal/oidc4vp/validation.go:488-502 | the value at the path, or nothing |
| `PresentationMeaning.ClaimMeans` | internal/oidc4vp/validation.go:466-502 | a claim query is met if and only if a trail of nested objects along its path ends in a value asked for |
| `Presentations.ValidateClaimQueries` | internal/oidc4vp/validation.go:466-486 | passes if and only if every claim query is met; otherwise the first one not met gives the error |
| `Presentations.ValidateResponse` | internal/oidc4vp/validation.go:37-129 | the nested loops, entries visited in a given order and the clock read at each check, compute `Validate` |
| `PresentationMeaning.ResponseErrors` | internal/oidc4vp/validation.go:37-84 | which check before the presentations fails first |
| `PresentationMeaning.TokenMeans` | internal/oidc4vp/validation.go:131-169 | the token is parsed to exactly the presentations it says: lists with nulls read as empty throughout, or strings and lists of non-empty strings throughout |
| `PresentationMeaning.OpensIff` | internal/oidc4vp/validation.go:213-381 | a presentation opens to a holder and tokens if and only if it is a bare credential where no binding is asked, or signed with EdDSA under the Ed25519 key of its `iss`, current, and, where binding is asked, addressed to the client with the request's non-empty nonce |
| `PresentationMeaning.UnopenedMeans` | internal/oidc4vp/validation.go:213-381 | the first thing wrong with a presentation that does not open is its error |
| `PresentationMeaning.FitsMeans` | internal/oidc4vp/validation.go:95-124 | a credential fits a query if and only if its token verifies for no audience, it is not revoked, has the types or the `vct` asked for, and makes every claim asked for, said of its fields |
| `PresentationMeaning.CredentialErrors` | internal/oidc4vp/validation.go:101-122 | the error of a credential: the verifier's, else no id, revoked, of the wrong type, or its first claim not met |
| `PresentationMeaning.ValidateMeans` | internal/oidc4vp/validation.go:37-129 | a response with a proper token is accepted if and only if every entry yields credentials for its query; it then returns under each id exactly those, as often as presented, and nothing else |
| `PresentationMeaning.ImproperRefused` | internal/oidc4vp/validation.go:37-84 | a response is accepted only with a proper request and token |
| `PresentationMeaning.BoundToRequest` | internal/oidc4vp/validation.go:229-258 | every accepted presentation of a VC-JWT query that requires binding is signed by its holder over this request's nonce and client, and current when read, so that none made for another request is accepted |
| `PresentationRules.OrderIrrelevant` | internal/oidc4vp/validation.go:85-126 | success and the multiset of (query id, credential) pairs depend neither on the order of visiting nor on the times of the checks, as long as the same presentations open and the same tokens verify at either time |
| `PresentationRules.AcceptedIffAcceptable` | internal/oidc4vp/validation.go:37-129 | a response is accepted if and only if request, selection, presentations and credentials all fit, each at its own reading of the clock, said without loops |
| `PresentationRules.ReturnedCredentialsFit` | internal/oidc4vp/validation.go:95-124 | every returned credential comes from a named token of a named presentation for the query of its id, and at the reading at which it was checked it verifies and meets type or vct, claims and, when strict, revocation |
| `PresentationRules.HolderIndependentIff` | internal/oidc4vp/validation.go:92-94 | the reported holder is the same for all orders if and only if all entries that name one name the same |
| `PresentationRules.HolderDependsOnOrder` | internal/oidc4vp/validation.go:92-94 | a concrete response whose holder differs with the order |
| `RequestStore.MemoryRequestStore.Save` | internal/oidc4vp/store.go:34-45 | the record is replaced and unused, dated if it had no expiry; an empty state changes nothing |
| `RequestStore.MemoryRequestStore.Get` | internal/oidc4vp/store.go:48-59 | the stored request, used or not, until after its expiry |
| `RequestStore.MemoryRequestStore.MarkUsed` | internal/oidc4vp/store.go:62-75 | an unused record becomes used; otherwise an error and no change |
| `RequestStore.SaveThenGet` | internal/oidc4vp/store.go:34-75 | a saved request is found as it was until after its expiry, five minutes by default; it is marked used once, which does not show when it is fetched, until saved again; other states notice none of it |
| `ResponseRuns.RunSound` | internal/httpserver/oidc4vp_handlers.go:73-121 | in every run a record is used if and only if an answer was verified since its Save, and every fetched request was saved and unexpired |
| `ResponseRuns.VerifiedWasValidated` | internal/httpserver/oidc4vp_handlers.go:73-121 | every verified answer was acceptable, at readings of the clock after its Get, for a request saved earlier under its state and unexpired at its Get |
| `ResponseRuns.SingleUse` | internal/oidc4vp/store.go:62-75 | between two verified answers for a state the state was saved again |
| `ResponseRuns.AnswersNeverExceedSaves` | internal/oidc4vp/store.go:34-75 | however handlers interleave, a state never gets more verified answers than Saves |
| `ReplayRuns.AnswerIsBound` | internal/httpserver/oidc4vp_handlers.go:73-121 | in every run a presentation that a verified answer returns, for a VC-JWT query that requires binding, is signed by its holder over the nonce of a request saved before |
| `ReplayRuns.NoReplay` | internal/httpserver/oidc4vp_handlers.go:73-121 | where every saved request has a state and a nonce of its own, no such presentation is verified in two answers, however the handlers interleave |
| `ResponseRuns.UsesUpItsOwnSaveIff` | internal/httpserver/oidc4vp_handlers.go:73-121 | the record a handler marks used comes from the very Save it fetched if and only if no Save of the state lies between its Get and its MarkUsed, and is then the request it validated against, unused |
| `ResponseRuns.FreshStatesUseTheirOwn` | internal/httpserver/oidc4vp_handlers.go:73-121 | where no state is saved twice every handler marks used the very request it validated against |
| `ResponseRuns.StaleAnswerUsesUpNewSave` | internal/httpserver/oidc4vp_handlers.go:73-121 | a run with a Save in between, in which the handler marks the second request used on the strength of the first |
| `Resolvers.MethodOfIff` | internal/domain/did_resolver.go:223-242 | a DID has a method if and only if it reads `did:name:rest` with a non-empty name |
| `Resolvers.RefusalMeans` | internal/domain/did_resolver.go:157-179 | which DIDs are refused, and with which error, in terms of their length and of reading `did:name:rest` |
| `Resolvers.LookupMeans` | internal/domain/did_resolver.go:181-208 | a lookup answers with the cached key until it expires, else as the resolver of `did:name`; just the key that gives is cached, for the configured seconds |
| `Resolvers.MethodMap` | internal/domain/did_resolver.go:119-154 | of several resolvers for a method the last is registered; none, a nil one, an empty method or no method at all is the error that comes first |
| `Resolvers.SetupMeans` | internal/domain/did_resolver.go:119-154 | the offence is that of the first resolver that is nil or lists an empty method, and there is none if and only if no resolver is either |
| `Resolvers.CompositeResolver.ResolvePublicKey` | internal/domain/did_resolver.go:157-211 | the answer is a refusal, what the DID's resolver says, or a key that resolver produced less than the cache lifetime and its storing delay before; the cache stays genuine |
| `Resolvers.LookupTimely` | internal/domain/did_resolver.go:157-211 | the same of a lookup as a function, over any genuine cache |
| `Resolvers.LifetimeAloneIff` | internal/domain/did_resolver.go:181-208 | an entry is served within the cache lifetime of its production, at every instant it may be served, if and only if it was stored when it was produced |
| `ResolverRuns.HandledIsLookup` | internal/domain/did_resolver.go:157-211 | the machine's steps for one lookup alone leave the cache and give the answer that the method does |
| `ResolverRuns.LookupIsReachable` | internal/domain/did_resolver.go:157-211 | handling a lookup takes a reachable cache to a reachable one, so the theorems on runs hold of it |
| `ResolverRuns.RunSound` | internal/domain/did_resolver.go:157-211 | in every run only keys that the DID's own resolver produced are cached, never failures |
| `ResolverRuns.Staleness` | internal/domain/did_resolver.go:181-208 | a key answered was produced for that DID at most the cache lifetime, plus its storing delay, before |
| `ResolverRuns.CacheInvisible` | internal/domain/did_resolver.go:157-211 | where resolvers depend on the DID alone, every lookup of every run answers as without a cache |

## Left out

- GatewayRuns.CacheCoherence: assumes requests with keys of their own and a fixed registry, resolver and engine; a policy or registry changed meanwhile can be outlived by an entry for up to a minute. An engine that may panic on an input is taken to answer it alike whenever it does not.
- GatewayRuns.CachedTokenBound: one clock for the gateway and for minting, which reads the wall clock itself.
- LimiterWindows.SlidingWindowExact: scores are integers rather than doubles, and Redis expires keys by the same clock that stamps requests.
- Delegation.DelegationRunVerifies: stamps from one second after the Unix epoch on.
- PresentationRules.OrderIrrelevant: which error a rejected response gets may depend on the order.
- ResolverRuns.Staleness: the delay between producing a key and storing it adds to the cache lifetime, as it does in the code (`Resolvers.LifetimeAloneIff`).
- Policies.EqualFold: ASCII letters only.
- Issuance.Issue: the audit log and overflow of the lifetime in nanoseconds; identifiers, salts and digests are inputs.
- `nbf`, proofs, schemas and other fields no decision reads.
- The JSON decoder itself: numbers are integers, and a cached response comes back from JSON as it went in.
- End-to-end SD-JWT issue and verify: issuance puts digests under the claims, verification reads the credential's own field.
- `IssuancePolicy.Combine`, which replaces scope and claim lists rather than taking the stricter.
- `Agent.DelegationDepth` as the depth of the chain: it is read from a claim that delegation does not set.
- Policies as shared slices: the store's entries are values, so aliasing between a caller's policy and the store is not modelled.
- HTTP decoding, headers, status codes, middleware, log texts, Postgres, Vault, KMS, `did:web` fetching, SDKs and the command line.
