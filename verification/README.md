# Verified model of the service gateway

A Dafny model of the gateway that stands between clients and the tolo services and between the services themselves,
with proofs of what its protocols and start-up checks promise. `dafny verify dfyconfig.toml` checks everything.

The five parts where the hard properties live:

- **The life of internal tokens** (`Registry`, `EdgePolicy`, `Authn`, `Reissuing`, `Chain`, `Catalog`). Every token the
  gateway issues, on either listener, is a step over a growing set of tokens. What the issuer and the context verifier
  do is assumed as written in `docs/internal_jwt.md`, and so is that a verified
  external token has a subject and an external token use, which `internal/externaltoken/verifier.go` enforces.
  Everything else is proved: what is kept along chains of any length, in every run and under any policy, how long
  chains get for any rank that falls along the edges, and what that means for the shipped ones. That bound is shown to
  be reached, and start-up is shown to be able to succeed with the shipped bindings and edges.
- **The verdict cache of the introspection client** (`IntrospectionCache`, `SingleFlight`). A class for the map with its
  mutex sections one at a time, and a transition system for any number of concurrent callers.
- **The verification keys of the external IdP** (`Jwks`, `KeySet`, `KeyFlight`). Reading a key set; a class for serving,
  refreshing and backing off, with calls one at a time; and a transition system for any number of concurrent callers.
- **The files handed to the code generator** (`ImportClosure`). Depth-first collection with one shared set of marks.
- **The log handler** (`LogHandler`, `LogMeaning`). A derived handler is kept both built and replayable; what is written
  is compared with a meaning given without any replay.

Supporting parts: `Text` (the Go string functions), `Scopes` (the rewrite of the legacy scope), `Mounts` (destinations
and forwarders), `GatewayConfig` (keys, ports and listeners), `Common`.

Code that updates things step by step is modelled by methods with loops or by classes, and each method is tied to a
specification that says what it computes; the results about whole runs are lemmas over that specification. Ranging
over a Go map is modelled by picking keys in any order. Times are integers; the zero time is `None`.

## Where the code and what one would expect of it part

Three expected properties are not met by the code. The model follows the code; the exact condition under which each
property holds is proved, with a concrete case that breaks it.

- A caller of `Introspector.Active` that joins a flight already under way can be given a verdict that was settled before
  its own call began: a flight stays in the table until its leader has stored the verdict and returned. That happens
  exactly when such a flight for the jti is in the table when the call begins and is the one the call joins
  (`SingleFlight.OlderThanTheCallExactlyWhen`; `SingleFlight.AnAnswerOlderThanTheCall` gives a run). If there is none,
  the verdict is settled during the call (`SingleFlight.SettledDuringTheCallUnlessLingering`).
- A caller of `KeySet.Key` that has to fetch can be answered from a document stored before its call began, for the same
  reason: `fetch` does not look at the cache again. That happens exactly when a flight that had stored is still in the
  table when the call begins and nothing is stored until the lookup; and then the leader of that flight took at least
  the shorter of cacheTTL and refreshCooldown between storing and landing (`KeyFlight.LookupsAreFreshExactlyWhen`;
  `KeyFlight.AnUnknownKeyFromAnOldDocument` gives a run).
- Reserved log keys reach the top level of an entry in two ways: `WithGroup` does not rename the group it opens, and an
  attribute inside a group with an empty key is written in place without being renamed
  (`LogMeaning.ReservedKeyExactlyWhen`; `LogMeaning.ReservedKeysGetThrough` gives both cases).

## Model

| member | source | states |
|---|---|---|
| `Chain.RunKeeps` | internal/reissue/reissue.go:82-195 | in every run of both listeners every issued token is an entry token for the destination of its procedure, starts a machine's chain along an edge that allows it, or is the next hop of its context token; no two tokens share a jti and no two chains a txn |
| `Chain.AlongTheChain` | docs/internal_jwt.md:81-92 | along a chain of any length each reissued token goes to the service its context is addressed to, along an edge that never leads back to it; txn is constant; a user's chain keeps scope, tenant, event and origin user; a machine's chain never gains any of them |
| `Chain.ChainsInRuns` | docs/internal_jwt.md:66-92 | the same for every hop of every chain in every state of every run |
| `Chain.TxnNamesTheChain` | docs/internal_jwt.md:88-91 | two tokens of a run carry the same txn exactly when their chains have the same root |
| `Chain.EveryTokenEndsAChain` | internal/reissue/reissue.go:82-127 | every token of every run is the end of a chain that starts at an entry token or a new machine origin |
| `Chain.InternalMints` | internal/infra/connect/connect.go:209-243 | a token issued on the internal listener is the next hop of the presented context, or starts a machine's chain when none was presented |
| `Chain.PublicKeeps` | internal/infra/connect/connect.go:271-341 | a token issued on the public listener keeps the invariant of all tokens |
| `Chain.KindsOfToken` | internal/reissue/reissue.go:129-138 | every issued token is either of user origin with a known origin user, or a service token holding nothing of a user's |
| `Chain.ChainsAreRanked` | internal/reissue/reissue.go:114-195 | for any rank of contexts by service and origin class that falls along every edge of the policy, a chain has at most one token more than its root ranks, and a user's chain at most that many reissues |
| `Chain.HopFalls` | internal/reissue/reissue.go:159-195 | every hop uses an edge that accepts its context's class, so it ranks below its context |
| `Chain.NewMachineIsAdmitted` | internal/reissue/reissue.go:140-157 | a service that declares itself may start a chain along an edge that allows it: the step is enabled and adds just that token |
| `Chain.MachineContinues` | internal/reissue/reissue.go:178-195 | a service presenting a machine's token addressed to it may go on along a machine-chain edge |
| `Catalog.ShippedRankFalls` | internal/catalog/catalog.go:130-217 | ranking a user's entry token and a machine's token at observation one, and all other contexts zero, falls along every shipped edge |
| `Catalog.ShippedChainsAreShort` | internal/catalog/catalog.go:130-217 | with the shipped bindings and edges, whatever the generated access policies and the requests, a user's chain is reissued at most once and a machine's chain has at most two service tokens |
| `Catalog.ShippedEdgesAcceptedExactlyWhen` | internal/catalog/catalog.go:130-217 | start-up accepts the shipped edges exactly when every row's procedure is registered and accepts a service |
| `Catalog.ShippedCatalogIsAcceptable` | internal/catalog/catalog.go:32-217 | there are policies and descriptors with which the shipped bindings and edges are both accepted |
| `Catalog.ShippedBoundIsReached` | internal/catalog/catalog.go:130-217 | once start-up accepts the shipped edges there is a run with a machine's chain of two service tokens |
| `Catalog.DestinationOfService` | internal/catalog/catalog.go:32-115 | a procedure of a bound service is served by the destination of that service and no other |
| `Reissuing.ServiceAdmitsExactly` | internal/infra/connect/connect.go:209-243 | the internal listener admits a request with a token exactly when it comes from a service, declared or named by its one verified context token, the policy lets that service call the procedure in just that context, and the issuer answers the matching question with this token |
| `Reissuing.ReissueRefusesExactlyAs` | internal/reissue/reissue.go:82-203 | which error a reissue ends with, or which token, edge and origin, by the context, the policy and the issuer's answer; an unverified context is invalid whatever the policy says |
| `Reissuing.UnknownProcedureIsUnreachable` | internal/reissue/reissue.go:104-112 | with a policy built over the same registry, no request ends in the unknown-procedure error |
| `Reissuing.AdmittedByBothListeners` | internal/infra/connect/authn/service.go:21-69 | headers admitted by both listeners carry just one bearer token, which passes both the external verifier and, for the one service it names, the context verifier |
| `Authn.PublicAdmitsExactly` | internal/infra/connect/connect.go:271-300 | the public listener admits without a token exactly an anonymous procedure with none of the five credential headers, and with an issued token exactly a single bearer token that passes verification, the unconstrained check, token use, all scopes, the revocation check where required, and issuing |
| `Authn.PolicyIsEnforced` | internal/infra/connect/authn/authn.go:137-163 | through a built table no token is exchanged that lacks a scope its procedure's policy requires or is for a use the policy does not declare |
| `Authn.ProviderAdmitsExactly` | internal/idp/idp.go:216-293 | with the IdP as verifier, a token is exchanged exactly when the IdP vouches for it and it serves with its scope, rewritten exactly if that is switched on; the issuer gets that scope, and revocation is asked by jti and expiry |
| `Authn.RefusalCodes` | internal/infra/connect/authn/authn.go:84-190 | a refused request gets permission denied, unavailable or internal exactly in the cases for it, and unauthenticated otherwise |
| `Authn.BearerTokenExactly` | internal/infra/connect/authn/authn.go:192-203 | a credential is one header value of two words of which the first is the scheme |
| `Authn.BearerInAnyCase` | internal/infra/connect/authn/authn.go:198-200 | the scheme is accepted in any mixture of cases and nothing else is |
| `Authn.RewriteRefusesOnlyTheLegacyScope` | internal/infra/connect/authn/authn.go:137-163 | after the legacy rewrite a token that was authorized is refused for a missing scope exactly when the procedure requires the legacy scope; otherwise only the revocation check is left |
| `Authn.SwitchRefusesOnlyTheLegacyScope` | internal/idp/idp.go:216-249 | switching the rewrite on turns away an admitted request exactly when it came with a token and the procedure requires the legacy scope |
| `EdgePolicy.Build` | internal/edgepolicy/edgepolicy.go:47-74 | succeeds exactly when every edge can be enforced against the registry and no two share caller and procedure; the policy then holds exactly the edges |
| `EdgePolicy.CheckEdge` | internal/edgepolicy/edgepolicy.go:76-111 | accepts exactly a new edge to a registered service procedure of another destination, with distinct known token uses and some accepted origin |
| `EdgePolicy.CheckTokenUses` | internal/edgepolicy/edgepolicy.go:113-129 | accepts exactly distinct known token uses |
| `EdgePolicy.LookupFindsAnEdge` | internal/edgepolicy/edgepolicy.go:140-149 | what a lookup finds is one of the given edges, for this caller and procedure, and enforceable |
| `Registry.Build` | internal/registry/registry.go:56-101 | succeeds exactly when bindings, descriptors, policies and overrides are all well formed; the table is then that of the bindings with introspection where listed |
| `Registry.AuthenticatedSubjects` | internal/registry/registry.go:253-302 | accepts exactly distinct known token uses of which one is external; gives the external ones in order and whether services are accepted |
| `Registry.DeriveSubjects` | internal/registry/registry.go:224-251 | accepts exactly the policies each access level allows, including unknown levels being refused |
| `Registry.CheckDescriptor` | internal/registry/registry.go:126-163 | no finding exactly when the descriptor is a service without streaming whose methods are exactly the procedures that have a policy |
| `Registry.AddBinding` | internal/registry/registry.go:103-124 | no finding exactly when no procedure is taken and every policy can be enforced; then all entries of the binding are added |
| `Registry.ApplyOverrides` | internal/registry/registry.go:165-197 | no finding exactly when the listed procedures are distinct, registered and accept an external token; then introspection is on exactly there |
| `Registry.EntryComesFromItsBinding` | internal/registry/registry.go:199-216 | every entry is derived from the policy and destination of the one binding that declares it |
| `Registry.EntriesAreTheDeclaredMethods` | internal/registry/registry.go:126-163 | the table of a successful build holds exactly the methods of the bound services |
| `Registry.EntryShape` | internal/registry/registry.go:165-251 | an entry is anonymous and asks for nothing, or accepts an external use or a service; external uses are known, distinct and never "service"; introspection is on exactly for listed procedures |
| `Registry.BuiltEntry` | internal/registry/registry.go:199-251 | a built entry goes to its binding's destination, requires exactly the policy's scopes, is anonymous exactly for a public policy, accepts a service exactly for an internal one or where it is declared, and accepts the other declared uses in order |
| `Registry.RegisteredMethodsAreUnary` | internal/registry/registry.go:148-151 | no registered procedure streams in either direction |
| `Mounts.CheckDestinations` | internal/registry/destinations.go:132-150 | no finding exactly when the configured destinations are those the table refers to |
| `Mounts.IndexMounts` | internal/infra/connect/forward/mount.go:70-82 | succeeds exactly for distinct services, and gives all of them |
| `Mounts.CheckCoverage` | internal/infra/connect/forward/mount.go:84-100 | no finding exactly when the mounted services are the bound ones |
| `Mounts.Handlers` | internal/infra/connect/forward/mount.go:25-68 | succeeds exactly when mounts are distinct, cover the bound services and every destination is configured; then one handler per service, under its prefix, to its destination |
| `Mounts.BaseURLTrims` | internal/infra/connect/forward/mount.go:102-109 | the base URL is the configured one without the slashes at its end |
| `Mounts.NoMissingDestination` | internal/infra/connect/forward/mount.go:102-109 | after the registry and destinations checks, the missing-destination error of a mount is unreachable |
| `Mounts.ServedByOneBackend` | internal/infra/connect/forward/mount.go:25-68 | after the start-up checks every registered procedure lies under exactly one mounted prefix, whose backend is the trimmed URL of the destination used as the audience of its tokens |
| `Mounts.ProceduresOfDifferentServices` | internal/registry/registry.go:107-112 | service names holding no slash, two bindings never declare the same procedure |
| `IntrospectionCache.NewIntrospector` | internal/externaltoken/introspection.go:68-106 | refused exactly without an absolute endpoint or without client ID and secret; otherwise empty, with non-positive settings replaced by the defaults |
| `IntrospectionCache.Introspector.Cached` | internal/externaltoken/introspection.go:143-153 | finds exactly the unexpired verdict held for the jti |
| `IntrospectionCache.Introspector.Store` | internal/externaltoken/introspection.go:155-171 | holds the new verdict until the time to live or the token's expiry, whichever is earlier, and evicts only when over the bound |
| `IntrospectionCache.Introspector.Evict` | internal/externaltoken/introspection.go:173-197 | for any order of map iteration and of ties: keeps unchanged unexpired entries only, as many as fit, and no dropped one outlives a kept one |
| `IntrospectionCache.Introspector.Active` | internal/externaltoken/introspection.go:108-141 | a call without interference asks exactly on a miss, stores exactly an answer, and leaves the cache alone otherwise |
| `IntrospectionCache.StoreKeepsTheBound` | internal/externaltoken/introspection.go:155-197 | after every store the cache is within its bound, kept entries are unchanged, no dropped unexpired entry outlives a kept one, and at most one unexpired entry is lost |
| `IntrospectionCache.StoreNeverChangesAVerdict` | internal/externaltoken/introspection.go:155-197 | after a store any read at any time misses or answers what it would have answered without eviction |
| `IntrospectionCache.StoredIsServed` | internal/externaltoken/introspection.go:143-171 | a stored verdict that is not evicted is answered exactly until its time to live ends or its token expires, whichever is first |
| `IntrospectionCache.EarliestAreGone` | internal/externaltoken/introspection.go:184-196 | deleting the first keys by expiry removes just as many, changes nothing else, and drops none that outlives a kept one |
| `SingleFlight.RunKeeps` | internal/externaltoken/introspection.go:108-171 | under any interleaving of callers, reads, flights, answers and delays the invariant of cache, flights, callers and history holds |
| `SingleFlight.OneQuestionPerJti` | internal/externaltoken/introspection.go:117-130 | at any time at most one question per jti is open at the IdP |
| `SingleFlight.AskedOnlyOnAMiss` | internal/externaltoken/introspection.go:117-125 | a question is asked only while the cache holds no live verdict for the jti and no other question about it is open |
| `SingleFlight.CacheHoldsAnswers` | internal/externaltoken/introspection.go:122-127 | the cache stays within its bound and changes only by storing what the IdP answered, leaving what one store of that answer may leave; failures change nothing |
| `SingleFlight.VerdictsComeFromTheIdp` | internal/externaltoken/introspection.go:108-171 | every verdict returned is an answer of the IdP about this jti, settled by that very answer or by a cache read that found what that answer had stored, for less than the time to live and before the storing caller's token expired |
| `SingleFlight.FirstReadsAnswerExactlyWhen` | internal/externaltoken/introspection.go:113-115 | the first cache read ends the call exactly when it finds an unexpired entry, with just that entry's verdict |
| `SingleFlight.RechecksSettleExactlyWhen` | internal/externaltoken/introspection.go:117-120 | the second read settles the flight exactly when it finds an unexpired entry, with just that entry's verdict; otherwise the flight asks |
| `SingleFlight.LandingsHandOver` | internal/externaltoken/introspection.go:117-141 | a landing flight hands its own outcome to its leader and to every call that joined it |
| `SingleFlight.CallsEndExactlyAs` | internal/externaltoken/introspection.go:108-141 | a call is refused exactly without token or jti, fails exactly when the question of the flight it led or joined got no answer, returns the IdP's answer exactly when that got one, and otherwise answers from the cache |
| `SingleFlight.EntriesServeUntil` | internal/externaltoken/introspection.go:155-171 | in every run an entry is what one store wrote and lives exactly until that store's time to live ends or the storing caller's token expires |
| `SingleFlight.FlightsStoreWithTheLeadersToken` | internal/externaltoken/introspection.go:117-128 | the token expiry a flight stores with is the one its leader's call began with |
| `SingleFlight.OlderThanTheCallExactlyWhen` | internal/externaltoken/introspection.go:113-130 | a verdict is older than its call exactly when, at the call's first step, the table held a flight for the jti settled before then, and that is the flight the call entered |
| `SingleFlight.SettledDuringTheCallUnlessLingering` | internal/externaltoken/introspection.go:113-130 | if no such flight is in the table when the call begins, its verdict is settled during the call |
| `SingleFlight.AnAnswerOlderThanTheCall` | internal/externaltoken/introspection.go:117-130 | a run in which a call is given an answer any positive time older than itself |
| `Jwks.ParseJWKS` | internal/externaltoken/keyset.go:312-343 | succeeds exactly when no key is malformed, every usable key has a kid and usable kids are distinct; the map is then exactly kid to key over the usable keys |
| `Jwks.ReadingExactly` | internal/externaltoken/keyset.go:345-438 | which keys are skipped and which are verification keys, over their members: use, type, curve, sizes in bytes and the numbers written down; all others are malformed |
| `Jwks.AcceptedExactlyWhen` | internal/externaltoken/keyset.go:312-343 | the set is accepted exactly when every key is skipped or a verification key with a kid, and no two verification keys share one |
| `Jwks.HeldExactly` | internal/externaltoken/keyset.go:312-343 | an accepted set gives a kid exactly the RSA numbers or P-256 coordinates written under it |
| `Jwks.WrittenRsaKeyIsHeld` | internal/externaltoken/keyset.go:360-380 | a signing RSA key whose members are the big-endian bytes of a modulus of at least 2048 bits and an exponent from 3 to 2147483647 is held under its kid as just those numbers |
| `Jwks.ValueExactly` | internal/externaltoken/keyset.go:405-412 | reading a number from bytes is the inverse of writing it, up to leading zeros |
| `Jwks.WellFormedByUsable` | internal/externaltoken/keyset.go:345-403 | once no key is malformed, acceptance depends on the usable keys alone |
| `Jwks.OnlyUsableKeysMatter` | internal/externaltoken/keyset.go:312-343 | two sets without malformed keys that have the same usable keys in any order are both accepted or both refused, with the same map |
| `KeySet.NewKeySet` | internal/externaltoken/keyset.go:85-124 | refused exactly for a URL that is not absolute or a negative delay; otherwise empty, with non-positive durations and a missing backoff replaced by the defaults |
| `KeySet.RetryBackoff` | internal/externaltoken/keyset.go:254-266 | gives the configured delays or the default, and refuses exactly a negative delay |
| `KeySet.KeySet.Cached` | internal/externaltoken/keyset.go:143-164 | answers what expiry, refresh cooldown and failure cooldown say of the state |
| `KeySet.KeySet.Store` | internal/externaltoken/keyset.go:216-226 | serves the loaded document from now for cacheTTL and forgets the last failure |
| `KeySet.KeySet.RecordFailure` | internal/externaltoken/keyset.go:280-295 | starts the failure cooldown unless the context is cancelled, and never touches keys or expiry |
| `KeySet.KeySet.Refresh` | internal/externaltoken/keyset.go:189-214 | the retry loop loads until a document, a lasting failure, a cancelled wait or the end of the backoff, and stores or records accordingly |
| `KeySet.KeySet.Key` | internal/externaltoken/keyset.go:126-141 | the answer, loads, state and finishing time of a call nobody interferes with |
| `KeySet.StateHoldsLastDocument` | internal/externaltoken/keyset.go:216-226 | after any calls made one at a time the state holds exactly the last document loaded, with the expiry that follows |
| `KeySet.AnswersAreFresh` | internal/externaltoken/keyset.go:126-176 | with calls made one at a time, a returned key is that of the last stored document, stored during the call or less than cacheTTL before; "unknown kid" is said only of a document without it, stored during the call or less than refreshCooldown before |
| `KeySet.CallsAnswerExactlyAs` | internal/externaltoken/keyset.go:126-176 | with calls made one at a time, which answer each gets and whether it loads, by the last document, the last failure still cooling down and what its refresh loads |
| `KeySet.HeldKeysAreServedExactlyWhen` | internal/externaltoken/keyset.go:149-152 | a key is served without loading exactly when the last document holds it and is younger than cacheTTL, whatever has failed since; it is never unavailable then |
| `KeySet.StateHoldsLastFailure` | internal/externaltoken/keyset.go:280-295 | after any calls made one at a time the state remembers exactly the last failure that was not cancelled and not followed by a document |
| `KeySet.RefreshesExactly` | internal/externaltoken/keyset.go:189-214 | a refresh goes on exactly after passing failures, while attempts are left and waits run out; it ends with what its last attempt loaded, after the time all took |
| `KeySet.PassingFailures` | internal/externaltoken/keyset.go:228-236 | network failures and the codes 429 and from 500 on are passing, everything else lasts |
| `KeyFlight.RunKeeps` | internal/externaltoken/keyset.go:126-226 | under any interleaving of callers, attempts and delays what is held is the last stored document with the expiry that follows, and the invariant of flight, callers and history holds |
| `KeyFlight.ChecksAreFresh` | internal/externaltoken/keyset.go:143-164 | in every run a check answers a key of the last stored document within cacheTTL of its store, "unknown kid" of a document without it within refreshCooldown, and "unavailable" within failureCooldown of the last recorded failure |
| `KeyFlight.ChecksAnswerExactlyAs` | internal/externaltoken/keyset.go:143-164 | in every run which answer a check gives, or that it goes on to fetch, by the last document and the last failure recorded since: a held key is served whatever has failed |
| `KeyFlight.CallsBegin` | internal/externaltoken/keyset.go:126-134 | a call without a kid is refused at once, any other checks for its kid |
| `KeyFlight.FetchesEndExactlyAs` | internal/externaltoken/keyset.go:134-140 | in every run a fetch lets its caller look the key up exactly when the flight it led or joined stored a document, and is unavailable otherwise |
| `KeyFlight.FlightsRetryExactlyWhen` | internal/externaltoken/keyset.go:189-214 | in every run a flight goes on after an attempt exactly if the failure was passing and it has made no more attempts than there are waits |
| `KeyFlight.LookupsAreFreshExactlyWhen` | internal/externaltoken/keyset.go:166-187 | in every run a fetched answer is what the last stored document says; that document is older than the call exactly when a flight that had stored was still open when the call began and nothing was stored since, and its leader then took at least the shorter of cacheTTL and refreshCooldown to land it |
| `KeyFlight.FreshUnlessLingering` | internal/externaltoken/keyset.go:166-187 | if no such flight is open when the call begins, the fetched answer is from a document stored during the call |
| `KeyFlight.OnlyLoadedDocumentsAreHeld` | internal/externaltoken/keyset.go:189-226 | in every run keys, expiry and last refresh change only by storing, for cacheTTL from now, a document that same flight loaded; a failed refresh changes none of them |
| `KeyFlight.AnUnknownKeyFromAnOldDocument` | internal/externaltoken/keyset.go:178-187 | a run in which a call is told a kid is unknown from a document stored any time of at least refreshCooldown before it began |
| `KeySet.FailureKeepsTheKeys` | internal/externaltoken/keyset.go:189-214 | keys, expiry and last refresh change only by storing a loaded document; a cancelled failure leaves no trace |
| `KeySet.RefreshesAreSpaced` | internal/externaltoken/keyset.go:143-164 | a refresh starts no sooner than the shortest delay after the previous one ended |
| `KeySet.LoadsAreBounded` | internal/externaltoken/keyset.go:126-226 | calls one at a time without cancelled contexts load, in refreshes started within any window, at most (window / shortest delay + 1) * (retries + 1) documents |
| `ImportClosure.AppendFileAndImports` | internal/cmd/genforward/main.go:117-134 | extends the list to a topological order holding the file, by files it reaches only, and finishes what it starts; it terminates by the files not yet marked |
| `ImportClosure.CodeGeneratorRequest` | internal/cmd/genforward/main.go:71-101 | for any finite acyclic import graph the list holds exactly the files reachable from the roots, each once, every import before its importer |
| `ImportClosure.OrderForbidsCycles` | internal/cmd/genforward/main.go:117-134 | no list in that order holds a file that imports itself through others, so acyclicity is needed |
| `LogHandler.TraceHandler.constructor` | internal/logging/handler.go:277-287 | the built handler is the base with the operations replayed, and grouped exactly when one opens a group |
| `LogHandler.TraceHandler.Handle` | internal/logging/handler.go:293-319 | the entry written is that of replaying the operations over the base, with the trace fields first under a span |
| `LogHandler.TraceHandler.WithAttrs` | internal/logging/handler.go:321-331 | the derived handler records the renamed attributes after its parent's operations and shares no mutable storage with it |
| `LogHandler.TraceHandler.WithGroup` | internal/logging/handler.go:333-339 | the derived handler records the group after its parent's operations and shares no mutable storage with it |
| `LogHandler.TraceHandler.AppendOp` | internal/logging/handler.go:343-348 | a fresh copy with one more operation; the handler's own list is untouched |
| `LogHandler.RenameReservedAttrs` | internal/logging/handler.go:201-212 | with or without the no-collision shortcut, the rename over all attributes |
| `LogHandler.RenameReservedRecord` | internal/logging/handler.go:216-238 | with or without the no-collision shortcut, the record with the rename over its attributes |
| `LogMeaning.ReplayWritesMeaning` | internal/logging/handler.go:267-273 | replaying any operations over any handler writes the same fields as their meaning given without replay, nested groups included |
| `LogMeaning.SpanAddsTraceFields` | internal/logging/handler.go:293-319 | the entry under a span is the entry without one plus exactly the three trace fields, at the top level, whatever groups are open |
| `LogMeaning.SpanIsNamed` | internal/logging/handler.go:308-312 | under a span the gateway's part of an entry has exactly one field under each trace key: the trace ID, alone or as a resource of the project, the span ID and the sampled flag of the span |
| `LogMeaning.OwnFields` | internal/logging/handler.go:118-157 | the record's own fields are written as time, severity, source location and message, in this order and with these keys and values |
| `LogMeaning.SeverityOfLevel` | internal/logging/handler.go:162-175 | which levels get which severity |
| `LogMeaning.CallsWriteTheirMeaning` | internal/logging/handler.go:321-348 | for every sequence of WithAttrs and WithGroup calls the caller's part of the entry is what the calls and the record say, with reserved keys renamed outside of groups and nothing renamed inside |
| `LogMeaning.DerivedIsRecorded` | internal/logging/handler.go:321-348 | any sequence of WithAttrs and WithGroup calls records exactly the calls that have an effect, renamed until the first group |
| `LogMeaning.RenamingTwice` | internal/logging/handler.go:191-197 | renaming leaves no reserved key and is idempotent |
| `LogMeaning.RenamedOneByOne` | internal/logging/handler.go:191-212 | renaming prefixes exactly the reserved keys, keeps values and order |
| `LogMeaning.ReservedKeys` | internal/logging/handler.go:179-187 | reserved are the six built-in keys and everything under Cloud Logging's own prefix |
| `LogMeaning.GatewayKeysAreReserved` | internal/logging/handler.go:118-157 | every key the gateway writes of its own is reserved |
| `LogMeaning.NothingIsShadowed` | internal/logging/handler.go:293-319 | unless the calls collide, no field of the caller's stands at the top level under a key of the gateway's |
| `LogMeaning.ReplaceKeepsReservation` | internal/logging/handler.go:118-157 | rewriting built-in fields neither makes nor loses a reserved key and leaves every other attribute alone |
| `LogMeaning.ReservedKeyExactlyWhen` | internal/logging/handler.go:293-338 | the caller's part of an entry has a reserved key at the top level exactly when an inlined group carries one before any group is open, or the first group opened has a reserved name and content |
| `LogMeaning.PlainCallsNeverCollide` | internal/logging/handler.go:179-238 | without inlined groups and reserved group names nothing of the caller's is written under a reserved top-level key |
| `LogMeaning.ReservedKeysGetThrough` | internal/logging/handler.go:333-339 | both exceptions occur |
| `Scopes.ExpandLegacyEventsWriteScope` | internal/idp/idp.go:251-275 | the loops compute the first occurrences of the fields with the legacy scope replaced |
| `Scopes.ExpandedFields` | internal/idp/idp.go:251-275 | with the legacy scope present the resulting fields are distinct and are the other fields together with the three replacements |
| `Scopes.FirstOccurrencesInOrder` | internal/idp/idp.go:261-272 | what is kept stands in the order of first occurrence |
| `Scopes.ReplacedInPlace` | internal/idp/idp.go:261-272 | every field is replaced where it stands, the legacy scope by the three and any other by itself |
| `Scopes.ExpandedTwice` | internal/idp/idp.go:251-275 | rewriting twice is rewriting once |
| `Scopes.ExpandedGrants` | internal/infra/connect/authn/authn.go:150-156 | the rewritten scope grants a list exactly when each entry was granted or is a replacement and none is the legacy scope |
| `GatewayConfig.ParsePublishedKeys` | internal/config/config.go:458-515 | every list of keys written in the kid=path form is read back, and every text outside the form is refused |
| `GatewayConfig.PortIsCanonical` | internal/config/config.go:245-256 | a port text is accepted exactly when it is the canonical decimal of a number from 1 to 65535 |
| `Text.ItoaExactly` | internal/config/config.go:251-253 | writing a number gives the one text of that value in digits without a leading zero |
| `GatewayConfig.SamePortText` | internal/config/config.go:212-214 | port texts are equal exactly when the numbers are |
| `GatewayConfig.ParseListeners` | internal/config/config.go:194-243 | succeeds exactly when no retired or foreign variable is set and the mode's ports are canonical, in split mode of different numbers; gives the listeners of the mode |

## Left out

- The issuer, the context verifier and the JWT parser are libraries whose source is not here: they are the contracts of
  `Chain` (EntryContract, ServiceContract, VerifierContract) and parameters of `Reissuing` and `Authn`.
- Signature checks, base64url, JSON decoding and the P-256 curve test are parameters or decoded inputs; whether the
  point of an EC key is on the curve is a function given to `Jwks`.
- HTTP, TLS, discovery, JWKS serving, OpenTelemetry, shutdown, readiness, audit records and the source address: plumbing.
- `forward.go`'s error translation, and the texts, wrapping and aggregated order of errors: each is one branch.
- Classification of a request by HTTP method and content type; a request is given by its path and headers.
- The generated access policies of the services: they are arbitrary in `Catalog`, as is the list of overrides.
- Names of services in `Catalog` are those of the golden files of internal/catalog/testdata; the generated constants
  are not part of this model.
- KeySet.KeySet.Key: one call nobody interferes with; any number of interleaved callers is `KeyFlight`.
- KeySet.StateHoldsLastDocument: calls one at a time; for interleaved callers it is part of `KeyFlight.RunKeeps`.
- KeySet.AnswersAreFresh: calls one at a time; for interleaved callers the same is proved in `KeyFlight`, with its one
  exception.
- KeySet.LoadsAreBounded: calls run one at a time and contexts are not cancelled. A flight does not look at the cache
  again, so interleaved callers are outside the bound, and a cancelled refresh starts no cooldown by design.
- KeySet.KeySet.Refresh: waiting is the passing of time, and cutting a wait short means the context is cancelled.
- IntrospectionCache.Introspector.Active: reading the IdP's answer from HTTP is a parameter; interference of other
  callers is modelled in `SingleFlight`.
- `SingleFlight` and `KeyFlight` have one instance and calls that return; panics inside a flight are not modelled.
- `LogHandler`: attribute values are already resolved (no LogValuer), the JSON text is not written out, a caller that
  changes an attribute slice after handing it over is not modelled, and so is a group without attributes being dropped
  from a rebuilt record already, which writes the same entry.
- ImportClosure.CodeGeneratorRequest: roots are given as paths in their sorted order; resolving services to files and
  the generator's output are not modelled.
- Mounts.ServedByOneBackend: requests are routed by the mounted prefixes only; further rules of the server's mux are
  not modelled, and service names are taken to hold no slash, as names of linked descriptors do.
- `GatewayConfig`: the settings other than published keys, ports and listeners.
- The sorted orders of the tables (Entries, Edges, Snapshot) and their text form: easy members.
