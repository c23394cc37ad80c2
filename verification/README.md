# opa-openshift: a verified model of the authorization decision

opa-openshift answers OPA data requests by asking an OpenShift API server whether a user may read or
write a tenant's telemetry, and, for reads, in which namespaces. This project models everything between
the decoded request and the response body, and proves what the service promises about it:

- `text.dfy`, `regexps.dfy`: joining, splitting and sorting byte strings; the regular expressions that
  the emitted matchers use.
- `responses.dfy`: answers as values, and what one becomes when it goes through the cache as JSON.
- `matchers.dfy`: the configured label matcher as a heap object (an array and a length) and the matcher a
  request derives from it, with the in-place migration.
- `cachekeys.dfy`: the cache key, its two hashes and the in-place sort of the groups.
- `ttlcache.dfy`: the in-memory cache with its time to live, and the cacher whose operations may fail.
- `decisions.dfy`: what an evaluation decides and which calls it makes, for every behaviour of the API
  server, as a specification and one call at a time.
- `authorizers.dfy`: the authorizer itself, imperatively, proved against that specification.
- `policies.dfy`: evaluations under a policy that is fixed, replaced or changing between calls.
- `alike.dfy`: which requests ask alike: exactly those that no policy answers differently.
- `gateways.dfy`: the service as a state machine. Any number of requests run interleaved over one shared
  matcher and one shared cache; the clock moves, the policy changes, entries vanish, lookups and stores
  fail. Its invariants are proved for every step.
- `moments.dfy`: at which step of a run a request finished and an entry was stored.
- `runs.dfy`: the theorems about every run.
- `grants.dfy`: where the names in an answer come from when the policy changes.
- `sharing.dfy`: exactly when two requests may share the cache.
- `solo.dfy`: a request that runs without interruption in the state machine is one call of the
  authorizer's method.
- `handlers.dfy`: the handler around the authorizer.

The main results are `Runs.CacheTransparent`, `Sharing.TransparentIfAlike`, `Sharing.TransparentUnlessConfused`,
`Runs.AnswersMeanThePolicy`, `Grants.PositiveAnswersWereGranted`, `Runs.BoundedStaleness`, `Runs.CallsOfFinished`,
`Runs.NoBareGrant`, `Runs.SharedMatcherNeverChanges`, `Alike.AlikeExactly`, `CacheKeys.KeyDetermines`,
`CacheKeys.MatcherHashInjective`, `Decisions.GrantsExactlyTheJustified`, `Policies.MonotoneInPolicy` and
`Solo.SoloRunFollowsProtocol`.

## Where the cache is not transparent

The key joins its fields without escaping them. Two requests then may have one key although they ask
differently, and whichever runs first decides for both (`Sharing.FirstDecidesBoth`). Two such inputs reach the
authorizer through the handler, under every configuration: a selector with the value `""` is given the grant of
a request that names no namespace (`Sharing.EmptyValueIsConfused`), and one with the value `a:b` that of one
with the values `a` and `b` (`Sharing.ColonValueIsConfused`).

`Sharing.TransparentIfAlike` states exactly when this cannot happen, for arbitrary strings: if and only if the
two requests ask alike wherever they have one key, which is decided from the requests, the configuration and the
regexp compiler, without any policy. Among requests without commas and colons in the joined fields, `Sharing.TransparentUnlessConfused` shows that the first input
is the only way to go wrong, and exactly for which reads it is one.

## Assumptions

- A `char` stands for one byte.
- SHA-256 is a function from strings to 64 lower-case hex digits. It is not assumed to be injective:
  a result that needs it asks that the inputs at hand do not collide.
- The API server's reply to a call depends on the position of the call, the bearer token and the question.
  Under a policy it depends on the token and the question only.
- The regexp compiler is a predicate on patterns; where it matters, it accepts every alternation of names
  made of lower-case letters, digits and hyphens (section 2.1 of RFC 1123), or at least the empty pattern.
- The TTL library returns an item until its time to live has passed since it was set, and always when that
  time is zero or negative; a read does not prolong it. Whether an item is still served at the exact
  instant of its expiry is left open (`Ttl.edge`), and every result holds either way.
- JSON text is abstracted: a stored answer is a tree, and the `data` string is the rendering of a list of
  matchers and an operator.

## Where the code and its documentation differ

- `README.md:51` calls a matcher's value a comma-separated list; the code joins the names with `|`
  (`internal/authorizer/authorizer.go:220`). The model follows the code.
- `README.md:36` shows `data` as a list of matchers; the code renders an object with `matchers` and
  `matcherOp` into a string (`internal/authorizer/authorizer.go:227-244`). The model follows the code.
- `README.md:118` gives an expiry of 3600 seconds by default; `internal/config/config.go:125` gives 60. The
  model takes the expiry as a parameter.
- A matcher flag whose text starts with a comma configures no key at all
  (`internal/config/matcher.go:45`); `Matchers.ConfiguredKeysMeaning` states exactly when the flag's text is kept.

## Model

| member | source | states |
|---|---|---|
| `Runs.CacheTransparent` | internal/authorizer/authorizer.go:67-91 | in every interleaving of requests, ticks, evictions and cache faults under an unchanging policy, a request gets the cache's error if its own lookup failed and otherwise exactly the body or the error of its own evaluation with no cache, provided that the requests of the run with its key ask alike and their matcher keys do not collide with its own; nothing is asked of requests with other keys |
| `Runs.SameKeySameAnswer` | internal/authorizer/authorizer.go:67-79 | two requests that have one key and ask alike get equal bodies or equal errors under any policy, although the operator and the group order are not part of the key |
| `Runs.ConcurrentMissesAgree` | internal/authorizer/authorizer.go:81-86 | requests that missed on one key at the same time are about to store equal bodies |
| `Runs.AnswersMeanThePolicy` | internal/authorizer/authorizer.go:94-247 | in every run under an unchanging policy, a positive answer carries one matcher per key of the request, each accepting exactly the namespaces that the policy permits this read, and any other answer is given exactly when none is permitted; the read may name any strings if the permitted ones are plain names, and requests with its key ask alike |
| `Runs.BoundedStaleness` | internal/cache/inmemory.go:15-20 | with policy changes and clock ticks, every successful answer is the outcome of one evaluation, by the request itself or by one with the same key, against the policies in force at its calls; one step of the run stored it, after all those calls, and one step gave it out, and if it is another request's these are a store and a later lookup less than the time to live apart on the run's own clock |
| `Runs.AskedPolicyWasInForce` | internal/authorizer/authorizer.go:96-142 | each reply that an evaluation used was given at a step of the run, by the policy in force there, to the call that was next there |
| `Runs.EveryReviewIsOfItsRequest` | internal/authorizer/authorizer.go:96-142 | in every run, each review that a request makes names its own user, verb, resource, resource name and API group, and its groups in sorted order |
| `Runs.StalenessInSeconds` | internal/cache/inmemory.go:15-20 | for a positive flag the step that gave an answer out comes at most that many seconds, in nanoseconds, after the step that stored it, and less when items are not served at the instant of expiry |
| `Runs.FreshEntryIsServed` | internal/cache/inmemory.go:15-66 | in every run, what one request stored answers the next lookup under its key without a call, as long as it is younger than the time to live and was neither evicted nor replaced |
| `Runs.OnlySuccessesAreStored` | internal/authorizer/authorizer.go:81-89 | in every run, an entry under a key is the body of a successful evaluation of a request with that key, put there by one step of the run after the request's last call, with the expiry that follows from that moment |
| `Runs.CallsAreOfTheEvaluation` | internal/authorizer/authorizer.go:94-158 | in every run, the calls that a request has made are a beginning of the calls of its evaluation, and all of them once it is finished |
| `Runs.CallsOfFinished` | internal/authorizer/authorizer.go:61-91 | in every run, a request that its lookup finished, which takes an unknown verb, a failing cache or a live entry, has made no call, and every other finished one exactly the calls of its evaluation |
| `Moments.FinishingStep` | internal/authorizer/authorizer.go:55-92 | every finished request was finished by one step of its own: a lookup with an unknown verb, a fault or a live entry's body, the last call of a failing evaluation with its error, or the store of a successful one |
| `Moments.StoringStep` | internal/authorizer/authorizer.go:81-86 | every entry in the cache was put there by one store of the run, with the body and at the time of that step |
| `Runs.NoBareGrant` | internal/authorizer/authorizer.go:175-247 | for arbitrary strings, a `get` request with a non-empty matcher never receives the boolean `true` in any run, even from the cache |
| `Runs.PositiveAnswersAreScoped` | internal/authorizer/authorizer.go:213-246 | a positive answer to such a request carries one matcher for each of the request's own keys, in key order, all naming one non-empty list of namespaces |
| `Grants.PositiveAnswersWereGranted` | internal/authorizer/authorizer.go:94-206 | in every run, with policy changes and for arbitrary strings, a positive answer to such a request is that of a request with the same key, stored by one step of the run, and each of its names was granted before that step: by its own review, or by a listing after the cluster-wide review, each allowed by the policy in force at its step |
| `Grants.WritesAreAnsweredByReview` | internal/authorizer/authorizer.go:96-111 | in every run, with policy changes and for arbitrary strings, a successful answer to a `create` is the bare verdict of one cluster-wide review of that write, made by a request with the same key before the step that stored the answer |
| `Runs.SharedMatcherNeverChanges` | internal/config/matcher.go:83-114 | in every run the configured matcher keeps its keys, operator, skip set and admin set, and each request's matcher is a function of the configuration and that request |
| `Gateways.StepKeepsMatchers` | internal/config/matcher.go:83-114 | every step keeps matchers isolated: own arrays, no two requests on one object unless it is the shared one without keys |
| `Gateways.MigrateWritesOne` | internal/config/matcher.go:101-114 | the in-place deletion gives the request its migrated keys and leaves every other object as it was |
| `Gateways.StepKeepsHonesty` | internal/authorizer/authorizer.go:67-91 | every step keeps each running request where the replies it received put it, each entry tied to the evaluation that produced it, and each answer tied to its own or a young entry's evaluation |
| `Gateways.StepKeepsLog` | internal/authorizer/authorizer.go:94-158 | every step keeps each recorded call the one that was next in its evaluation |
| `Gateways.EveryRunKeeps` | internal/handler/handler.go:56-58 | the three invariants hold after every schedule |
| `Solo.SoloRunFollowsProtocol` | internal/authorizer/authorizer.go:55-92 | lookup, calls and store run without interruption meet the contract of the authorizer's method, including the calls recorded and what the cache holds afterwards |
| `Sharing.TransparentExactly` | internal/authorizer/authorizer.go:67-91 | for any two requests to read or write, whatever their other strings, every schedule of them is transparent under every policy if and only if no policy answers them differently under one key |
| `Sharing.TransparentIfAlike` | internal/authorizer/authorizer.go:67-91 | for any two requests to read or write whose matcher keys do not collide, whatever their other strings, every schedule is transparent under every policy if and only if they ask alike or have different keys |
| `Sharing.ComparableAreFaithful` | internal/authorizer/cache.go:13-40 | if tokens of one length determine the groups, requests with one key ask alike if and only if their API group, resource name and resource are equal and their namespaces make no difference |
| `Sharing.OrdinaryRunIsTransparent` | internal/authorizer/authorizer.go:67-91 | a well-formed request is answered as on its own in every run in which those that share its key are well-formed, have tokens of one length that determine the groups, and are not confusable with it |
| `Sharing.TransparentUnlessConfused` | internal/authorizer/cache.go:13-26 | for requests without commas and colons in the fields, which if they share a key have tokens of one length that determine the groups, every schedule is transparent under every policy if and only if they are not reads with one key of which one names no namespace and the other the empty one, expanding metadata or needing a matcher |
| `Sharing.FirstDecidesBoth` | internal/authorizer/authorizer.go:67-86 | for any two requests with one key of which the first succeeds, there is a schedule in which the second is served the first one's body |
| `Sharing.EmptyValueIsConfused` | internal/handler/handler.go:145-150 | an input, under every configuration: a selector with one empty value is served the grant of a request without selectors although its own evaluation denies it |
| `Sharing.ColonValueIsConfused` | internal/handler/handler.go:145-150 | another input, under every configuration: a selector with the one value `a:b` is served the grant of one with the values `a` and `b` although its own evaluation denies it |
| `CacheKeys.KeyDetermines` | internal/authorizer/cache.go:13-40 | for arbitrary strings, with tokens of one length that determine the groups up to order, keys are equal if and only if verb, metadata flag, token, user, sorted groups, matcher hash and the joined text of the other fields are equal |
| `CacheKeys.KeyFaithful` | internal/authorizer/cache.go:13-40 | when moreover the API group, resource name, resource and namespaces hold no comma and the namespaces no colon, keys are equal if and only if all fields are equal up to the order of the groups and the matcher hashes are equal, save that no namespace and one empty namespace are written alike; the user may hold commas and colons |
| `CacheKeys.KeyRevealsVerbAndMatcher` | internal/authorizer/cache.go:21-25 | for arbitrary strings, equal keys imply equal verbs, equal metadata flags, equal emptiness of the matchers and equal matcher hashes |
| `CacheKeys.KeyText` | internal/authorizer/cache.go:13-58 | the text of a key, field by field, with what is hashed |
| `CacheKeys.KeyEnds` | internal/authorizer/cache.go:21-25 | for arbitrary strings, the first character tells the verb, the last one whether the matcher is empty, and a suffix of known length is the matcher hash |
| `CacheKeys.KeyIgnoresGroupOrder` | internal/authorizer/cache.go:33-36 | requests that differ only in the order of the groups share a key |
| `CacheKeys.MatcherHashInjective` | internal/authorizer/cache.go:42-58 | for any configured keys, the matchers of two requests hash alike if and only if their keys are equal, although keys are hashed without separators |
| `CacheKeys.KeyLength` | internal/authorizer/cache.go:21-39 | the exact length of a key, independent of the token and the groups, and at most 250 when the free fields total at most 101 |
| `CacheKeys.GenerateCacheKey` | internal/authorizer/cache.go:13-26 | computes the key of the request as it came in and leaves the caller's groups sorted |
| `CacheKeys.HashUserinfo` | internal/authorizer/cache.go:28-40 | sorts the caller's groups in place; the hash is of token, user and sorted groups |
| `CacheKeys.HashMatcher` | internal/authorizer/cache.go:42-58 | hashes a sorted copy of the keys and writes to nothing that existed |
| `Authorizers.GroupOrderIsCanonical` | internal/authorizer/cache.go:33-36 | two requests that differ only in the order of the groups have the same key, the same calls and the same decision for every API server, and the groups sent are an ordered permutation |
| `Authorizers.ProtocolMeaning` | internal/authorizer/authorizer.go:55-117 | in a call to the authorizer every review is of the access requested, with sorted groups; an unknown verb is an error without a call; a `create` that misses is answered with the bare verdict of its one review |
| `Authorizers.ProtocolIsSound` | internal/authorizer/authorizer.go:67-91 | from an empty cache on, a read that needs a matcher never gets the bare `true` and a write gets nothing but a bare boolean, hit or miss |
| `Authorizers.Authorizer.Authorize` | internal/authorizer/authorizer.go:55-92 | the cache protocol with its whole effect: an unknown verb, a failed lookup and a hit make no call and store nothing; a miss evaluates with the sorted groups and stores a success; a failed store changes no answer |
| `Authorizers.Authorizer.EvaluateAndStore` | internal/authorizer/authorizer.go:81-91 | after a miss only a success is stored, with a new expiry, and the outcome does not depend on the store |
| `Authorizers.Authorizer.AuthorizeInner` | internal/authorizer/authorizer.go:94-117 | outcome and exact calls of an evaluation, for every API server; every review is of the requested user, groups, verb, resource, name and API group, and a `create` is answered with the bare boolean of its review |
| `Authorizers.Authorizer.AuthorizeNamespaced` | internal/authorizer/authorizer.go:119-137 | a metadata request without namespaces is expanded to the listing, an empty listing denies |
| `Authorizers.Authorizer.AuthorizeEach` | internal/authorizer/authorizer.go:139-172 | the review loop grants the allowed candidates in order and ends at the first failure |
| `Authorizers.Authorizer.AuthorizeClusterWide` | internal/authorizer/authorizer.go:175-206 | the map-based filter keeps exactly the requested namespaces that are listed, in order and with repetitions |
| `Authorizers.Authorizer.NewDataResponse` | internal/authorizer/authorizer.go:213-247 | one matcher per key in key order, all with the joined names, or the failure of the regexp compiler |
| `Decisions.GrantsExactlyTheJustified` | internal/authorizer/authorizer.go:94-206 | for every API server, a successful read that needs a matcher is granted exactly the candidates justified by their own review, or by the cluster-wide review and the listing, in order and with repetitions; one that needs none gets everything if and only if the cluster-wide review or some candidate allows it |
| `Decisions.ReadDecidedExactly` | internal/authorizer/authorizer.go:94-247 | the outcome of a read in full once no call fails: everything or nothing without a matcher; with one, the justified candidates if their joined names compile and an error if not, and a bare denial when the reviews leave none |
| `Decisions.WriteDecidedExactly` | internal/authorizer/authorizer.go:96-111 | a `create` makes one cluster-wide review and is decided by it, whatever the matcher |
| `Decisions.QuestionsAreOfTheRequest` | internal/authorizer/authorizer.go:96-142 | every review of an evaluation names the requested user, groups, verb, resource, resource name and API group, and the first no namespace |
| `Decisions.CallShape` | internal/authorizer/authorizer.go:94-158 | the calls are the cluster-wide review, at most one listing, and reviews of the candidates in order up to and including the first failure; `create` makes exactly one |
| `Decisions.FailsWithLastCall` | internal/authorizer/authorizer.go:96-172 | an evaluation stops at its first failing call, and fails exactly when its last call did, with the error of that kind of call, or when the names make no regexp |
| `Decisions.NoNamespaceReviewedTwice` | internal/authorizer/authorizer.go:139-158 | distinct requested namespaces are reviewed at most once each in the loop |
| `Decisions.StepsMakeCalls` | internal/authorizer/authorizer.go:94-158 | the evaluation run one call at a time makes exactly the specified calls |
| `Decisions.OperatorUnobservable` | internal/authorizer/authorizer.go:213-230 | without matcher keys the operator never shows in a body |
| `Decisions.StepsReachDecision` | internal/authorizer/authorizer.go:94-206 | the evaluation run one call at a time reaches the specified decision |
| `Policies.FinishedRunDecides` | internal/authorizer/authorizer.go:94-173 | a finished evaluation has the outcome of every API server that would have answered its calls alike |
| `Policies.ShortcutPreservesMeaning` | internal/authorizer/authorizer.go:187-205 | if cluster permission implies permission in every namespace, the shortcut gives the verdict and names of the loop over the listed requested namespaces, and the same outcome whenever one is listed |
| `Policies.ExpansionEquivalence` | internal/authorizer/authorizer.go:119-137 | a metadata request without namespaces is answered, or fails, like the request naming the non-empty listing, with or without cluster-wide access |
| `Policies.NamespaceOrderIrrelevant` | internal/authorizer/authorizer.go:139-206 | two orders of the requested namespaces both fail alike or give the same verdict and the same names as often; only the names that may be granted need to be plain, and none for a read without a matcher |
| `Alike.AlikeExactly` | internal/authorizer/authorizer.go:94-247 | for arbitrary strings, two requests of one verb and metadata flag get the same verdict, the same pattern or the same error from every policy if and only if they ask alike: the same token, user, groups and resource, and namespaces that name the same and select the same patterns, as far as the verb, the matcher and the metadata flag make them matter |
| `Alike.DifferentAreTold` | internal/authorizer/authorizer.go:94-206 | for any two requests that do not ask alike there is a policy under which one succeeds with a result that the other does not get |
| `Alike.EmptyNamespaceExactly` | internal/authorizer/authorizer.go:94-172 | naming nothing and naming the empty namespace come to the same under every policy if and only if the request is a `create` or a read that needs no matcher and expands nothing |
| `Policies.MonotoneInPolicy` | internal/authorizer/authorizer.go:109-172 | a policy that allows and lists at least as much, and lists what it allows, never narrows what a request is granted, across all branches |
| `Policies.GrantedNames` | internal/authorizer/authorizer.go:94-206 | which names a read with a matcher is granted under a policy, branch by branch |
| `Policies.BareGrantMeaning` | internal/authorizer/authorizer.go:160-166 | without matcher and cluster-wide permission, the bare grant is given if and only if some candidate is allowed |
| `Responses.StoredBodyStable` | internal/cache/cache.go:22-39 | every answer can be read back and encodes to the same body; the value itself survives if and only if it holds no string map |
| `Responses.BodyMeaning` | internal/authorizer/authorizer.go:208-247 | the exact body of every grant: the bare boolean, or `allowed` as a string with the matchers and the operator; it is positive, bare or scoped exactly as its grant is |
| `Responses.MatchersAcceptExactly` | internal/authorizer/authorizer.go:219-225 | for plain names each emitted matcher accepts exactly the granted namespaces and splits back into their list |
| `Regexps.AlternationMeaning` | internal/authorizer/authorizer.go:220 | names joined with bars, read as an anchored regexp, accept exactly the names; splitting at the bars gives the list back |
| `Text.LeqMeaning` | internal/authorizer/cache.go:33 | the order of the sorted groups is byte-wise: a beginning first, and otherwise by the first difference |
| `Text.ConcatAppends` | internal/authorizer/cache.go:34-36 | what a running hash is fed is its writes one after the other |
| `Matchers.Matcher.ForRequest` | internal/config/matcher.go:83-99 | no keys for a tenant to be skipped and for a member of an admin group, the configured settings for everyone else; the shared object exactly when it has no keys, otherwise a fresh object on a fresh array |
| `Matchers.Matcher.Clone` | internal/config/matcher.go:24-31 | an equal matcher on a fresh array |
| `Matchers.Matcher.RemoveAt` | internal/config/matcher.go:103-112 | the in-place shift drops one key, keeps the others in order and clears the freed cell |
| `Matchers.Matcher.ViaQToOTELMigration` | internal/config/matcher.go:101-114 | drops the label the query does not use, in place; a matcher without keys is not written |
| `Matchers.MigrationAgreesWithQuery` | internal/handler/handler.go:132-141 | with both labels configured once and not both selected, exactly one is left, it is `k8s_namespace_name` if and only if that selector has values, other keys keep their order, and migrating again changes nothing |
| `Matchers.ForQueryMeaning` | internal/config/matcher.go:83-114 | what a request's matcher is, for any configured keys: none if the tenant is skipped or a group is an admin group, else the configured keys, less the first occurrence of the label that the query does not use while the migration is on |
| `Matchers.PrepareMap` | internal/config/matcher.go:52-69 | the set of the non-empty names in a comma-separated flag |
| `Matchers.ConfiguredNamesMeaning` | internal/config/matcher.go:52-69 | a name is configured if and only if it is a non-empty piece of the flag cut at the commas |
| `Matchers.ToMatcher` | internal/config/matcher.go:33-50 | the matcher that the flags configure |
| `Matchers.ConfiguredKeysMeaning` | internal/config/matcher.go:45-47 | the keys join back to the flag's text if and only if it does not start with a comma |
| `TtlCache.DurationNeverWraps` | internal/cache/inmemory.go:16 | every 32-bit number of seconds is exact as a 64-bit number of nanoseconds |
| `TtlCache.InMemory.constructor` | internal/cache/inmemory.go:15-23 | an empty cache whose time to live is the flag in nanoseconds |
| `TtlCache.InMemory.Get` | internal/cache/inmemory.go:42-55 | a read never fails, returns the live item's body or a miss, and changes nothing |
| `TtlCache.LivesItsTime` | internal/cache/inmemory.go:15-66 | what was stored is found until its time to live has passed, for ever when that is zero or negative, and not found after it |
| `TtlCache.StoreThenRead` | internal/cache/inmemory.go:15-66 | on a cache built with a number of seconds, an entry is a hit with its body for those seconds and a miss after them, and always a hit when the number is not positive |
| `TtlCache.InMemory.Set` | internal/cache/inmemory.go:57-66 | replaces the item under the key, expiring the time to live after now or never, and no other |
| `TtlCache.Cacher.Get` | internal/cache/cache.go:12-15 | a read fails when the cache fails and is otherwise the in-memory read |
| `TtlCache.Cacher.Set` | internal/cache/cache.go:12-15 | a failed store leaves the cache as it was |
| `Handlers.CollectNamespaces` | internal/handler/handler.go:145-150 | a value is collected if and only if some selector holds it |
| `Handlers.CheckForm` | internal/handler/handler.go:79-120 | a request is let through if and only if its tenant is mapped, it names a resource and a permission, it has a token and the API server can be reached with it; then the verb is `get` for `read` and `create` for `write`, and the token is the header's or else the debug one; whatever is missing of resource, permission and token is answered 400 in any order of the checks, and everything else 500 |
| `Handlers.MatcherForRequest` | internal/handler/handler.go:122-141 | the request's matcher as configuration and request determine it, with nothing that existed written |
| `Handlers.RefusedMeaning` | internal/handler/handler.go:122-141 | a wildcard query is refused to whoever needs a matcher, and a query with values for both namespace labels while the migration is on |
| `Handlers.ServeAdmitted` | internal/handler/handler.go:143-171 | an admitted request is authorized for a duplicate-free listing of its selected namespaces, and the body or status of the outcome is returned |
| `Handlers.Serve` | internal/handler/handler.go:58-171 | the whole handler: a request turned away changes no cache and sorts nothing; every other one follows the cache protocol with its own matcher and the verb of its permission; every review is of the user, tenant, resource and API group in the input; on a sound cache a read that needs a matcher never gets the bare `true` and a write only a bare boolean; the shared matcher is unchanged |
| `Handlers.SelectedReviewedOnce` | internal/handler/handler.go:143-171 | the calls for a served request with selected namespaces are the cluster-wide review and then pairwise distinct calls, whose reviews are of selected namespaces only |
| `Handlers.ServedCallsExactly` | internal/handler/handler.go:143-154 | a served read lists the namespaces exactly when it has cluster-wide permission and needs a matcher, or has none, asks for metadata and selects no namespace; without cluster-wide permission it succeeds only after every selected namespace was reviewed |
| `Handlers.RejectionMeaning` | internal/handler/handler.go:155-165 | a served request is answered 401 exactly when its last call to the API server failed, and 500 exactly when the cache could not be read or the names make no pattern |

## Left out

- HTTP reading and writing, JSON text, flag parsing, TLS, logging and metrics: no effect on decisions.
- Error messages: an error is its kind and its HTTP status.
- The openshift client and its construction: replaced by the API server's replies and a connection that may fail.
- memcached: it appears as a cacher whose operations may fail and whose entries may vanish at any time; the staleness bound is for the in-memory cache.
- The TTL library's capacity, clean-up and metrics: not part of this model beyond the contract above; any entry may vanish at any time in the state machine.
- Nil and empty slices and maps are not told apart, and a nil matcher is not modelled.
- CacheKeys.KeyFaithful: asks for fields without commas and namespaces without colons, because the code joins them without escaping; `CacheKeys.KeyDetermines` says what a key stands for on all strings.
- CacheKeys.KeyDetermines: asks for tokens of one length that determine the groups, because the code hashes token, user and groups without separators.
- Runs.CacheTransparent: asks that requests with one key ask alike, because otherwise it is false; by `Sharing.TransparentIfAlike` that condition is exact.
- Runs.AnswersMeanThePolicy: asks the same of the requests with its key, and that the permitted names are plain, because other names are read as regular expressions.
- Sharing.TransparentUnlessConfused: is for fields without commas and colons; `Sharing.TransparentIfAlike` is for all strings.
