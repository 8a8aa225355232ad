# DAMBI: a verified model of its registry and its signing gate

DAMBI publishes signed decoder and policy bundles through a registry, serves them through a
caching proxy, and uses them in a browser extension that allows or refuses signatures. This
project models the parts whose correctness depends on interleavings, retries, eviction,
crashes or whole-tree aggregation, and proves what they promise.

| file | what it models |
|---|---|
| `Republish.dfy` | republishing a policy bundle: compare-and-swap on `latest.json`, write-once version files, retries, any number of concurrent runs, crashes |
| `LocalPublish.dfy` | the two local publishers: scam bundles under a lock file, policy bundles killed between writes |
| `Lru.dfy`, `ObjectCache.dfy` | the proxy's object cache with lazy expiry and LRU eviction |
| `RateLimiter.dfy` | the token-bucket table of the proxy |
| `ProxyPath.dfy`, `ProxyGrammar.dfy` | request path to bucket object, and the paths that can be written |
| `Materialize.dfy` | placeholder substitution and the two source-context rebuilders |
| `Proxy.dfy`, `ProxyAnswers.dfy` | requests, coalesced reads, cache and publishers, interleaved, and what each answer says about the bucket |
| `BuildIndex.dfy` | who owns which call key in the built index, and when a build succeeds |
| `Registry.dfy` | builder and proxy together, end to end |
| `ApplyQueue.dfy` | the coalescing queue that applies policy selections |
| `PromiseChain.dfy` | the per-actor lock and the policy install chain |
| `ScamHost.dfy`, `ScamOutcomes.dfy` | sessions, runtimes and checks of the scam host, and why each check ends as it does |
| `Verdict.dfy` | verdict aggregation over decoded call trees and the final decision |
| `VenueGate.dfy` | the gate on venue order requests |
| `Common.dfy`, `Text.dfy`, `Json.dfy` | shared values |

Concurrent code is a state machine: a predicate says when a step may happen, a function what
it does, and a behaviour is any sequence of enabled steps. Each `await`, file operation or
bucket operation of the source ends a step, so a theorem about all behaviours is a theorem
about all interleavings. Objects with fields are classes whose methods are proved equal to a
function on their contents; loops are methods proved against a recursive definition. Clock
readings, hashes, network answers and policy verdicts are arbitrary inputs. No hash is assumed
to be injective: a result that depends on one says "equal, or these two named values collide".

## Findings

Some expected properties do not hold of the code. Each has the exact condition under which
it does.

- One attempt of a republish makes at most `ATTEMPTS + 1` uploads while the live sequence is at
  least `ATTEMPTS` below 2^53 - 1 (`UploadsPerAttempt`). Nearer to that limit `next++` stops
  changing the number, and the upload loop repeats without bound (`UploadsWithoutBound`).
- A policy publish killed after it wrote the version file but before it wrote the counter
  leaves a profile into which every later publish is refused. That happens exactly for those
  kills (`WedgesIffKilledBeforeCounter`, `WedgedForever`).
- The actor lock stores the promise derived by `finally` but compares the slot with the
  promise before it, so no slot is ever released (`ActorSlotsAreNeverFreed`). Order and
  exclusion are not affected.
- A scam check whose session is dropped between its selection and its attachment runs on a
  disposed runtime, and only then (`StaleExactlyWhenLate`). A schedule with such a gap exists if
  other steps may run between the two (`LateAttachmentHappens`). If nothing comes between them,
  as when every configuration read resolves in a task of its own, no check is ever stale
  (`PromptChecksAreNeverStale`). Which of the two a browser gives is outside the model.
- For a source-context entry the proxy lower-cases the address and the builder does not: the
  proxy rebuilds the builder's bundle exactly when the resolver returned the address in lower
  case and the id is still a string after substitution (`ContextRoundTrip`). Both failures are
  shown at an input (`MixedCaseIsRebuiltDifferently`, `NumericIdIsNotRebuilt`). The resolvers
  registered today that give contexts return lower case
  (`registryV2/scripts/resolvers/uniswap.ts:66`, `registryV2/scripts/resolvers/curve.ts:121`,
  `registryV2/scripts/resolvers/balancer.ts:37-39`), so this concerns a resolver that does not.
- A source context already written under a reference is not compared with the next one. In a
  build without errors every source-context entry refers to its own context exactly when the
  claims that get an index file carry one document per reference (`ContextsHold`). Otherwise the
  build succeeds and the later entry refers to the earlier context (`ContextCollisionIsSilent`).
  Two manifests of one source for two selectors meet this when the resolver answers differently
  the second time (`SilentCollision`, `SilentCollisionHappens`), and the proxy then answers 502
  for the second entry (`SilentCollisionIsRefused`).
- A 502 is not cached, but the bundle object a failing request read is, before it is parsed or
  its hash is checked (`FailureIsNotCached`, `UnusableBundleIsCached`). While an unusable one
  stays cached, requests that read the entry get a 502 even if the object in the bucket has
  been repaired (`CachedBundleBlocksEntry`). With usable objects in the bucket the entry is
  served exactly when no other bundle is cached or the cached one is usable
  (`CachedBundleDecides`).
- An undecoded call at the top level is left out of the verdict (`TopLevelUndecodedIsIgnored`),
  while a nested one never passes (`NestedUndecodedNeverPasses`).
- With the warning window off, only denials are stopped: a warning or an engine fault proceeds
  without a question (`WindowOffStopsOnlyDenials`).

## Model

| member | source | states |
|---|---|---|
| Republish.SafeUnderEverySchedule | registryV2/scripts/republish-policy-bundle.ts:141-190 | over every interleaving of runs and crashes `latest.json` only rises, its history is only extended, no version file is changed, and `latest.json` holds exactly the bytes of the version file it names |
| Republish.CollisionsAreConcurrent | registryV2/scripts/republish-policy-bundle.ts:142-174 | a number an upload tries did not exist when its run began to list the bucket, so a taken number was written since |
| Republish.ReturnedSequenceIsForever | registryV2/scripts/republish-policy-bundle.ts:176-192 | after a run returns a sequence, `latest.json` is at it or above it in every continuation |
| Republish.ReturnedIsPublished | registryV2/scripts/republish-policy-bundle.ts:141-192 | over every schedule a run that returned q created a version file, the last of them some n, and either replaced `latest.json` once, by that very file, and q is n, or replaced nothing and q is the number of a bundle that went live with n <= q; a run that gave up made five attempts and published nothing; a dry run creates and replaces nothing, however it ends |
| Republish.LostSwapIsDecided | registryV2/scripts/republish-policy-bundle.ts:176-188 | after a lost swap a run is content exactly when what is live is at or above the last file it created, and otherwise starts over exactly while it has made fewer than five attempts |
| Republish.RunsEndForAReason | registryV2/scripts/republish-policy-bundle.ts:120-192 | over every schedule a run refuses the live object, its key, an exhausted range or a crowded one only when there was such, a dry run announces a number above what was live under its own key, and every file written is numbered one above a number in use |
| Republish.UndisturbedAttempt | registryV2/scripts/republish-policy-bundle.ts:141-190 | in any state of the bucket an attempt nobody disturbs takes one above the higher of the live sequence and the highest version file, writes that one file with the live fields carried over, makes it live and changes nothing else; a dry run only announces the number; beyond 2^53 - 1 or under another key it fails and writes nothing |
| Republish.RunsAreNeverStuck | registryV2/scripts/republish-policy-bundle.ts:141-192 | a run that has not ended always has a step to take, and may die at any point |
| Republish.GivingUpTakesFiveReplacements | registryV2/scripts/republish-policy-bundle.ts:141-192 | while a run that gives up was running, `latest.json` was replaced at least `ATTEMPTS` times, every time by another run |
| Republish.QuietConserves | registryV2/scripts/republish-policy-bundle.ts:147-190 | everything written carries the initial key id, and without new policies from source also the initial policies, env, profile, registry reference and expiry |
| Republish.UploadsPerAttempt | registryV2/scripts/republish-policy-bundle.ts:145-173 | an attempt makes at most `ATTEMPTS + 1` uploads while the live sequence is `ATTEMPTS` below the safe-integer limit |
| Republish.UploadsWithoutBound | registryV2/scripts/republish-policy-bundle.ts:165-173 | nearer to the limit, for every n some schedule makes one attempt upload n + 1 times |
| Republish.VersionOfFileName | registryV2/scripts/republish-policy-bundle.ts:102-102 | the listing's name test recovers the number of every version file name |
| Republish.OnlyVersionFilesAreCounted | registryV2/scripts/republish-policy-bundle.ts:102-102 | whatever passes that test is a directory, a slash, a positive number without leading zeros and `.json` |
| Republish.HighestVersionObject | registryV2/scripts/republish-policy-bundle.ts:92-108 | the page loop returns the highest version number listed, or 0; given complete pages it is what the protocol's listing step may return |
| ScamPublish.LockedPublishersAreSafe | registryV2/scripts/publish-scam-bundle.ts:117-169 | any interleaving of publishers, kills and stale-lock clearings keeps one writer, write-once sequence files and a strictly rising `latest.json` that is one of them |
| ScamPublish.RenameRaisesLatest | registryV2/scripts/publish-scam-bundle.ts:117-169 | each rename replaces `latest.json` by a strictly higher sequence than it held |
| ScamPublish.UndisturbedPublish | registryV2/scripts/publish-scam-bundle.ts:117-169 | a publisher nobody disturbs leaves one new version file, makes it `latest.json` and removes its lock and temporary file, exactly when the number is new and above the latest wrapper's; otherwise it leaves the directory as it found it, and with the lock taken it stops at once |
| ScamPublish.KillsLeaveTheLock | registryV2/scripts/publish-scam-bundle.ts:148-166 | a kill leaves every file as it is, the lock included, and a lock is cleared only once its owner is gone |
| PolicyPublish.ProfileDirectory.PublishPolicyBundle | registryV2/scripts/publish-policy-bundle.ts:237-264 | the three writes in order, cut short anywhere, leave the directory the specification gives |
| PolicyPublish.KilledPublishesAreSafe | registryV2/scripts/publish-policy-bundle.ts:237-264 | over any history of publishes killed anywhere no version file is rewritten and `latest.json` is at the counter or one above it |
| PolicyPublish.WholePublishesAreConsecutive | registryV2/scripts/publish-policy-bundle.ts:237-264 | publishes that run to their end take consecutive numbers from the counter on, each in a version file of its own in the order they came, with `latest.json` and the counter at the last and every other file as it was |
| PolicyPublish.RefusedExactlyWhen | registryV2/scripts/publish-policy-bundle.ts:237-243 | a publish is refused, and then changes nothing, exactly when the counter is at 2^53 - 1 or the version above it exists; otherwise it makes its three writes, or as many as it lives to |
| PolicyPublish.WedgedForever | registryV2/scripts/publish-policy-bundle.ts:237-264 | once the version above the counter exists, every later publish is refused |
| PolicyPublish.WedgesIffKilledBeforeCounter | registryV2/scripts/publish-policy-bundle.ts:237-264 | a publish causes that exactly when it was killed between the version file and the counter |
| Lru.EvictOldest | registry-api/src/cache.ts:81-85 | the eviction loop keeps exactly the most recent entries up to the capacity |
| ObjectCache.Store.constructor | registry-api/src/cache.ts:53-58 | an empty store with its limits |
| ObjectCache.Store.Get | registry-api/src/cache.ts:60-75 | refreshes a live entry, drops an expired one, counts a hit or a miss, and answers as specified |
| ObjectCache.Store.Set | registry-api/src/cache.ts:77-86 | stores with the expiry of its polarity as the most recent entry and evicts the oldest |
| ObjectCache.RunIsUnique | registry-api/src/cache.ts:60-86 | over every history keys are distinct and the size never exceeds the capacity |
| ObjectCache.CountersAddUp | registry-api/src/cache.ts:60-75 | hits are the answered gets, and hits plus misses are all gets |
| ObjectCache.HitsAreSound | registry-api/src/cache.ts:60-86 | a hit returns the value of the latest set of that key, and only within `negativeTtlMs` of it for a remembered 404 and within `ttlMs` for a found object |
| ObjectCache.Retention | registry-api/src/cache.ts:60-86 | a live key is still held unless at least `maxEntries` distinct other keys were set or hit since its last touch |
| ObjectCache.LiveKeyHits | registry-api/src/cache.ts:60-86 | such a key answers with the value last set exactly until the lifetime of its polarity has passed |
| ObjectCache.InclusionOverTime | registry-api/src/cache.ts:60-86 | of two caches fed the same history the smaller's entries are a subsequence of the larger's, with a size gap of at most the capacity gap |
| ObjectCache.BiggerCacheHitsMore | registry-api/src/cache.ts:60-86 | every hit of the smaller cache is the same hit in the larger |
| RateLimiter.TokenBucketRateLimiter.constructor | registry-api/src/rate-limiter.ts:37-44 | an empty table with its limits |
| RateLimiter.TokenBucketRateLimiter.Allow | registry-api/src/rate-limiter.ts:45-68 | refills, decides, spends, moves the address to the recent end and evicts, as specified |
| RateLimiter.TableIsRecency | registry-api/src/rate-limiter.ts:45-68 | an address has a bucket exactly when it asked and fewer than `maxIps` others asked since |
| RateLimiter.ExactTokenBucket | registry-api/src/rate-limiter.ts:45-68 | a request is allowed exactly when, from every earlier request of the bucket's life on, the allowed count plus one is within the burst plus `refillPerSec` times the seconds passed; clocks may run backwards |
| RateLimiter.SharedIsIndependent | registry-api/src/rate-limiter.ts:45-68 | with at most `maxIps` addresses every decision is that of a limiter of the address's own |
| ProxyPath.TargetIsThePath | registry-api/src/validation.ts:107-213 | an accepted path names the very object that is read, has no `..` and no `%`, and fits the grammar of one of the nine roots |
| ProxyPath.GrammarIsAccepted | registry-api/src/validation.ts:107-213 | a path that fits the grammar of any root is accepted under its own name, whatever branches come first |
| ProxyPath.PrefixesAreDisjoint | registry-api/src/validation.ts:92-100 | no path is under two roots, so the order of the branches cannot matter |
| ProxyGrammar.AcceptedExactlyWhenWritten | registry-api/src/validation.ts:107-213 | a path is accepted exactly when it can be written from well-formed parts under one of the nine roots and holds neither `..` nor `%`, and then names the object of that very name |
| ProxyGrammar.CharacterClasses | registry-api/src/validation.ts:24-66 | the characters allowed in numbers, hex words, profiles, scopes and type names, one by one |
| ProxyGrammar.LeavesAreExactly | registry-api/src/server.ts:730-743 | of those paths the immutable leaves are exactly the bundles, the signatures, and the policy and scam bundles named by a number rather than `latest` |
| Materialize.LookupSourcePath | registry-api/src/server.ts:498-512 | the loop with its early exits is the composition of one descent per path segment |
| Materialize.OneSegment | registry-api/src/server.ts:498-512 | a path segment leads to the field of that name of an object, to the item of that index of an array, and from anything else nowhere |
| Materialize.PlaceholderIsReplaced | registry-api/src/server.ts:514-525 | a string `$source.` followed by a path is replaced by what the path leads to |
| Materialize.SubstituteFails | registry-api/src/server.ts:514-537 | substitution throws exactly when some placeholder anywhere inside the value leads nowhere |
| Materialize.SubstituteNothing | registry-api/src/server.ts:514-537 | a value without placeholders is left as it is |
| Materialize.SubstituteItem | registry-api/src/server.ts:526-528 | an array is substituted item by item and keeps its length |
| Materialize.SanitizedIsClean | registry-api/src/server.ts:539-545 | a sanitised suffix has only `[a-z0-9._/-]`, no double slash and no dash at an end |
| Materialize.CleanIsKept | registry-api/src/server.ts:539-545 | such a suffix is left unchanged, so sanitising is idempotent |
| Materialize.SanitizeKeeps | registry-api/src/server.ts:539-545 | sanitising any string loses none of its letters, digits, dots and underscores and reorders none |
| Materialize.JunkBecomesOneDash | registry-api/src/server.ts:539-545 | between two clean parts a run of other characters becomes one dash |
| Materialize.SlashesBecomeOne | registry-api/src/server.ts:539-545 | and a run of slashes becomes one slash |
| Materialize.SuffixGoesBeforeVersion | registry-api/src/server.ts:547-553 | `name@version` gets the suffix between name and version, an id without a version at its end, and it is an error exactly when the suffix sanitises to nothing |
| Materialize.RouteFieldsWin | scripts/sdk/materialize-decoder.mjs:66-73 | in the context the route's address, chain and suffix win over what the resolver supplied under those names, and everything else is the resolver's |
| Materialize.MaterializedIsForOneAddress | scripts/sdk/materialize-decoder.mjs:75-88 | the builder's bundle has the template's fields with placeholders replaced, no `source_materialize`, a match for this selector on this address of this chain only, and the suffixed id |
| Materialize.DocumentFields | registryV2/scripts/build-index.ts:1064-1073 | the context document names its source, chain and lower-cased address and carries the context as it is |
| Materialize.ContextRefNames | registryV2/scripts/build-index.ts:1009-1019 | two routes share a context file exactly when chain, address without regard to case, and what sanitising leaves of the source agree |
| Materialize.ProxyRebuilds | registry-api/src/server.ts:576-619 | what the proxy makes of a builder's template and context document, including when it fails |
| Materialize.RebuiltIsForTheDocument | registry-api/src/server.ts:576-619 | on any template and document: what the proxy rebuilds is for the document's chain and lower-cased address only, and it refuses exactly for a missing part, a placeholder that leads nowhere or a suffix of which nothing is left |
| Materialize.ContextRoundTrip | scripts/sdk/materialize-decoder.mjs:66-88 | the proxy rebuilds the builder's bundle exactly when the id stays a string and the address was already in lower case; what that bundle is, is said by `MaterializedIsForOneAddress` and `SuffixGoesBeforeVersion` |
| Materialize.MixedCaseIsRebuiltDifferently | registry-api/src/server.ts:601-618 | an entry with a capital in its address: both sides make a bundle, and they differ |
| Materialize.NumericIdIsNotRebuilt | registry-api/src/server.ts:593-596 | a template whose id stands for a number: for every address the builder makes a bundle, the proxy refuses |
| Proxy.OneReadPerObject | registry-api/src/single-flight.ts:18-30 | in every schedule at most one upstream read of an object is under way |
| Proxy.LeavesAreNeverNegative | registry-api/src/server.ts:346-364 | the cache never holds a 404 for an immutable leaf, and every such 404 is marked not to be stored |
| ProxyAnswers.BucketDecides | registry-api/src/server.ts:303-364 | from any reachable state that knows nothing of an object, or nothing that contradicts the bucket, while the object stays as it is and no read of it fails: every answer is 404 if it is absent, not to be stored exactly when it is a leaf; 200 with its very bytes if it is there and no entry referring to others; and 502 only for an index object that does not parse; the cache remembers nothing else of it |
| ProxyAnswers.PlainRequestIsAnswered | registry-api/src/server.ts:303-364 | and a request that arrives in such a state can be brought to that answer |
| ProxyAnswers.PublishersAreSeen | registry-api/src/server.ts:303-364 | what a publisher writes or removes is what the next request for it gets, from a proxy that knows nothing of the object |
| ProxyAnswers.AnswersHaveReasons | registry-api/src/server.ts:313-384 | in every schedule a 404 means that a read of that very object found nothing, never that something it refers to is absent, and a 502 that a read of it failed or found an index object that does not parse or refers to others |
| ProxyAnswers.FailedReadIsRefused | registry-api/src/server.ts:366-384 | whatever the bucket holds, a failed read of the object itself is answered 502 and nothing is remembered of it |
| ProxyAnswers.AnswerIsRepeated | registry-api/src/server.ts:303-364 | a 200, and a 404 of what is no leaf, is given to the next request for the object without any read; a 404 of a leaf and a 502 leave the cache as it was |
| Proxy.OkIsOneRead | registry-api/src/server.ts:313-345 | every 200 is made from one completed read of its own object: the bytes, or the response its entry stands for |
| Proxy.EntryDetermines | registry-api/src/server.ts:643-682 | an entry stands for one response only, whichever bundle and context objects were read, unless the two bundles collide under the hash |
| Proxy.MaterialisedIsDeterminedByEntry | registry-api/src/server.ts:621-683 | materialised answers for equal entries are equal across schedules and publishes, or their bundles are a hash collision |
| Proxy.FailureIsNotCached | registry-api/src/server.ts:317-384 | over its whole life a request that ends in 502 caches nothing under its own name, and elsewhere at most the bundle object its own entry names, as a read of it found it |
| Proxy.UnusableBundleIsCached | registry-api/src/server.ts:485-495 | a bundle that does not parse or has the wrong hash is cached by the very request it fails |
| Proxy.BundleReadIsReached | registry-api/src/server.ts:456-495 | a cold proxy gets to the point where it holds whatever the bucket has for the bundle of a published entry |
| Proxy.CachedBundleBlocksEntry | registry-api/src/server.ts:474-479 | while an unusable bundle stays cached, a request that reads the entry for itself is never answered other than 502, whatever the bucket now holds |
| Proxy.CachedBundleDecides | registry-api/src/server.ts:474-495 | with usable objects in the bucket the entry is served exactly when no other bundle is cached or the cached one is usable |
| Proxy.LandedLeafIsFound | registry-api/src/server.ts:313-364 | once an immutable leaf is in the bucket, a request that starts its own read is never answered 404 |
| Proxy.PublishedIsServed | registry-api/src/server.ts:303-384 | from any reachable state whose cached copies, reads and pending requests agree with an entry and its objects, while these stay and are readable, every answer for the entry is 200 with exactly their response if they are usable and 502 if they are not, with or without a source context |
| Proxy.CanFinish | registry-api/src/single-flight.ts:18-30 | from every reachable state every request can be brought to its answer by reads that do not fail and steps of requests |
| Proxy.NeverStuck | registry-api/src/single-flight.ts:18-30 | an unanswered request, or the read it awaits, always has a step to take |
| BuildIndex.PruneConcreteOwnedCallkeys | registryV2/scripts/build-index.ts:1141-1171 | the loop computes the pruned bundle, and kept plus pruned pairs are all pairs |
| BuildIndex.PruningIsExact | registryV2/scripts/build-index.ts:1141-1171 | pruning removes exactly the pairs whose key a concrete manifest claims |
| BuildIndex.CollectConcreteCallkeys | registryV2/scripts/build-index.ts:1115-1139 | the prepass collects exactly the keys of the loadable concrete manifests |
| BuildIndex.CallkeysAreDistinct | registryV2/scripts/build-index.ts:1087-1089 | two call keys share a file exactly when chain, address and selector agree, the last two without regard to case |
| BuildIndex.EmitManifest | registryV2/scripts/build-index.ts:1241-1449 | processing a manifest is the fold of its claims in loop order, abandoned at the first exception; which manifests count as failed is said by `NoErrors` |
| BuildIndex.NoErrors | registryV2/scripts/build-index.ts:1241-1456 | no error is counted exactly when every manifest loads, every resolver answers and no typed-data or selector entry clashes; every source output that gets an index file has a context path; and no two outputs that get one write one bundle reference under two hashes |
| BuildIndex.Build | registryV2/scripts/build-index.ts:1177-1477 | the main loop and its exit code against the fold over all manifests |
| BuildIndex.SourcedStaysOffConcrete | registryV2/scripts/build-index.ts:1323-1338 | in any manifest order, with or without failures, a sourced entry never sits on a concrete-claimed key |
| BuildIndex.IndexOwnership | registryV2/scripts/build-index.ts:1241-1417 | without errors a key belongs to its last concrete claimant's hash, else to the first sourced claim's entry, else to nobody |
| BuildIndex.FirstOfEqualsIsNamed | registryV2/scripts/build-index.ts:1383-1414 | without errors the entry of a concrete key is the whole entry of one manifest: of the claimants that agree with the last one without a break, the first |
| BuildIndex.StrictExit | registryV2/scripts/build-index.ts:1445-1477 | a build exits 0 exactly when those conditions hold, and a strict one when moreover concrete manifests agree on every key they share |
| BuildIndex.StrictBuildServesEveryManifest | registryV2/scripts/build-index.ts:1383-1416 | when a strict build exits 0, each concrete manifest's keys resolve to its own bundle hash |
| BuildIndex.EntriesMatchTheirKeys | registryV2/scripts/build-index.ts:1320-1414 | every entry written holds a bundle that matches the chain, address and selector of its own key, and is well formed if the manifests are |
| BuildIndex.SourcedEntriesArePruned | registryV2/scripts/build-index.ts:1141-1171 | the bundle of a plain sourced entry is what its resolver gave, less exactly the pairs concrete manifests claim |
| BuildIndex.GeneratedIsWriteOnce | registryV2/scripts/build-index.ts:1025-1038 | a generated reference receives one content, once |
| BuildIndex.ReferencesHold | registryV2/scripts/build-index.ts:1081-1085 | every context-free reference names a written object that holds exactly the entry's bundle, or another value with its hash |
| BuildIndex.TemplatesHold | registryV2/scripts/build-index.ts:1050-1063 | every source-context entry names a written object that holds its own template, or another value with its hash, and a written context |
| BuildIndex.ContextsHold | registryV2/scripts/build-index.ts:1009-1079 | in a build without errors every source-context entry refers to its own context exactly when the claims that get an index file carry one document per reference |
| BuildIndex.ContextCollisionIsSilent | registryV2/scripts/build-index.ts:1064-1073 | any two outputs for one source, chain and address with different keys and contexts: the build has no errors, and the second entry refers to the first one's context |
| Registry.ServerRulesAreValid | registry-api/src/server.ts:438-454 | a bundle reference the server accepts never names an index object |
| Registry.RefIsItsName | registry-api/src/server.ts:438-454 | a reference is accepted with or without a leading slash, and only as the object of that very name under its own root |
| Registry.CallkeyIsReachable | registryV2/scripts/build-index.ts:1087-1089 | every call key file name is accepted by the proxy under its own name |
| Registry.EveryEntryIsReachable | registryV2/scripts/build-index.ts:1320-1325 | every index file of a build from well-formed manifests is reachable through the proxy |
| Registry.ContextRefNormalises | registryV2/scripts/build-index.ts:1009-1019 | the context reference of a source whose parts are plain path segments is accepted and names the object it was written to |
| Registry.BundleRefNormalises | registryV2/scripts/build-index.ts:1005-1007 | the bundle reference the builder writes is accepted and names the object it was written to |
| Registry.BuildToServe | registry-api/src/server.ts:643-662 | once a build is uploaded to a running proxy, whatever it had cached or was reading of the same objects for other entries, the path of a context-free entry is accepted and every answer is 200 with exactly the builder's bundle, or with another object stored under its very hash, in every undisturbed schedule |
| Registry.BuildToServeIsNotVacuous | registryV2/scripts/build-index.ts:1365-1373 | a hash, a build with a reference entry, a bucket and an answered request that meet what the result above asks for |
| Registry.StoredContextDecides | registry-api/src/server.ts:663-682 | for every source-context entry of every build the answer is 200 exactly when the proxy rebuilds a bundle with the entry's hash from the stored template and context, and 502 otherwise; the bundle of a 200 is the builder's or collides with it |
| Registry.ContextToServe | registry-api/src/server.ts:663-682 | when the build has no errors, its written contexts agree and the entry meets the conditions of the round trip, every answer is 200 with exactly the builder's bundle, or the stored template collides with the entry's |
| Registry.ContextToServeIsNotVacuous | registryV2/scripts/build-index.ts:1348-1364 | a build, a source-context entry, a bucket and an answered request that meet what the result above asks for |
| Registry.SilentCollision | registryV2/scripts/build-index.ts:1064-1073 | two manifests of one source for two selectors, and a resolver whose second answer for an address differs: both outputs are the builder's own, the build has no errors, and the second entry refers to the first one's context |
| Registry.SilentCollisionHappens | registryV2/scripts/build-index.ts:898-905 | one such build, whatever the hash, with an answered request for its second entry |
| Registry.SilentCollisionIsRefused | registry-api/src/server.ts:663-682 | every answer for the second entry of such a build is 502, or two named values collide under the hash |
| Registry.NeverAnotherBundle | registry-api/src/server.ts:563-574 | whatever is published later, a 200 made from that entry carries the builder's bundle, or one that collides with it |
| Registry.ServerFindsLandedLeaf | registry-api/src/server.ts:730-743 | the leaf guarantee for the server's own notion of immutable leaves |
| ApplyQueue.QueueIsCorrect | browser-extension/backend/service-worker/policy-selection.ts:76-148 | one apply at a time, no caller answered twice or by a run older than its call, the applied record only holds sets a reinstall succeeded with, and at rest all are answered and the last ids asked for ran last |
| ApplyQueue.AnswersAreHonest | browser-extension/backend/service-worker/policy-selection.ts:76-97 | over every schedule an answer is ok exactly when no await of its run failed, and otherwise it is the failure of the one that did |
| ApplyQueue.OkIsStored | browser-extension/backend/service-worker/policy-selection.ts:86-96 | when the last run has come back ok, its user has exactly its ids in both stored records and they were installed; without a user the empty set was installed; at rest those are the ids asked for last |
| ApplyQueue.RecordsAreSequential | browser-extension/backend/service-worker/policy-selection.ts:76-97 | whatever calls come in between, the stored records are those of the runs one after the other, each as far as its own awaits got: enabled ids, installed set, applied ids |
| ApplyQueue.ComesToRest | browser-extension/backend/service-worker/policy-selection.ts:120-148 | a queue that is not idle has a step, and every step but a new call brings it closer to idle |
| ApplyQueue.CanComeToRest | browser-extension/backend/service-worker/policy-selection.ts:120-148 | from every reachable state the queue can be brought to rest without a further call, with every caller answered |
| PromiseChain.OneAtATimeInOrder | browser-extension/backend/service-worker/orchestrator.ts:182-203 | for the actor lock and the install chain: one body of a key at a time, begun in order of arrival, each after all before it ended |
| PromiseChain.NeverStuck | browser-extension/backend/service-worker/policies-loader.ts:105-123 | a waiting body, or one of its key before it, always has a step, whether bodies resolved or rejected |
| PromiseChain.OwnOutcome | browser-extension/backend/service-worker/orchestrator.ts:182-203 | each body runs exactly once, and a caller gets the outcome of its own body, whatever became of those before it |
| PromiseChain.WhatABodyWaitsFor | browser-extension/backend/service-worker/orchestrator.ts:189-201 | a waiting body may begin exactly when every earlier one of its key has ended; under the actor lock, exactly when the clean-up after each has run too |
| PromiseChain.CanDrain | browser-extension/backend/service-worker/policies-loader.ts:105-123 | from every reachable state all bodies can run to their end without a further arrival; then calls may arrive again, the loader's slots are empty and the actor lock's are all still there |
| PromiseChain.ActorSlotsAreNeverFreed | browser-extension/backend/service-worker/orchestrator.ts:195-201 | after any schedule every actor that ever called still has its slot |
| PromiseChain.LoaderSlotIsFreed | browser-extension/backend/service-worker/policies-loader.ts:117-122 | when every install has finished, the loader's slot is empty |
| ScamHost.RuntimesAreAccountedFor | browser-extension/backend/service-worker/scam-filter.ts:146-189 | every runtime opened is in hand-over, held undisposed by the current session, or disposed exactly once |
| ScamHost.OnlyItsOwnFailureEvicts | browser-extension/backend/service-worker/scam-filter.ts:178-183 | a session stops being current only by being aborted or by its own failure |
| ScamHost.ChecksSettleOnce | browser-extension/backend/service-worker/scam-filter.ts:219-267 | a check settles at most once, never with a report at or after its deadline, and until then its timer is armed and would settle it |
| ScamHost.OutcomesAreFinal | browser-extension/backend/service-worker/scam-filter.ts:229-236 | no later step changes the outcome of a settled check |
| ScamOutcomes.OutcomesHaveReasons | browser-extension/backend/service-worker/scam-filter.ts:157-266 | over every schedule an outcome has its cause: a report is the runtime's own answer on a session opened for exactly the configuration this check read; `undefined` comes only of a read that found no configuration; an unavailable result of a cause of that very kind; the deadline is 2500 ms after the beginning |
| ScamOutcomes.EndingsSettle | browser-extension/backend/service-worker/scam-filter.ts:229-266 | whichever comes first: the timer settles a check as timed out, a cancellation as aborted, and an invalidation as aborted every check of the current session |
| ScamOutcomes.UndisturbedCheckReports | browser-extension/backend/service-worker/scam-filter.ts:219-262 | a check nobody disturbs, on a session that is ready for the stored configuration and in time, ends with the runtime's report |
| ScamOutcomes.UnconfiguredCheckIsSilent | browser-extension/backend/service-worker/scam-filter.ts:247-249 | with nothing configured and no session open it ends with `undefined` |
| ScamOutcomes.ProducedRuntimesAreDisposed | browser-extension/backend/service-worker/scam-filter.ts:146-184 | every runtime ever produced, and no other, is in hand-over, held undisposed by the current session, or disposed exactly once |
| ScamOutcomes.EarlierReadsAreFenced | browser-extension/backend/service-worker/scam-filter.ts:146-164 | a configuration read from before an invalidation opens, drops and selects nothing |
| ScamHost.StaleExactlyWhenLate | browser-extension/backend/service-worker/scam-filter.ts:246-258 | a check starts on a disposed runtime, and on a session that is not current, exactly when it attached late |
| ScamHost.ReportsAreCurrent | browser-extension/backend/service-worker/scam-filter.ts:256-262 | a report is in time, and from the session current when it is made unless the check attached late |
| ScamHost.LateAttachmentHappens | browser-extension/backend/service-worker/scam-filter.ts:246-258 | a schedule in which a check starts on a disposed runtime |
| ScamHost.PromptChecksAreNeverStale | browser-extension/backend/service-worker/scam-filter.ts:246-258 | when nothing comes between selection and attachment every check starts on the undisposed runtime of the current session |
| Verdict.AggregateV2Verdicts | browser-extension/backend/service-worker/orchestrator.ts:1715-1731 | the loop computes the join of the verdicts with their matches in order |
| Verdict.JoinAllMeans | browser-extension/backend/service-worker/orchestrator.ts:1709-1731 | that join fails exactly when one verdict fails, passes exactly when all do, and reports every matched policy in order |
| Verdict.EvaluateBodyTree | browser-extension/backend/service-worker/orchestrator.ts:1479-1573 | the preorder walk computes the flat aggregation, with its faults |
| Verdict.TryV2VerdictPath | browser-extension/backend/service-worker/orchestrator.ts:1582-1688 | the leg loop computes the surviving verdict with the fault floor |
| Verdict.FlatIsBottomUp | browser-extension/backend/service-worker/orchestrator.ts:1479-1573 | flat preorder aggregation equals aggregation from the leaves up |
| Verdict.LegVerdict | browser-extension/backend/service-worker/orchestrator.ts:1479-1573 | a leg fails exactly when some node in it fails, and passes exactly when all do |
| Verdict.LegThrows | browser-extension/backend/service-worker/orchestrator.ts:1479-1573 | a leg throws exactly when some node in it throws |
| Verdict.DenyOverrides | browser-extension/backend/service-worker/orchestrator.ts:1613-1687 | the verdict fails exactly when some leg that does not throw has a failing node, whatever other legs do, and passes exactly when there is a decoded call and all of them are clean; typed signatures get the same verdict |
| Verdict.FaultIsNamed | browser-extension/backend/service-worker/orchestrator.ts:1660-1707 | when no leg denies but some leg throws, the request is warned about, and the warning names the first engine error among the legs, or else that no decoder knows the request |
| Verdict.WithoutPolicies | browser-extension/backend/service-worker/orchestrator.ts:1333-1345 | with no policy a transaction is at best warned about, and a signature passes exactly when some part of it was decoded |
| Verdict.NestedUndecodedNeverPasses | browser-extension/backend/service-worker/orchestrator.ts:1541-1549 | a tree with an undecoded nested call never passes |
| Verdict.TopLevelUndecodedIsIgnored | browser-extension/backend/service-worker/orchestrator.ts:1589-1597 | undecoded top-level calls do not change the verdict |
| Verdict.DeniedIsRefused | browser-extension/backend/service-worker/orchestrator.ts:308-351 | a failing verdict is refused for every user answer, setting and scam result |
| Verdict.WithoutAVerdict | browser-extension/backend/service-worker/orchestrator.ts:255-266 | a venue order that ran out of time is refused for every answer and setting; any other is put to the user exactly when there is a scam report or the warning window is on; after an exception everything is refused but a route miss, which goes through unless there is a scam report the user does not approve |
| Verdict.ApprovalOverridesAllButDenial | browser-extension/backend/service-worker/orchestrator.ts:308-351 | the user's approval overrides everything but a denial |
| Verdict.ProceedsUnapproved | browser-extension/backend/service-worker/orchestrator.ts:308-351 | without the user's approval a transaction or signature goes through exactly when there is no scam report and either all decoded calls are clean, or none is denied and the warning window is off |
| Verdict.WindowOffStopsOnlyDenials | browser-extension/backend/service-worker/orchestrator.ts:308-351 | with the warning window off a request is stopped exactly when its verdict is a denial |
| VenueGate.ParseLegs | browser-extension/backend/injected/hl-exchange-parse.ts:226-251 | the leg loop yields one order per leg that parses, in order, and one unknown payload at the end when some leg does not or there are none |
| VenueGate.ParseHyperliquidExchangeOrders | browser-extension/backend/injected/hl-exchange-parse.ts:327-575 | the parser's branches against the payload specification |
| VenueGate.OrdersAreAskedAbout | browser-extension/backend/injected/hl-exchange-parse.ts:190-251 | for every list of orders a page places the payloads are exactly those orders, in order, each with the asset from `a` and the side from `b` |
| VenueGate.ModificationsAreAskedAbout | browser-extension/backend/injected/hl-exchange-parse.ts:266-313 | the same for the orders of a modification, one or many |
| VenueGate.LegIsItsOrder | browser-extension/backend/injected/hl-exchange-parse.ts:196-211 | a leg is taken for an order exactly when it is an object with a numeric `a` and a boolean `b`, and then for that one |
| VenueGate.UnderstoodWhenComplete | browser-extension/backend/injected/hl-exchange-parse.ts:383-565 | each other guarded action type is understood exactly when it carries each of its required fields with the right kind of value |
| VenueGate.EvaluatePayloads | browser-extension/backend/injected/fetch-hook.ts:166-193 | the loop allows exactly when every payload is allowed |
| VenueGate.DecideVenueBody | browser-extension/backend/injected/hl-exchange-parse.ts:638-666 | the ruling on a request body |
| VenueGate.BatchLeavesOnlyWhole | browser-extension/backend/injected/fetch-hook.ts:166-212 | an order or modify batch is allowed only if every leg parsed and every leg was allowed, and then payload i is leg i |
| VenueGate.AllowedIsClean | browser-extension/backend/injected/hl-exchange-parse.ts:638-666 | each payload of an allowed request is understood, well formed, and was evaluated without a denial |
| VenueGate.PassthroughIsBenign | browser-extension/backend/injected/hl-exchange-parse.ts:566-573 | a request passes without evaluation exactly when its body could be read and it is no typed action or one of the twelve harmless types; a denial says whether the body could be read |

## Left out

- HTTP, bucket, key-management and WASM calls, signature arithmetic and the text of JSON: reads and writes are steps, hashes and verdicts are inputs.
- Entity tags, content types and the 304 answer of the proxy: they do not change which body is served. Requests with an invalid path or over the rate limit are answered before anything modelled in `Proxy.dfy` happens.
- `Proxy.dfy` uses a cache that may lose any entry at any time; how `ObjectCache` loses them is proved separately.
- A read function that throws before its first await would leave its in-flight slot taken; the bucket reader never does, and it is not modelled.
- A second hash-named object under a colliding hash is not excluded; results name the two values instead.
- Properties inherited from JavaScript prototypes during placeholder lookup, Unicode case folding (case changes are ASCII), and chain ids above 2^53.
- The representative build mode, address-agnostic and typed-data index files (only that a clash there is an error), token tables and resolvers: inputs of the build.
- Log lines and the counters that only feed them.
- Preparation requests of the scam host: they never settle a check. The order of microtasks is not modelled: any enabled step may come next.
- A lock call without an actor: it runs its body at once, outside every chain.
- What the install chain installs, and storage errors of the apply queue beyond success or failure of each step.
- Policy evaluation and decoding: the verdict of a node is an arbitrary input.
- Field-by-field mapping of venue orders, ring buffers, settings coercion, command lines and user interface.
- Floating-point rounding in the limiter: real arithmetic.
- VenueGate.DecideVenueBody: the text of a request body is taken as already decoded; the decoder of nested JSON strings is a parameter.
