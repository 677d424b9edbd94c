# Verified model of the Nexus security proxy

The proxy stands in front of Sonatype Nexus. It recognises downloads by their path, looks up or scans
for vulnerabilities, judges them with a policy set and forwards or refuses the download. This project
models the parts of it that carry the hard guarantees and proves those guarantees for every input, every
run and every interleaving.

| file | what it models |
|---|---|
| `Text.dfy`, `OrderedMap.dfy` | strings as sequences of Unicode scalar values, trimming, ASCII case folding, code point order, ordered maps |
| `Normalize.dfy`, `Policy.dfy`, `PolicyMeaning.dfy` | selector normalisation, scopes, limits, rule selection; what they mean, said of the record fields |
| `Evaluator.dfy`, `PolicyLaws.dfy` | the evaluation loops, their specification (filter, count, compare), monotonicity laws |
| `PolicyParser.dfy` | raw policy records to policy sets, unique ids |
| `Targets.dfy`, `Classifier.dfy`, `ClassifierOnly.dfy` | scan targets, cache keys, the path classifiers |
| `TwoTierCache.dfy` | the two-tier scan cache, operation half by operation half |
| `Docker.dfy`, `Gateway.dfy` | request authorisation as a transition system |
| `GatewayLaws.dfy`, `LedgerLaws.dfy`, `BodyLaws.dfy`, `OutcomeLaws.dfy`, `CacheTransparency.dfy` | what all its runs keep: justified answers; permits and reports; which bytes are answered; how every request ends; the cache is invisible |
| `Prefetch.dfy` | buffering an artifact under a size limit |
| `CatalogReload.dfy`, `Notifier.dfy`, `ReportStore.dfy` | the three step protocols |
| `Template.dfy`, `HtmlEscape.dfy` | message rendering and truncation, HTML escaping |

Form. Loops of the source are methods with invariants, the cache object is a class whose methods are the
awaited halves of its operations, pure code is functions and lemmas. Code that interleaves at await points is a
state machine: a `Label` says which step happens next and what a foreign call (Nexus, OSV, a scanner, the report
backend, the clock) answered; `IsRun` and `Follows` range over all finite sequences of enabled steps, so a
statement about a run holds for every schedule and every foreign outcome. `dafny verify dfyconfig.toml` checks
the project.

Meaning. Wherever a law mentions one of the model's own functions, another law says what that function means in
terms of the inputs alone: of raw records, record fields, text and literal names (`...Meaning`, `...ByName`,
`...Exactly`). So what a verdict, a media type, a repository format, a placeholder or a limit is does
not rest on the model's own definition of it.

How the gateway results fit together. `Gateway.Step` is the whole server: the active policy, the lists ever put
into the cache, the semaphore, every request with its own history and the bytes it holds, the reports, the
decision log and the notifications. `GatewayLaws.SafetyHolds`, `LedgerLaws.PermitConservation`,
`LedgerLaws.LedgerHolds`, `BodyLaws.BodiesHold` and `OutcomeLaws.HeardHolds` are the invariants of all its runs;
`OutcomeLaws.AnswersExactly` is its whole decision table. `CacheTransparency`
compares a run with the run of a proxy that never caches packages. A cache lookup of the gateway may miss at any
time and may hit with any list whose write under that key was ever finished. The two-tier cache answers nothing
else, however its operations interleave (`TwoTierCache.HitIsSomePut`,
`CacheTransparency.CacheAnswersAreEnabled`), so no gateway result rests on cache operations being atomic.

Where the code does not do what its documentation, its tests or its design suggest, the model follows the code,
and the exact condition is proved:

- Truncation is said to always keep the complete report link. It does so only when the link line itself fits 6000
  characters and the renderer sees the placeholder: a stray `{` before `{report_url}` hides it, although the
  loader's search still finds it and so does not append the link. `Template.LinkDeliveredExactly` gives the exact
  condition; `Template.HiddenPlaceholder` and `Template.OnlyStrayBracesHide` show that stray braces are the
  failing family and all of it.
- `put` clears one tier and then writes the other, so that a key is in one tier only and an expired entry with
  findings never gives way to an older clean one. The two halves are separate awaits. A clean put of the same key
  that finishes between the halves of a put with findings leaves the key in both tiers, and once the findings
  expire or are evicted the key is answered as clean: `TwoTierCache.CleanPutInsideFindings` is the input,
  `TwoTierCache.BothTiersExactly` and `TwoTierCache.ReexposedExactly` the exact conditions.
- An artifact let out by a verdict is answered with the bytes that were scanned exactly when its list did not come
  from the cache. On a hit it is fetched again and passed on unread (`BodyLaws.ScannedBytesAnsweredExactly`,
  `BodyLaws.CachedArtifactIsFetchedAgain`).
- Cache keys of image digests are not injective: an image name that continues another's with `@` can share a key
  (`Targets.DockerKeysCollide`, exactly when: `Targets.DockerKeyExactly`).

## Model

| member | source | states |
|---|---|---|
| Text.TrimMeaning | crates/security/src/normalize.rs:1-18 | Trimming removes exactly the blanks at both ends. |
| Text.FoldingMeaning | crates/security/src/normalize.rs:1-18 | Folding to lower or upper case identifies exactly the strings that differ only in ASCII case. |
| Text.LessMeaning | crates/security/src/normalize.rs:20-29 | The order of sorted lists and maps: the first differing character decides, and a proper prefix comes first. |
| Normalize.NormalizeIdempotent | crates/security/src/normalize.rs:1-18 | Normalising a match value or a vulnerability id twice is normalising it once; of either, exactly the blank strings normalise to nothing. |
| Normalize.SameSelectorMeaning | crates/security/src/normalize.rs:1-11 | Two match values, or two vulnerability ids, normalise to the same form exactly when they are not blank and equal up to surrounding blanks and ASCII case. |
| Normalize.NormalizedSelectorList | crates/security/src/normalize.rs:20-29 | Collect, sort, dedup yields a strictly increasing list holding exactly the normal forms of the non-blank raw selectors. |
| Normalize.StrictlyIncreasingUnique | crates/security/src/normalize.rs:20-29 | A strictly increasing list is determined by its elements, so the normalised list does not depend on how it was sorted. |
| Normalize.MatchingMeaning | crates/security/src/normalize.rs:31-42 | Matching the normalised list is: all raw selectors blank, or some raw selector equals the value up to trim and ASCII case. |
| Normalize.EquivalentSelectorsNormalizeEqually | crates/security/src/normalize.rs:7-42 | Lists that differ by order, repetition, case or padding normalise to the same list. |
| Policy.FirstMatchMeaning | crates/security/src/policy/model.rs:432-437 | The selected rule is the earliest one whose scope matches, and the default exactly when none matches. |
| Policy.SelectionIgnoresSelectorSpelling | crates/security/src/policy/model.rs:199-225 | Respelling the selectors of any rules never changes which rule is selected, in any context. |
| PolicyMeaning.ScopeMeaning | crates/security/src/policy/model.rs:214-225 | A rule is in scope exactly when its repository, format and team lists are each empty or hold the folded value. |
| PolicyMeaning.RawScopeMeaning | crates/security/src/policy/model.rs:199-225 | The same of the raw lists: each is all blank or spells the value up to blanks and case. |
| PolicyMeaning.CoversMeaning | crates/security/src/policy/model.rs:285-348 | An exception concerns a vulnerability exactly when its three scope lists, its package and version lists and its ids all match, the id or any alias counting. |
| PolicyMeaning.AllowsMeaning | crates/security/src/policy/model.rs:53-62 | The allowlist matches exactly when an allowed id is the id or an alias up to blanks and case. |
| PolicyMeaning.LimitMeaning | crates/security/src/policy/model.rs:65-90 | The limit in force for each of the four severities, by name: the explicit one, otherwise zero unless the severity is below the minimum. |
| PolicyMeaning.ContextMeaning | crates/security/src/policy/model.rs:407-429 | The context of a request: folded repository and format, `default` and `generic` where blank, and the team of the first repository entry of that name. |
| Evaluator.MatchingExceptionApplies | crates/security/src/policy/evaluator.rs:149-182 | The loop reports whether an active exception concerns the vulnerability and leaves each ordered map with exactly one entry per exception met so far, active or expired. |
| Evaluator.CollectsNext | crates/security/src/policy/evaluator.rs:158-178 | One exception changes exactly the map of its own kind, and only if it concerns the vulnerability. |
| Evaluator.PolicyViolations | crates/security/src/policy/evaluator.rs:184-224 | The list holds exactly the exceeded limits with their counts, the total first and then low to critical; it is empty exactly when the list is within every limit. |
| Evaluator.NoViolationMeaning | crates/security/src/policy/evaluator.rs:184-224 | No violation is the same as staying within the total limit and every effective severity limit. |
| Evaluator.CountIsCardinality | crates/security/src/policy/evaluator.rs:203-208 | A severity's count is the number of positions with exactly that severity. |
| Evaluator.CountsMeaning | crates/security/src/policy/evaluator.rs:63-85 | A vulnerability counts exactly when no exception that covers it has an expiry after now and no allowed id of the selected rule names it. |
| Evaluator.VerdictMeaning | crates/security/src/policy/evaluator.rs:86-107 | Blocked exactly for an enforcing rule, ReportOnly exactly for a report-only rule, whose limits the counting vulnerabilities exceed; the report holds target, rule id, exactly the exceeded limits and exactly those vulnerabilities. |
| Evaluator.EvaluateAt | crates/security/src/policy/evaluator.rs:56-116 | The stateful evaluation blocks or reports exactly as said of the rule's mode, its limits and the counting subsequence; applied and expired lists tell each exception covering some vulnerability exactly once, field by field, in folded-id order. |
| Evaluator.ReportedIsSubsequence | crates/security/src/policy/evaluator.rs:63-90 | The reported list is the input subsequence at exactly the positions with no active matching exception and no allowlist match. |
| Evaluator.HitByAnyMeaning | crates/security/src/policy/evaluator.rs:149-182 | An exception is listed as applied or expired exactly when it is in the set, expires after now or not, and covers some vulnerability of the list. |
| Evaluator.AppliedAndExpiredDisjoint | crates/security/src/policy/evaluator.rs:149-182 | Applied and expired exceptions never share a normalised id. |
| PolicyLaws.EvaluationLaw | crates/security/src/policy/evaluator.rs:56-116 | Fewer vulnerabilities, an earlier time and a looser policy allow whatever more vulnerabilities, a later time and a stricter policy allow. |
| PolicyLaws.MoreOrLaterNeverAllows | crates/security/src/policy/evaluator.rs:63-107 | Adding vulnerabilities anywhere or evaluating later never turns a violation into Allowed; Blocked stays Blocked, ReportOnly stays ReportOnly. |
| PolicyLaws.ViolationsIgnoreOrder | crates/security/src/policy/evaluator.rs:184-224 | The violation list is the same for every permutation of the vulnerabilities. |
| PolicyLaws.RaisingMinimumLoosens | crates/security/src/policy/model.rs:64-69 | Raising the minimum blocking severity always loosens. |
| PolicyLaws.ChangingPresentLimit | crates/security/src/policy/model.rs:64-90 | Replacing a present severity limit loosens exactly when the new one is at least as large. |
| PolicyLaws.ChangingTotalLimit | crates/security/src/policy/model.rs:72-90 | Replacing, adding or removing the total limit loosens exactly when the new one is absent, or both are present and it is at least as large. |
| PolicyLaws.AddingLimit | crates/security/src/policy/model.rs:64-90 | Adding a limit loosens exactly at or above the threshold and tightens exactly below it (or when it is the implied zero). |
| PolicyParser.FromRaw | crates/security/src/policy/parse.rs:218-262 | A raw set is accepted exactly when no required field is blank or unparsable and no two normalised ids agree; every field of every accepted rule, exception and repository says what its raw record says, each limit under its own severity. |
| PolicyParser.ConvertRules | crates/security/src/policy/parse.rs:225-230 | All rules convert, in order, or the set is rejected with the error of the first rule that does not convert. |
| PolicyParser.ConvertRepositories | crates/security/src/policy/parse.rs:232-247 | Accepted exactly when no name or team is blank; the map holds, per trimmed name, the last raw entry and nothing else. |
| PolicyParser.ConvertExceptions | crates/security/src/policy/parse.rs:249-253 | All exceptions convert, in order, or the set is rejected with the error of the first that does not convert. |
| PolicyParser.ConvertRuleAccepts | crates/security/src/policy/parse.rs:265-294 | A rule converts exactly when its id is present and not blank (or the default id stands in); the id is trimmed. |
| PolicyParser.ConvertedRuleSays | crates/security/src/policy/parse.rs:265-294 | Mode, minimum severity and each of the five limits are the raw ones; the scope matches exactly what the raw lists spell; a vulnerability is allowed exactly when a raw allowed id names it. |
| PolicyParser.ConvertedExceptionSays | crates/security/src/policy/parse.rs:296-334 | Id, owner, ticket and reason are the raw ones trimmed, the expiry is the parsed one, and ids, scope, packages and versions match exactly what the raw lists spell. |
| PolicyParser.RuleErrors | crates/security/src/policy/parse.rs:265-276 | Which error a rule is rejected with. |
| PolicyParser.ExceptionErrors | crates/security/src/policy/parse.rs:296-334 | Which error an exception is rejected with, in the order of the checks. |
| PolicyParser.ConvertExceptionAccepts | crates/security/src/policy/parse.rs:296-334 | An exception converts exactly when its text fields are not blank, its expiry parses and some vulnerability id is not blank. |
| PolicyParser.ValidateUniqueIds | crates/security/src/policy/parse.rs:336-364 | No error exactly when ids are neither blank nor equal up to trim and case; a duplicate error names an id of the right list, rules before exceptions. |
| PolicyParser.FirstBadId | crates/security/src/policy/parse.rs:366-381 | The set-filling loop stops at the first id that is blank or repeats an earlier one, and only then. |
| Targets.PackageKeyInjective | crates/security/src/target.rs:112-144 | The cache key (namespace, identifier, version) is injective on package coordinates. |
| Targets.IdentifierAloneCollides | crates/security/src/target.rs:121-136 | Without the namespace two different packages share identifier and version. |
| Targets.ArtifactKeyInjective | crates/proxy/src/gateway.rs:548-565 | Artifacts addressed by path share a key only when repository, path and target agree; repository names may hold anything, and a path and query holds no line break. |
| Targets.StrippedPathOf | crates/proxy/src/catalog.rs:204-224 | The classified path is what follows the repository name, without the query. |
| Targets.DockerKeyExactly | crates/proxy/src/docker.rs:663-673 | Two image digests of one repository share a key exactly when image and digest agree or one image name continues the other's with `@` and a piece with which the other's digest begins. |
| Targets.DockerKeyInjective | crates/proxy/src/docker.rs:663-673 | Image names without `@` never share a key for different digests or images. |
| Targets.DockerKeysCollide | crates/proxy/src/docker.rs:648-673 | Two different digest targets with one key. |
| TwoTierCache.MokaScanCache.Get | crates/cache/src/moka.rs:79-88 | A lookup asks the vulnerable tier, then the clean one, each within its own lifetime. |
| TwoTierCache.MokaScanCache.BeginPut | crates/cache/src/moka.rs:95-100 | The first half of a put clears the key in the other tier and nothing else. |
| TwoTierCache.MokaScanCache.FinishPut | crates/cache/src/moka.rs:95-101 | The second half stores the scan, stamped with the time, in its own tier and nothing else. |
| TwoTierCache.MokaScanCache.DropFrom | crates/cache/src/moka.rs:105-109 | Each half of an invalidation removes the key from one tier and nothing else. |
| TwoTierCache.TierExactly | crates/cache/src/moka.rs:78-109 | Over every interleaving of half-puts, half-invalidations, losses and time, a tier holds a key exactly when some finished put of its kind has not been overwritten or removed since, and then with that put's scan and time. |
| TwoTierCache.TiersHoldTheirKind | crates/cache/src/moka.rs:95-101 | The clean tier holds only empty scans, the vulnerable tier only scans with findings. |
| TwoTierCache.BothTiersExactly | crates/cache/src/moka.rs:90-103 | A key is in both tiers exactly when a clean scan and one with findings both stand. |
| TwoTierCache.BothTiersNeedOverlap | crates/cache/src/moka.rs:90-103 | A key is in both tiers only if a put finished between the halves of a put of the other kind. |
| TwoTierCache.AskExactly | crates/cache/src/moka.rs:79-88 | A tier answers with a scan exactly when that scan stands there and is within the tier's lifetime. |
| TwoTierCache.HitIsSomePut | crates/cache/src/moka.rs:79-103 | In every run, and with anything happening between the two awaits of a lookup, a hit is the scan of some finished put of that key. |
| TwoTierCache.HitIsLatestPut | crates/cache/src/moka.rs:79-103 | Without overlapping puts of the key, a lookup hits with a scan exactly when it is the latest put, not removed since and within its lifetime. |
| TwoTierCache.SplitHitsAreHits | crates/cache/src/moka.rs:79-88 | Without overlapping puts, a lookup split by other steps hits with what an undivided lookup at one of its awaits hits with. |
| TwoTierCache.NoCleanAnswerAfterFindings | crates/cache/src/moka.rs:90-103 | However operations interleave, once a put with findings has begun the key is not answered as clean unless a clean put finishes after that moment. |
| TwoTierCache.TurnsCleanExactly | crates/cache/src/moka.rs:79-103 | Expiry and eviction alone can make a key answered as clean exactly when a clean entry stands and lives. |
| TwoTierCache.ReexposedExactly | crates/cache/src/moka.rs:90-103 | After a latest put with findings an older clean scan can resurface exactly when it was written between that put's halves and still stands and lives. |
| TwoTierCache.CleanPutInsideFindings | crates/cache/src/moka.rs:95-101 | The input on which it resurfaces: a clean put inside a put with findings, then the loss of the findings. |
| TwoTierCache.InvalidationHolds | crates/cache/src/moka.rs:105-109 | Once both halves of an invalidation are done, nothing put before it is answered. |
| Docker.KindMeaning | crates/proxy/src/docker.rs:573-596 | The four media types by name, in any case, with any blanks and parameters, are images or lists of them, and no other content type is either. |
| Docker.DigestMeaning | crates/proxy/src/docker.rs:640-646 | A digest reference is two parts, neither empty, at the first colon. |
| Docker.ManifestDigest | crates/proxy/src/docker.rs:624-646 | A digest is found exactly when the trimmed header or the reference is one, and the header wins. |
| Docker.ManifestDigestMeaning | crates/proxy/src/docker.rs:624-646 | The digest is the header's, or the reference's if the header gives none, or there is none. |
| GatewayLaws.SafetyHolds | crates/proxy/src/gateway.rs:63-150 | In every run each request's history is genuine: its lists were obtained under its own key, for a target that owns that key; verdicts come from one installed policy set; permits are held exactly while scanning. |
| GatewayLaws.SameKeySameTarget | crates/proxy/src/scan.rs:342-348 | Requests that use one cache key mean one target: always for packages and artifacts, for images unless their names clash at `@`. |
| GatewayLaws.ReleaseSafety | crates/proxy/src/gateway.rs:207-351 | Whatever is forwarded or released was judged not Blocked by one policy snapshot on a list scanned for its own target (for images: or for one whose name clashes), or its scan failed under `fail_open`, or it was unsupported under Allow, or it is an explicit pass-through; nothing ever judged Blocked gets out. |
| GatewayLaws.StrictReleaseSafety | crates/proxy/src/docker.rs:128-323 | With `fail_open` off and unsupported targets blocked, packages and artifact bodies get out on a favourable verdict only, manifests also with a list's media type, as attestation or without a scanner. |
| GatewayLaws.ForbiddenExplained | crates/proxy/src/scan.rs:112-229 | A 403 shows the report of a Blocked verdict of one policy snapshot on the request's own list, or the report of its own unsupported target under Block. |
| GatewayLaws.JudgedFairly | crates/proxy/src/state.rs:151-183 | Context and verdict of a judgement come from the same installed policy generation. |
| BodyLaws.BodiesHold | crates/proxy/src/gateway.rs:243-351 | In every run a request holds the bytes its phase implies: a prefetched artifact whose file and buffer agree while it is scanned, a fetched manifest whose digest makes up the judged target. |
| BodyLaws.ScannedBytesAnsweredExactly | crates/proxy/src/gateway.rs:207-351 | An artifact let out by a verdict is answered with the very bytes its own scan read exactly when its list did not come from the cache; on a hit it is forwarded unread. |
| BodyLaws.CachedArtifactIsFetchedAgain | crates/proxy/src/gateway.rs:218-236 | The failing input: on any hit that the policy allows, an artifact is forwarded although this request has read no byte of it. |
| BodyLaws.JudgedManifestIsTheFetchedOne | crates/proxy/src/docker.rs:128-323 | A manifest let out by a verdict is answered with the bytes of its own fetch, and the verdict is about the digest that this fetch's header, or else the reference, names. |
| LedgerLaws.PermitConservation | crates/proxy/src/gateway.rs:243-348 | Free permits plus holders always equals max(1, concurrency); exactly the requests prefetching, scanning or just scanned hold one, so none is held while a report is created or after the answer. |
| LedgerLaws.PermitMoves | crates/proxy/src/docker.rs:223-300 | Every step takes from the semaphore exactly what it gives the request, and returns exactly what the request gives up. |
| LedgerLaws.LinkStep | crates/proxy/src/scan.rs:127-163 | Only the creation of a report gives a request a report and link, and only its decision entry confirms them; no other step touches either. |
| LedgerLaws.LedgerHolds | crates/proxy/src/scan.rs:188-224 | In every run reports, Blocked entries and notifications match the requests that stand for them, one for one. |
| LedgerLaws.BlockAccounting | crates/proxy/src/scan.rs:167-229 | When all requests are answered, reports created equal Blocked entries pushed, and report, entry and 403 body carry the same block and link; only such requests are notified. |
| LedgerLaws.ReportsAreOfTheirVerdicts | crates/proxy/src/scan.rs:112-229 | At every moment each created report holds the report of its own request's Blocked verdict, or is about its own unsupported target. |
| LedgerLaws.AnswersAreFinal | crates/proxy/src/gateway.rs:63-150 | An answer, once given, is never changed by later steps. |
| LedgerLaws.DenialLeavesNothing | crates/proxy/src/scan.rs:289-305 | A failed requester verification or report creation refuses the request for good, with no report, Blocked entry or notification then or later. |
| OutcomeLaws.BlocksEndInReports | crates/proxy/src/scan.rs:112-229 | An answered request that was judged Blocked, or is unsupported under Block, is refused exactly when its requester was not verified or its report not created; otherwise it is answered 403 with the link of its created report, and the report and its Blocked entry exist. |
| OutcomeLaws.NothingBeyondLimitsGetsOut | crates/proxy/src/scan.rs:167-229 | In every run, whatever was judged and got out is within the limits of the rule selected by the policy set of its judgement, unless that rule only reports. |
| OutcomeLaws.ImagesNeedAVerdict | crates/proxy/src/docker.rs:128-323 | In the strict configuration a fetched manifest with an image's media type that is no attestation gets out on a favourable verdict only. |
| OutcomeLaws.AnswersExactly | crates/proxy/src/gateway.rs:63-150 | The decision table: a request is answered with a response exactly when one of its steps ends it so, for every kind of request, configuration, foreign answer and verdict. |
| OutcomeLaws.HeardHolds | crates/proxy/src/gateway.rs:207-351 | Whatever a request holds, has logged or was answered was told to it: its bytes by its own fetch, its list by its own scan or hit, its link by its own report; a hit is what it goes on with, and its own list was offered to the cache. |
| OutcomeLaws.StoredExactly | crates/proxy/src/scan.rs:315-324 | A list can be hit exactly when a step finished writing it into the cache. |
| OutcomeLaws.ScannedExactly | crates/proxy/src/scan.rs:62-80 | A list is on record exactly when a step obtained it from the source or a scanner. |
| OutcomeLaws.PoliciesExactly | crates/proxy/src/state.rs:63-92 | The installed policy sets are the first and every one reloaded, in order, and the last one is active. |
| OutcomeLaws.NotifiedExactly | crates/proxy/src/scan.rs:231-256 | A notification is queued exactly by the step that has a recipient for it. |
| OutcomeLaws.ReportOnlyExactly | crates/proxy/src/scan.rs:178-187 | A ReportOnly entry is pushed exactly by the step that judged so, with that report and no link. |
| OutcomeLaws.EveryListIsPossible | crates/proxy/src/scan.rs:36-60 | While a list is looked for, every foreign answer, every miss and every stored hit is a step. |
| CacheTransparency.CacheFaithfulStep | crates/proxy/src/scan.rs:36-80 | If the source is a function of the package, every cached list of a package is what the source would answer. |
| CacheTransparency.PackageRulings | crates/proxy/src/scan.rs:30-110 | Over every run with hits, misses and reloads, each package request stands exactly as the ruling of a proxy asking the source afresh, under the policy generation and at the instant of its own verdict. |
| CacheTransparency.RunsMatch | crates/proxy/src/scan.rs:36-110 | From every faithful state, the run in which each package hit is replaced by a miss, a query and a dropped write exists and ends in the same state apart from the package cache. |
| CacheTransparency.CacheIsInvisible | crates/proxy/src/scan.rs:36-110 | Every run is matched by a run that never reads or writes a package in the cache and ends with the same answers, verdicts, reports, decisions, notifications and permits. |
| CacheTransparency.HitKind | crates/proxy/src/scan.rs:342-348 | A package request hits only on lists of this very package, and no other request hits on a package. |
| CacheTransparency.CacheAnswersAreEnabled | crates/proxy/src/scan.rs:36-60 | Every answer of the two-tier cache, with operations interleaved in any way, is one the gateway's lookup may give. |
| Prefetch.PrefetchArtifact | crates/proxy/src/gateway.rs:380-458 | For every chunking without I/O error and no declared oversize, complete exactly when the total is within the limit, and then scanned file, released bytes and upstream bytes are equal; the running total stays within 64 bits. |
| CatalogReload.NewCatalog | crates/proxy/src/catalog.rs:30-59 | A catalog is built exactly when the listing is not empty and no name or format is blank. |
| CatalogReload.ByNameMeaning | crates/proxy/src/catalog.rs:30-59 | Each name maps to the last listed repository of that name, and nothing else is mapped. |
| CatalogReload.InvariantStep | crates/proxy/src/state.rs:94-148 | Every step of every reload, including failure and cancellation, keeps mutual exclusion, current snapshots and sound catalogs. |
| CatalogReload.ReloadSafety | crates/proxy/src/state.rs:114-148 | Over every interleaving installed catalogs carry generations 1, 2, 3, ... with none lost or repeated, readers never see a decrease, and every installed catalog is not empty and valid for the Docker configuration. |
| CatalogReload.OnlyInstallChangesTheCatalog | crates/proxy/src/state.rs:94-112 | Failure and cancellation change nothing a reader sees and give the mutex back; an installation adds exactly one generation. |
| CatalogReload.DockerNeverMisconfigured | crates/proxy/src/docker.rs:516-543 | In Docker mode the misconfigured answer is unreachable in every run. |
| CatalogReload.DockerRepositoryExactly | crates/proxy/src/docker.rs:516-543 | The handler's repository is misconfigured exactly if none is configured, it is missing or its format is not Docker's, and otherwise scanned exactly if a scanner is mapped. |
| CatalogReload.ReloadInstalls | crates/proxy/src/state.rs:114-148 | A reload that finds the mutex free and a loadable listing installs exactly that listing under the next generation. |
| Notifier.NotifierSafety | crates/yandex-messenger/src/lib.rs:121-294 | In every run calls equal sent + failed + queue full + worker closed + queued + in flight + discarded; the queue stays within 256 and is first in, first out; each delivery ends once and in order, sent exactly when an attempt got through, failed without a text, on a permanent failure or after three transient ones, with one payload id of its own; exactly the first and second transient failures are retried. |
| Notifier.ConservedStep | crates/yandex-messenger/src/lib.rs:121-197 | Every step keeps the accounting of calls, of ended deliveries and of deliveries started. |
| Notifier.StoriesStep | crates/yandex-messenger/src/lib.rs:240-294 | Every step keeps the story of every delivery: which results its attempts had and how it ended. |
| Notifier.NotifyExactly | crates/yandex-messenger/src/lib.rs:121-147 | A call is turned away only by a stopped worker or 256 waiting commands, and counted as such; otherwise it is last in the queue. |
| Notifier.RetriesCountedStep | crates/yandex-messenger/src/lib.rs:258-294 | Every step keeps the retry counter at the number of transient failures of first and second attempts, and within two per delivery. |
| ReportStore.ReportIdMeaning | crates/proxy/src/trust_reports.rs:331-337 | The ids looked up are the version 4 UUIDs in hyphenated small hexadecimal form. |
| ReportStore.FileNamesNeverCollide | crates/proxy/src/trust_reports.rs:108-144 | Temporary and final names of valid report ids never collide. |
| ReportStore.StoreInvariant | crates/proxy/src/trust_reports.rs:108-232 | In every run a readable name holds the complete page of a published report, and the temporary file of a create in progress, if it still has a name, the part of its own page written so far. |
| ReportStore.ReadsAreFaithful | crates/proxy/src/trust_reports.rs:146-173 | Every answered read is nothing or the whole page created under that id, unexpired when checked; a failed create's id never yields a page. |
| ReportStore.ReadCheckExactly | crates/proxy/src/trust_reports.rs:146-166 | A read goes on to the contents exactly if the id is valid, the page is there and younger than the retention; an expired page is removed; anything else is answered nothing. |
| ReportStore.ReadContentsExactly | crates/proxy/src/trust_reports.rs:168-172 | A checked read answers the whole page created under the id if it is still there, and nothing if it is not. |
| ReportStore.CreatePublishes | crates/proxy/src/trust_reports.rs:108-144 | A create that is opened, written, synced and renamed leaves its page readable under its id and no temporary file. |
| ReportStore.FailedCreateLeavesNothing | crates/proxy/src/trust_reports.rs:108-144 | A failed create leaves no readable page and is never published. |
| Template.RenderTemplate | crates/yandex-messenger/src/lib.rs:500-525 | The index-scanning loop is tokenise-then-substitute: inserted values are not rescanned, unknown placeholders survive verbatim. |
| Template.SubstituteByToken | crates/yandex-messenger/src/lib.rs:500-525 | Text stays, a known placeholder shows its value, an unknown one stays as spelled, token by token. |
| Template.PlaceholdersByName | crates/yandex-messenger/src/lib.rs:527-543 | The nine placeholders by name and the field each shows; no other is known. |
| Template.MessageByName | crates/yandex-messenger/src/lib.rs:423-437 | Without the placeholder the link line is appended; a text beyond 6000 characters keeps its beginning and ends in the link line, filling the limit exactly. |
| Template.PrintTokenize | crates/yandex-messenger/src/lib.rs:500-525 | Tokenising and printing back is the identity, and tokenising yields a canonical token list. |
| Template.TokenizePrint | crates/yandex-messenger/src/lib.rs:500-525 | Every canonical token list is what its printed form tokenises to. |
| Template.MessageFits | crates/yandex-messenger/src/lib.rs:545-560 | Every sent text has at most 6000 characters. |
| Template.TruncationKeepsLink | crates/yandex-messenger/src/lib.rs:545-560 | Truncation keeps the whole link whenever its line fits. |
| Template.LinkDelivered | crates/yandex-messenger/src/lib.rs:423-437 | The sent text contains the whole link when its line fits and the template lacks the placeholder or tokenises to it. |
| Template.LinkDeliveredExactly | crates/yandex-messenger/src/lib.rs:423-437 | Exactly which templates deliver every link that fits. |
| Template.StrayBraceHides | crates/yandex-messenger/src/lib.rs:504-520 | An unclosed brace before the placeholder makes the renderer read both as one hole of another name, while a search still finds the placeholder. |
| Template.HiddenPlaceholder | crates/yandex-messenger/src/lib.rs:425-434 | With such a brace and no other visible placeholder, every fitting link is delivered exactly if the text is so long that truncation appends it anyway. |
| Template.OnlyStrayBracesHide | crates/yandex-messenger/src/lib.rs:500-525 | Conversely, a placeholder that is spelled but not seen stands behind an unclosed brace. |
| HtmlEscape.EscapeInto | crates/proxy/src/trust_reports.rs:561-572 | The loop appends the escape of the value to the output. |
| HtmlEscape.EntitiesByName | crates/proxy/src/trust_reports.rs:561-572 | The five entities by name; every other character stands for itself. |
| HtmlEscape.EscapeConcat | crates/proxy/src/trust_reports.rs:561-572 | Escaping distributes over concatenation. |
| HtmlEscape.UnescapeEscape | crates/proxy/src/trust_reports.rs:561-572 | An entity decoder undoes escaping. |
| HtmlEscape.EscapeInjective | crates/proxy/src/trust_reports.rs:561-572 | Different texts escape differently. |
| HtmlEscape.EscapeSafe | crates/proxy/src/trust_reports.rs:561-572 | The output has no raw `<`, `>`, `"` or `'`, and every `&` starts one of the five entities. |
| HtmlEscape.EscapeUnescape | crates/proxy/src/trust_reports.rs:561-572 | Every such safe text is the escape of its decoding, so safety characterises the output. |
| ClassifierLaws.FormatsByName | crates/proxy/src/classifier/mod.rs:70-91 | Which format names are classified and as what: maven, maven2; npm; pypi, python; cargo, rust, rustcargo; go, golang; helm. |
| ClassifierLaws.FormatCharacter | crates/proxy/src/classifier/mod.rs:124-130 | Of a format's characters only ASCII letters and digits count, in lower case. |
| ClassifierLaws.FormatConcat | crates/proxy/src/classifier/mod.rs:124-130 | Format normalisation works character by character, in order. |
| ClassifierLaws.MavenRoundTrip | crates/proxy/src/classifier/formats.rs:5-32 | In a maven or maven2 repository, classifying the canonical path returns exactly its coordinate. |
| ClassifierLaws.NpmRoundTrip | crates/proxy/src/classifier/formats.rs:34-76 | The same for npm packages. |
| ClassifierLaws.ScopedNpmRoundTrip | crates/proxy/src/classifier/formats.rs:34-76 | The same for scoped npm packages. |
| ClassifierLaws.SdistRoundTrip | crates/proxy/src/classifier/formats.rs:78-101 | The same for PyPI source archives whose version has no dash. |
| ClassifierLaws.WheelRoundTrip | crates/proxy/src/classifier/formats.rs:78-101 | The same for PyPI wheels whose name and version have no dash. |
| ClassifierLaws.PypiNameMeaning | crates/proxy/src/classifier/formats.rs:177-179 | PyPI names: underscores and dots become dashes, capitals small, nothing else changes. |
| ClassifierLaws.CargoRoundTrip | crates/proxy/src/classifier/formats.rs:103-126 | The same for crate downloads. |
| ClassifierLaws.GoRoundTrip | crates/proxy/src/classifier/formats.rs:128-145 | The same for Go modules without an `@v` segment. |
| ClassifierLaws.JoinSplit | crates/proxy/src/classifier/formats.rs:5-32 | Joined segments are recovered by splitting. |
| ClassifierOnly.MavenOnly | crates/proxy/src/classifier/formats.rs:5-32 | Conversely, whatever is classified in a Maven repository is group, artifact, version and a file that holds the version and is no accompanying file, and is that coordinate. |
| ClassifierOnly.NpmOnly | crates/proxy/src/classifier/formats.rs:34-76 | Whatever is classified in an npm repository is a tarball behind a dash segment, plain or scoped. |
| ClassifierOnly.PypiOnly | crates/proxy/src/classifier/formats.rs:78-101 | Whatever is classified in a PyPI repository is a wheel or a source archive of that name and version. |
| ClassifierOnly.CargoOnly | crates/proxy/src/classifier/formats.rs:103-126 | Whatever is classified in a Cargo repository is a crate download. |
| ClassifierOnly.GoOnly | crates/proxy/src/classifier/formats.rs:128-145 | Whatever is classified in a Go repository is a version file behind the first `@v`. |
| ClassifierOnly.HelmCharts | crates/proxy/src/classifier/formats.rs:155-169 | In a Helm repository every last segment ending in `.tgz` or `.tar.gz` is an artifact to scan. |
| ClassifierOnly.ProxiedOnly | crates/proxy/src/classifier/mod.rs:60-96 | Other methods, other formats and the six kinds of accompanying Maven files are never scanned. |
| ClassifierLaws.SegmentsDecide | crates/proxy/src/classifier/mod.rs:60-122 | What a package path denotes depends on its non-empty segments only. |
| ClassifierLaws.ExtraSlashesHarmless | crates/proxy/src/classifier/mod.rs:116-122 | Extra slashes anywhere never change it. |
| ClassifierOnly.ClassifiedPackagesAreCoordinates | crates/proxy/src/classifier/mod.rs:98-114 | Every classified package is a coordinate on which cache keys are injective. |
| ClassifierOnly.ClassifiedArtifactsAreAddressedByPath | crates/proxy/src/classifier/formats.rs:155-169 | Every classified artifact is addressed by its path, has no digest and is not in a Docker repository. |

## Left out

- Update in place of shared server state: request handling, catalog reload, notifier and report store are state machines over values, so locks and aliasing appear only as which steps are enabled.
- HTTP: requests, headers, URL building, and Nexus, OSV and DefectDojo calls appear only as their results.
- Scanner processes: Trivy and Helm runs are one result each; a partial Helm list under `fail_open` is simply the list the scanner step answers with, and it is cached and judged like any other.
- TOML, JSON and serde decoding and schema generation: the model starts from raw records, with the expiry stamp already parsed to an integer instant (or not).
- Percent-decoding: an arbitrary function that leaves segments without `%` unchanged.
- Base64 and JWT decoding of requester names: requester verification is one yes-or-no result.
- Violation and report texts: violations and block reports are structured values, without the reason text of an unsupported target; page layout and CSS are not modelled.
- 32-bit limits: limits are unbounded naturals; no operation on them can overflow.
- Unauthorised forwarding: requests that are forwarded without authorisation (unclassified paths, Docker HEAD and blob requests, other methods on package repositories): they take no step of the model.
- Client-disconnect cancellation of a request and poisoned locks: requests run to completion. Cancellation of a catalog reload is modelled.
- Image content: an image scanner pulls the image by digest; that the digest header matches the fetched manifest is checked neither by the code nor here.
- Capacity of the decision log: entries pushed are counted, not those still listed after older ones are dropped.
- Policy reload from a file: a reload installs any policy set; a failed one changes nothing and is no step.
- Freshness of report ids: a create begins with an id never used before (version 4 UUID, section 5.4 of RFC 9562).
- Template file reloading, admin endpoints, health checks, audit logging, environment configuration and DefectDojo findings: single-branch plumbing.
- Moka's eviction policy: any entry may be lost at any step.
