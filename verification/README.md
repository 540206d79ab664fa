# Registry server: verified model

A Dafny 4.11 model of the state-keeping parts of the package-registry API server, with proofs of what they promise:
published versions stay what they were and can always be downloaded, the audit log cannot fork or be rewritten
unnoticed, callers stay within their rate and their quota, and no archive can make the server inflate more than its
budget. `dafny verify dfyconfig.toml` checks everything.

| file | models |
|---|---|
| `Registry.dfy`, `PublishPipeline.dfy`, `PublishHandler.dfy` | publish and yank: the atomic registry, the interleaved pipeline that refines it, and the two handlers as they run against it |
| `AuditChain.dfy`, `AuditTable.dfy` | the hash chain, its verifier, and the per-org view of the audit table |
| `AuditAppend.dfy`, `AuditRecorder.dfy` | concurrent appends as a protocol, and the `record` call with its retry loop |
| `Backfill.dfy` | the migration that numbers legacy audit rows in place |
| `AuditPaging.dfy` | reading the log page by page, and the self-check endpoint |
| `RateLimiter.dfy` | the per-credential token bucket with its idle sweep |
| `OrgQuota.dfy`, `ClaimHandler.dfy` | org claims as a protocol over any number of replicas, and the handler that runs it |
| `BudgetedExtraction.dfy` | the budgeted decompression reader, the capped copy and the archive scan |
| `MemoryStore.dfy` | the process-memory artifact store and its byte accounting |
| `VersionListing.dfy`, `LikePattern.dfy` | version selection over the pipeline's rows, and search-pattern escaping |
| `ByteStrings.dfy`, `Wrappers.dfy` | bytes and result shapes shared by the others |

## How it is modelled

Concurrency is modelled twice, and the two are tied together. A protocol (`PublishPipeline`, `AuditAppend`,
`OrgQuota`) is a state machine whose steps are single database or store round trips, so that any interleaving of any
number of requests, crashes, rollbacks and commits whose acknowledgement is lost is a run of it; locks, unique indexes
and waiting are guards on the steps. A handler (`PublishHandler.Publish`, `AuditRecorder.Record`,
`ClaimHandler.ClaimOrg`) is a method in the order of the source, which before each round trip lets every other request
take any steps at all. The shared object carries its whole history as a run of the protocol, so every theorem about
runs holds of the handlers.

Digests are constructors: `Sha256(bytes)` in the registry and `Of(input)` in the audit chain. They are therefore
collision-free by construction, and the audit preimage is taken as injective in the fields it is given. Time in the
limiter is exact reals; time in the audit log is integer nanoseconds.

## What turned out different from the documentation

- `prev_hash` is documented as a checked link (src/audit.rs:215), but the verifier hashes each row against its running
  predecessor only (src/audit.rs:268). A rewritten `prev_hash` column alone goes unreported;
  `AuditChain.UncoveredColumnsGoUnreported` says exactly what the verdict does not depend on.
- The migration's module comment says legacy rows keep `seq = 0`; the statement numbers them 1..n, and that is what is
  modelled.
- The backfill is called re-runnable (migration/src/m20260726_000008_audit_chain.rs:115). On the legacy table it is.
  On a log that has grown since it is so exactly when positions follow recorded time (`Backfill.RerunIsHarmlessIff`);
  `Backfill.RerunCanRenumberHistory` is two appends from replicas with unequal clocks where it swaps positions.
- The verify endpoint is the only caller of the verifier and reads at most 50,000 rows. Its answer is the log's exactly
  when the window is already damaged or holds every chained row (`AuditPaging.WindowAnswersForTheLogIff`): an edit or a
  deletion behind the window is never reported (`AuditPaging.PastTheWindowIsNotSeen`, and a damaged log in
  `AuditPaging.DamagePastTheWindow`), and on an undamaged longer chain the head is not the chain's
  (`AuditPaging.LongChainReportsAStaleHead`).
- An evicted bucket need not be full, as the sweep's comment says it is: when `burst > 600 * per_second` an idle caller
  comes back to more than the refill. `RateLimiting.RateBoundedIff` gives the exact condition. The clock is read
  before the lock is taken, so readings may step back: what is allowed is then bounded by the span plus everything the
  clock stepped back (`RateLimiting.LimiterUnderAnyClock`), and no setting keeps the plain bound under steps back of any
  size (`RateLimiting.SteppingBackBreaksTheBound`).
- The `+ 1` in the inflation budget saturates, so under the largest budget a stream of exactly that length is turned
  away (`BudgetedExtraction.Fits`). A stream that ends inside an entry is served short, as a success
  (`BudgetedExtraction.ServedEntryIsWholeIff`, `BudgetedExtraction.CutShortEntryIsServed`); one the decoder fails on is
  not (`BudgetedExtraction.CorruptionIsReported`).

## Model

| member | source | states |
|---|---|---|
| PublishPipeline.PipelineRefinesRegistry | src/routes/publish.rs:103-182 | After every prefix of every interleaving the tables are the catalog that replaying the committed changes one whole operation at a time gives, and each step either leaves it alone or performs exactly one legal operation on it |
| PublishPipeline.StepKeepsInv | src/routes/publish.rs:28-202 | Every round trip, crash, rollback and lost acknowledgement keeps the tables consistent, the pending writes mergeable, the package rows locked exclusively and the history faithful |
| PublishPipeline.MetadataFollowsCommits | src/routes/publish.rs:254-307 | A package's metadata is that of its last committed publish and its `created_at` that of its first; a package exists only if one committed |
| PublishPipeline.CommittedArtifactsAreAvailable | src/routes/publish.rs:121-182 | Every committed version's blob is in the store under its key, hashes to the row's digest and has the row's size, in every reachable state |
| PublishPipeline.PutChangesNothingStored | src/storage.rs:223-225 | Overwriting a content-addressed key changes no stored bytes, so racing publishers cannot harm each other's artifacts |
| PublishPipeline.LookupServesTheDigest | src/routes/artifacts.rs:26-31 | Whichever row with the digest is found, a download at that moment or any later one serves the bytes that hash to it, and the answer is "not found" exactly when no version has the digest |
| PublishPipeline.VersionExistsStaysTrue | src/routes/publish.rs:107-119 | A `version_exists` answer is true when given and ever after |
| PublishPipeline.PublishedStaysPublished | src/routes/publish.rs:150-163 | After a success answer the version row is the request's own for good, apart from its yank flag |
| PublishPipeline.AnswersAreFinal | src/routes/publish.rs:165-182 | A finished request's answer never changes, whatever later steps do |
| PublishPipeline.SomeRequestGoesOn | src/routes/publish.rs:142-166 | No deadlock: in every consistent state an unfinished publish, or the one holding the row it waits for, can take a step that needs nothing to fail |
| PublishPipeline.GoingOnEnds | src/routes/publish.rs:34-202 | Each such step brings its request closer to its answer and sets back no other, so requests that go on all end |
| PublishPipeline.OneSuccessPerVersion | src/routes/publish.rs:171-179 | Of all requests for one version, at most one is ever told it succeeded |
| PublishPipeline.OnlyAuthorisedWrites | src/routes/publish.rs:53-57 | Every step that writes a blob or a table is made for a token that is unscoped, or scoped to that org as owner or publisher |
| PublishPipeline.CommitsAreRequested | src/routes/publish.rs:53-163 | Over every run every committed publish is its own request's: a token that may publish there, a valid manifest with the org, name and version of the URL, the declared digest, and a row with the artifact's digest, size, format, key and the request's tag and commit |
| PublishPipeline.VersionsAreRequested | src/routes/publish.rs:53-163 | Over every run every version row there is was some such request's, apart from its yank flag |
| PublishPipeline.TimesAreTheClocks | src/routes/publish.rs:150-161 | A version's `published_at` is the clock reading of its own insert, and a package row is dated by its own upsert |
| PublishPipeline.VersionsAreImmutable | src/routes/yank.rs:37-46 | No step removes a version row or changes anything in one but its yank flag, and only a yank of that version changes that |
| PublishPipeline.UpsertIsExclusive | src/routes/publish.rs:261-296 | Two transactions never hold the same package row, and a new package's id is never shared |
| PublishPipeline.CommitSimulates | src/routes/publish.rs:165-166 | Committing both pending rows is one whole publish of the abstract registry |
| PublishPipeline.YankSimulates | src/routes/yank.rs:44-46 | A yank is one whole yank of the abstract registry |
| Registry.MetadataIsLastPublish | src/routes/publish.rs:261-289 | Replaying a legal history leaves the last publish's metadata and the first one's creation time |
| Registry.PublishedStays | src/routes/publish.rs:103-119 | In a legal history a published version stays, unchanged but for its yank flag |
| Registry.PublishBehind | src/routes/publish.rs:150-163 | Every version in a replayed catalog was brought in by a publish of the history |
| Registry.SingleWinner | src/routes/publish.rs:171-179 | A legal history publishes each version at most once |
| PublishHandler.Publish | src/routes/publish.rs:28-202 | Run among any other requests, each answer holds when given: a success means stored and served as sent, a conflict that the version is taken, a bad request that the manifest is invalid or not the URL's, or the digest or tag is wrong, and a refusal that the token may not publish; a refused publish committed nothing, and only a failing dependency is an internal error |
| PublishHandler.Vet | src/routes/publish.rs:34-119 | Everything before the first write: a request let through has an allowed token, the URL's manifest, its digest and tag, and a version not there yet; the others are refused for the reason given, with nothing written |
| PublishHandler.Server.InsertVersion | src/routes/publish.rs:150-182 | The version insert ends in a pending row, a version conflict or an error, and either of the last two rolls everything back |
| PublishHandler.Server.CommitPublish | src/routes/publish.rs:166 | An acknowledged commit means that both the package row and the version row are visible; an error leaves it open |
| PublishHandler.FindForYank | src/routes/yank.rs:25-42 | The lookups run one after the other among any other requests: what is missing was missing when the request came, what is found stays, and a failing database is an internal error |
| PublishHandler.YankVersion | src/routes/yank.rs:19-68 | Each answer holds when given; a granted yank is this request's one write and leaves the flag as asked, a refusal writes nothing, and an error of the update leaves it open whether it took effect |
| AuditChain.VerifyChain | src/audit.rs:246-299 | The loop's report is the verdict on the chained rows: how long the good prefix is, its last hash, and how the first bad row is damaged |
| AuditChain.VerdictIsExact | src/audit.rs:241-299 | Intact is reported exactly for good chains, and otherwise `entries_checked` is the length of the longest good prefix and `head_hash` its last hash |
| AuditChain.VerdictIsUnique | src/audit.rs:231-239 | The verdict determines the whole report |
| AuditChain.UnchainedRowsArePassedOver | src/audit.rs:252-255 | A row numbered 0 or less or without a hash is passed over wherever it lies, and every other row is an entry of the chain |
| AuditChain.HeadPinsHistory | src/audit.rs:194-299 | Two logs that verify with the same head have the same number of chained rows and agree on every hashed field of each |
| AuditChain.TruncationMovesTheHead | src/audit.rs:405-421 | A cut-off tail verifies, but never with the old head |
| AuditChain.DeletionIsReported | src/audit.rs:252-285 | Deleting a middle row is a gap at its position, deleting the first orphans its successor, and deleting the last moves the head |
| AuditChain.EditIsReported | src/audit.rs:267-284 | Editing any hashed content of a row is reported at that row: a mismatch, or a gap when its position moved |
| AuditChain.RehashedEditBreaksTheNextLink | src/audit.rs:269-277 | An edit that recomputes its own hash is reported at the next row, or moves the head when there is none |
| AuditChain.UncoveredColumnsGoUnreported | src/audit.rs:267-277 | The verdict does not depend on the `id` and `prev_hash` columns, except for how a mismatch is named |
| AuditChain.ChainTimestamp | src/audit.rs:67-71 | The hashed time is the clock's, cut to whole microseconds |
| AuditChain.HashSurvivesReadBackIff | src/audit.rs:60-71 | A row read back with microseconds still matches its hash exactly when the hashed time was in whole microseconds |
| AuditTable.OrgLogIsOrderedSelection | src/routes/audit.rs:123-128 | The per-org log is exactly the org's rows, as a multiset, in ascending `seq` |
| AuditAppend.NoForks | src/audit.rs:122-190 | From any backfilled log, after every interleaving with or without the lock, each org's log is contiguous, the first appended row records no predecessor and every later one its true predecessor, and the verifier reports it intact, counting exactly the appended rows |
| AuditAppend.CommittedRowsSayWhatTheyRecord | src/audit.rs:157-186 | Over every run each committed row carries its own call's org, action, subject, detail and actor, with role "admin" for an unscoped token and the token's own role otherwise, and the clock reading of its own attempt to the microsecond |
| AuditAppend.StepKeepsInv | src/audit.rs:130-189 | Every round trip of every appender, and every failure between two, keeps the logs good and every planned row true to the log it was planned on |
| AuditAppend.BoundedRetrySuffices | src/audit.rs:38-118 | A call has lost at most as often as others committed to its org since it began, so giving up takes `APPEND_ATTEMPTS` such commits, a call that meets fewer and no error appends, and none appends twice |
| AuditAppend.LossIsCharged | src/audit.rs:87-96 | Each lost attempt is charged to one commit by another caller during that attempt, after its tip read and at exactly the position it had planned; an attempt nobody commits during cannot lose |
| AuditAppend.LossesAreChargedApart | src/audit.rs:87-96 | Different losses of a call are charged to different commits, each at the position that attempt had planned for its org |
| AuditAppend.LockedAppendersNeverLose | src/audit.rs:131-142 | While every writer takes the lock, no attempt ever loses its position |
| AuditAppend.SomeAppenderGoesOn | src/audit.rs:130-189 | No deadlock: an unfinished append, or the one whose lock or uncommitted row it waits for, can take a step that needs nothing to fail |
| AuditAppend.GoingOnEnds | src/audit.rs:87-102 | Each such step brings its append closer to its end, retries included, and sets back no other |
| AuditAppend.LogOnlyGrows | src/audit.rs:173-189 | Over any run an org's log only ever gets longer at its end |
| AuditAppend.GoodLogVerifies | src/audit.rs:246-299 | A good log, legacy prefix included, verifies, with one checked entry per appended row |
| AuditAppend.RunStepExtendsLog | src/audit.rs:187-189 | Each step leaves an org's log alone or adds one row at its end |
| AuditAppend.Tip | src/audit.rs:144-148 | The row read as the tip is the org's highest, and there is none exactly when the org has no rows |
| AuditRecorder.Record | src/audit.rs:77-114 | The retry loop ends having appended exactly one row saying what was asked, under the token's role or "admin", or having met a database error, or having lost to at least `APPEND_ATTEMPTS` rows of others with none of its own; never two rows |
| AuditRecorder.AppendChained | src/audit.rs:122-190 | One attempt adds the row, loses the position or fails, and fails only when the database did |
| AuditRecorder.Database.InsertRow | src/audit.rs:173-188 | The insert waits for an uncommitted row at its position, loses only to a committed one there, and succeeds only where there is none |
| Backfill.BackfillLegacySeq | migration/src/m20260726_000008_audit_chain.rs:113-139 | The in-place update gives every row the count of its org's rows at or before it in `(at, id)` order, and changes nothing else |
| Backfill.BackfillNumbersDensely | migration/src/m20260726_000008_audit_chain.rs:61-65 | With unique ids each org's n rows get exactly 1..n, in the order they were recorded |
| Backfill.RankFollowsTime | migration/src/m20260726_000008_audit_chain.rs:135-139 | The numbers of two rows of an org are ordered exactly as their times are, equal times by id |
| Backfill.IndexCanBeBuilt | migration/src/m20260726_000008_audit_chain.rs:72-85 | After the update no two rows of an org share a `seq`, so the unique index builds |
| Backfill.BackfillIsIdempotent | migration/src/m20260726_000008_audit_chain.rs:113-115 | Running the update again on its own result changes nothing |
| Backfill.UpgradeIsAppendable | migration/src/m20260726_000008_audit_chain.rs:61-70 | The upgraded table is a starting point of the append protocol |
| Backfill.FirstAppendStartsTheChain | src/audit.rs:144-155 | The first append after the upgrade takes position n+1, has no predecessor hash, and verifies as a chain of one |
| Backfill.RerunIsHarmlessIff | migration/src/m20260726_000008_audit_chain.rs:113-139 | Re-running the update on a grown log changes nothing exactly when positions follow recorded time |
| Backfill.RerunCanRenumberHistory | migration/src/m20260726_000008_audit_chain.rs:113-139 | Two appends with a clock behind: re-running the update swaps their positions |
| AuditPaging.PagingIsExact | src/routes/audit.rs:54-81 | Following `before` returns every matching entry present at the first page once, newest first, for any limits and filter and whatever is appended meanwhile, within one page per entry and one more |
| AuditPaging.RequestIsAnswered | src/routes/audit.rs:57-81 | A request is refused exactly for an action other than the four, and otherwise answered with the newest entries of the org that match the action and lie before the cursor, newest first, as many as the limit lets through |
| AuditPaging.PageSizeIsClamped | src/routes/audit.rs:66 | 100 entries unless asked otherwise, and what is asked within 1 and 1000 |
| AuditPaging.WalkBegins | src/routes/audit.rs:54-81 | A listing under no filter or any of the four actions can be begun on every indexed log |
| AuditPaging.WalkGoesOn | src/routes/audit.rs:54-81 | And continued after every page that is not empty, whatever has been appended and whatever limit is asked for next |
| AuditPaging.ListingIsComplete | src/routes/audit.rs:67-81 | The listing is exactly the org's matching entries in strictly descending `seq` |
| AuditPaging.CursorResumes | src/routes/audit.rs:71-73 | Selecting strictly before an entry of the listing gives the rest of the listing |
| AuditPaging.RunsOnlyAppend | src/audit.rs:144-189 | Over any run of concurrent appends the log only grows in ascending order, as paging needs |
| AuditPaging.WindowAnswersForTheLogIff | src/routes/audit.rs:123-138 | For every table, the endpoint's answer is the whole log's exactly when the chain in the window is damaged or is the whole chain; a log within the window always gets its own answer |
| AuditPaging.PastTheWindowIsNotSeen | src/routes/audit.rs:123-129 | Two logs with the same window get the same answer, whatever lies behind it |
| AuditPaging.DamagePastTheWindow | src/routes/audit.rs:26-29 | A log whose one damaged row lies behind the window: the endpoint answers intact, and the verifier on the whole log reports that row |
| AuditPaging.LongChainReportsAStaleHead | src/routes/audit.rs:104-138 | On an undamaged log past 50,000 rows the endpoint answers intact, with the log's own head exactly when nothing has been chained yet |
| RateLimiting.RateLimiter.constructor | src/ratelimit.rs:55-61 | Degenerate settings are clamped to a usable burst and rate |
| RateLimiting.RateLimiter.CheckAt | src/ratelimit.rs:80-103 | One check refills, charges and answers as specified, and touches no other key's bucket |
| RateLimiting.RateLimiter.SweepAt | src/ratelimit.rs:111-114 | A sweep keeps, unchanged, exactly the buckets used less than 600 seconds ago |
| RateLimiting.KeysAreIsolated | src/ratelimit.rs:80-114 | A key's bucket and answers depend on its own requests and the sweeps only |
| RateLimiting.AllowanceIsConserved | src/ratelimit.rs:86-97 | What was allowed and what is left never exceed what was there plus the refill |
| RateLimiting.AllowanceUnderAnyClock | src/ratelimit.rs:86-97 | Whatever the clock reads, what was allowed and what is left never exceed what was there plus the refill of the clock's steps forward |
| RateLimiting.VolleyIsAllowed | src/ratelimit.rs:54-61 | A caller with n tokens left gets n back-to-back requests through, and each costs exactly one |
| RateLimiting.LimiterIsRateBounded | src/ratelimit.rs:80-114 | In any window of length T of any run of the whole limiter, a key is allowed at most burst + rate·T, whatever other keys do and whenever sweeps come |
| RateLimiting.LimiterUnderAnyClock | src/ratelimit.rs:80-114 | For any clock, in any window of any run of the whole limiter a key is allowed at most burst + rate·(span + everything the clock stepped back) |
| RateLimiting.WindowIsBounded | src/ratelimit.rs:80-103 | The same window bound for one key's events, without sweeps for any settings |
| RateLimiting.RateBoundedIff | src/ratelimit.rs:109-114 | With sweeps at arbitrary times the bound holds over every run exactly when burst ≤ 600·rate |
| RateLimiting.EvictionGrantsASecondBurst | src/ratelimit.rs:24-26 | A burst, a sweep after the idle time and another burst are all allowed |
| RateLimiting.SteppingBackBreaksTheBound | src/ratelimit.rs:87-91 | For every setting and every step back d, readings that alternate between 0 and d for long enough get more through than burst + rate·d |
| RateLimiting.SweepingNeverPunishes | src/ratelimit.rs:109-114 | Over any run a key is allowed at least as many requests with the sweeps as without them |
| RateLimiting.SweepingIsInvisible | src/ratelimit.rs:109-114 | When burst ≤ 600·rate every single answer is the same with the sweeps as without |
| RateLimiting.RetryAfterIsSound | src/ratelimit.rs:98-102 | A request made when a denial said is allowed if every one in between was denied, however many; the wait is at least 1 |
| RateLimiting.RetryAfterIsTight | src/ratelimit.rs:98-102 | Unless it is the minimum, everyone who comes up to a second early is still denied |
| OrgQuota.QuotaHolds | src/routes/orgs.rs:112-168 | Over every interleaving on any number of replicas a scoped token never owns more orgs than the quota or, if larger, than it started with |
| OrgQuota.LosersAddNothing | src/routes/orgs.rs:156-168 | Slugs stay unique; a claim told it created the org did so once; a claim refused for its slug, a malformed one included, or for the quota added no row |
| OrgQuota.StepKeepsInv | src/routes/orgs.rs:112-168 | Every round trip, crash and lost acknowledgement keeps slugs unique, the lock exclusive and counted claims within the quota |
| OrgQuota.FindOrg | src/routes/orgs.rs:85-89 | The lookup finds an org with the slug exactly when there is one |
| OrgQuota.PrecheckIsExact | src/routes/orgs.rs:79-100 | The first checks refuse exactly the malformed slugs and the taken ones, and answer "already yours" exactly when the org with the slug is the token's own |
| OrgQuota.SomeClaimGoesOn | src/routes/orgs.rs:117-168 | No deadlock: an unfinished claim, or the one whose lock or uncommitted slug it waits for, can take a step that needs nothing to fail |
| OrgQuota.GoingOnEnds | src/routes/orgs.rs:117-168 | Each such step brings its claim closer to its answer and sets back no other |
| OrgQuota.WithoutTheLockTheQuotaFails | src/routes/orgs.rs:101-105 | Without the per-token lock, for every quota of at least one, a token one org short of it can end up one org over it |
| ClaimHandler.ClaimOrg | src/routes/orgs.rs:73-110 | Run among any other claims, its answer holds when given: a malformed slug is refused, the token's own org is always told apart, only a created or failed claim can have added a row, and the token is within its quota afterwards |
| ClaimHandler.ClaimSerialized | src/routes/orgs.rs:112-184 | The critical section's answer: created, over quota, beaten to the slug, or failed, each true when given |
| ClaimHandler.Database.InsertOrg | src/routes/orgs.rs:147-167 | The insert waits for an uncommitted slug, loses to a committed one, and otherwise holds the claim's own row |
| BudgetedExtraction.Inflater.Read | src/files.rs:69 | The decoder hands out the next bytes, as few as it likes, and at the end of them reports the end or, on corrupt input, an error |
| BudgetedExtraction.BudgetReader.Read | src/files.rs:60-73 | One read gives the budget error exactly when nothing remains, passes the decoder's own error on uncharged, and otherwise hands out the next bytes, within both the buffer and the budget, and charges for them |
| BudgetedExtraction.BudgetIsTransparent | src/files.rs:54-73 | For any reads and any short returns: callers see a prefix of the stream, at most budget + 1 bytes of it; the end, or the decoder's error, shows only after all of a stream within the budget, the budget error only for a longer one |
| BudgetedExtraction.ReadingComesToAVerdict | src/files.rs:60-73 | Non-empty reads reach the end or an error within one read more than the bytes handed out |
| BudgetedExtraction.ReadUpTo | src/files.rs:157-161 | The copy loop returns all it was asked for, or all there is, or the budget error exactly when the budget gives out first, or the decoder's exactly when that does |
| BudgetedExtraction.CappedCopy | src/files.rs:157-166 | What a capped copy comes to never exceeds the cap, and is the whole entry exactly when that fits the cap and the budget |
| BudgetedExtraction.ReadCapped | src/files.rs:159-166 | The method copies as specified: the entry, or too large, or over budget, or an archive error |
| BudgetedExtraction.NextHeader | src/files.rs:116-119 | Going to the next header reads past the entry before it and reports the budget, a decoder error, a cut-off archive or its end |
| BudgetedExtraction.Padded | src/files.rs:19-31 | A skipped content takes up whole blocks, the fewest that hold it |
| BudgetedExtraction.FirstStop | src/files.rs:118-120 | The scan goes no further than the first entry of the name or the first header that cannot be read |
| BudgetedExtraction.ExtractTarGz | src/files.rs:107-128 | The scan's answer is decided by where the first entry of the name, or first unreadable header, lies, the budget, the cap, and where and how the stream ends |
| BudgetedExtraction.ScanFindsTheFirstEntry | src/files.rs:19-31 | On an intact archive the answer is the first entry of the name, whole, or absent, too large or behind an unreadable header; the budget can only replace it, and only for an archive that does not fit |
| BudgetedExtraction.AnswersByName | src/files.rs:105-127 | On an intact archive that fits the budget: a file is served exactly when it is the content, within the cap, of the first entry of that very name; "absent" exactly when no readable entry has the name; and the refusals exactly for one over the cap or an unreadable header before it |
| BudgetedExtraction.PackedFileIsServed | src/files.rs:105-127 | Packing and serving are inverse: from files packed one after the other, a name gets back exactly the bytes of the first file packed under it |
| BudgetedExtraction.ServedEntryIsWholeIff | src/files.rs:157-166 | A served entry is the whole declared one exactly when the stream does not end inside it |
| BudgetedExtraction.CutShortEntryIsServed | src/files.rs:157-166 | Any content shorter than the size its header declares, with nothing behind it, is served as a success |
| BudgetedExtraction.CutOffArchive | src/files.rs:117-127 | An archive cut off before its closing block, with nothing found so far, is answered "absent" exactly when the cut lies between two entries, and with an archive error anywhere else |
| BudgetedExtraction.CorruptionIsReported | src/files.rs:69 | A decoder that fails before the scan has what it needs is answered with an error, never as an absent or short file |
| BudgetedExtraction.LargerBudgetKeepsAnswers | src/files.rs:33-41 | Raising the budget never takes an answer away or changes it |
| MemoryStore.RetainedBytes | src/storage.rs:99-105 | The overflow-checked fold, in whatever order keys come, is the true sum of the other objects, and fails exactly when that does not fit 64 bits |
| MemoryStore.Store.Put | src/storage.rs:93-118 | A put is refused exactly when the store after it would exceed the budget or 64 bits; accepted, it replaces that key alone, and refused it changes nothing |
| MemoryStore.Store.GetBytes | src/storage.rs:174-185 | Buffered reads succeed exactly for stored objects within the ceiling, and say why not otherwise |
| MemoryStore.TotalLenAfterWrite | src/storage.rs:95-98 | Replacing a key counts its bytes once |
| MemoryStore.CapacityHolds | src/storage.rs:95-118 | Over every run of puts the retained bytes stay within the budget, with any one key left out too |
| MemoryStore.LookupIsTheLastAcceptedPut | src/storage.rs:142-152 | A key reads back as its last accepted put, and is absent when none was accepted |
| MemoryStore.RefusedPutLeavesNoTrace | src/storage.rs:111-116 | Dropping a refused put from a history leaves the same store |
| MemoryStore.RewritingTheSameBytesIsFree | src/storage.rs:95-98 | Putting stored bytes again is always accepted, even into a full store, and changes nothing |
| VersionListing.SortVersionsDesc | src/routes/mod.rs:161-164 | The slice ends in descending order with the elements it had |
| VersionListing.VisibleVersionsDesc | src/routes/mod.rs:172-180 | The result is the non-yanked versions, each once per row, in descending order |
| VersionListing.LatestVisibleVersion | src/routes/mod.rs:182-184 | The latest is the highest visible version, absent exactly when none is visible |
| VersionListing.ListingIsOrderFree | src/routes/mod.rs:166-171 | Any two orders of the same rows give the same listing, for any total order on versions |
| VersionListing.FateIsReplayed | src/routes/yank.rs:37-46 | What the committed changes say became of a version is what replaying them leaves |
| VersionListing.LatestOverEveryRun | src/routes/mod.rs:166-184 | Over every interleaving of publishes, yanks and restores, in whatever order the package's rows are read, the latest is the highest version published and not currently yanked, absent exactly when none is visible |
| VersionListing.YankThenRestore | src/routes/yank.rs:44-46 | A yank hides exactly the version it names, and restoring it gives back the catalog there was |
| LikePattern.EscapeIsPerCharacter | src/routes/search.rs:42-49 | The three replacements in sequence are one per-character map |
| LikePattern.UnescapeInverts | src/routes/search.rs:45-49 | Escaping has a left inverse, so distinct queries give distinct patterns |
| LikePattern.ContainsEscapedMeansContains | src/routes/search.rs:51-53 | The pattern is well formed, and under LIKE with the escape character it matches a string exactly when the query occurs in it |

## Left out

- HTTP routing, multipart and JSON parsing, headers, authentication, tracing, timeouts and concurrency layers: the
  handlers start from parsed requests and a known token.
- Tokens' roles: publish and yank use the publish permission as a guard; the management permission on the audit
  endpoints is not part of this model.
- The S3 and local-disk backends and presigning: the publish protocol's store is one that either performs a whole put
  or fails it; a local write torn by a crash is not part of this model.
- The repository tag check: a yes/no input of publish.
- The fiducia lock around a claim: it is fail-open, and the quota is proved without it.
- The `zed-interfaces` crate: the version comparator is an arbitrary total order on version identities, and the audit
  preimage an injective encoding.
- Hash collisions, in SHA-256 and in the advisory-lock key of the audit log; the org-claim lock key may collide.
- The audit writes that publish, yank and claim make after their commit: they are best-effort and never change the
  answer, so they are modelled on their own.
- The publish preflight looks up the package and then the version; one step does both, since no step ever removes
  either row.
- Org claims during a publish: `PublishPipeline` takes the set of orgs as given, since no endpoint removes one.
- 64-bit overflow of `seq` at its largest value, of row counts and of artifact lengths.
- f64 rounding, infinite rates, and the saturation of a retry time at the 64-bit limit.
- The gzip, tar and zip libraries: an archive is the bytes it inflates to, whether the decoder fails after them, and the
  headers its blocks hold, each readable or not; each entry is a 512-byte header and its content padded to whole blocks,
  skipped by reading, and it ends where the stream does. Long names, sparse entries and the zip branch are not part of
  this model.
- The reader's narrowing of its budget to the platform's pointer width, which is lossless on 64-bit targets only.
- Fairness: the protocols cannot deadlock and going on comes to an end, but which waiting request the database serves
  next is up to the database.
- The embeddings, semantic search, tag filters, package listing, repository-URL checks and metrics: separate from the
  state kept here, and lighter.
