# ZeroDock, verified model

ZeroDock scans cloud accounts inside an enclave, seals a hash of the results, ingests the report into
an append-only ledger, and lets the buyer's browser re-derive the hash, the drift and the changes. The
modules here model the algorithms between the cloud calls and prove what the rest of the system relies
on. Cloud answers, probes, database randomness, SHA-384, base64 and the attestation check are inputs:
every theorem is about all of their outcomes.

| modules | what they model |
|---|---|
| `GoJson`, `Canonical`, `HashTs`, `GoMarshal`, `CleanReport`, `HashPipeline` | the hand-written JSON encoder of the browser, Go's encoder, and the way of a report from ingest over the database row to the browser's hash |
| `ScopeValidation`, `Organization`, `Aggregate`, `Scanner`, `Providers`, `Gcp` | which reports are accepted, enumeration of an organization, the scanner's account loop and its aggregate, the whole run with Supabase, Google Cloud and Azure beside AWS, the walk over Google Cloud folders |
| `Onboarding`, `Ledger`, `Relay` | three protocols as transition systems over all interleavings: the bounded fan-out of probes, `CreateVerdict` transactions, the connection relay |
| `Diff`, `DiffTs`, `Scope`, `ControlHistory` | change detection: the change set and its browser mirror, scope drift with float64 ratios, the control timeline |
| `Text`, `QuestionnaireConfig`, `Matcher`, `Decide`, `Wording`, `Document`, `SecondPass`, `ColumnNames`, `LostCells`, `Audit` | the questionnaire engine: phrases, mappings, decisions, what their texts say, the table filler, the filler run on its own output, the mapping audit |
| `Wrappers`, `Sorting`, `Report` | options, orders on strings (UTF-8 bytes in Go, UTF-16 units in JavaScript) with the unique ascending arrangement of a set, the shape of a report |

`dafny verify dfyconfig.toml` checks everything. Code that changes state step by step is a class or a
method with loops (`Ledger.Store`, `Document.Sheet`, `Audit.MappingAudit`, the loops of every module);
each is tied to a specification function whose properties are the lemmas below. Concurrent code is a
step relation, an inductive invariant and theorems about all runs.

## Where the code does not do what was promised

Each of these keeps the code as it is and proves exactly when the promise holds; most also have a lemma or
a method for an input where it does not.

- Browser and Go hash the same bytes if and only if the report has a checks map, its map keys come out
  in the same order in both languages, and no string holds U+0008 or U+000C
  (`HashPipeline.SameBytesIffReproducible`). The keys of a map come out alike if and only if none is
  `__proto__` and JavaScript lists any two of them the way their bytes compare (`Canonical.SameOrderIff`).
  It fails for a report with accounts 9 and 10 (`HashPipeline.IndexAccountsFail`) and for U+0008 in a warning
  (`HashPipeline.BackspaceFails`); check IDs, 12-digit account IDs and project IDs are safe
  (`HashPipeline.PlainReportReproducible`).
- A run over a verified AWS organization and Supabase, Google Cloud or Azure is refused by the ingest
  handler, which wants every check, the other provider's too, to cover every listed AWS account. It is
  accepted if and only if some account was scanned and, when the organization was verified, every listed
  account is also a project or subscription of every other provider (`Providers.RunAccepted`); a management
  account that is no project of the other provider is enough to refuse it (`Providers.ProviderRunRefused`;
  `Providers.RefusedRun` is one account and one Supabase project).
- The relay does not get every permit back on every exception path: the permits missing at the end are as
  many as the `close()` calls that raised inside `finally` (`Relay.PermitsBackIffNoneRaised`); a run that loses
  one is `Relay.LeakedPermitIsLost`.
- `migrations/0005_account_history.sql` calls `first_seen_at` the earliest attested time. A new verdict keeps it so
  if and only if it is no older than the first scan of any account it lists (`Ledger.EarliestIffOnTime`, over
  runs `Ledger.EarliestIffRunOnTime`); two scans out of order are `Ledger.LateArrival`.
- The drift test on float64 ratios is exact while the product of the two listed counts is below 2^53
  (`Scope.DropIsExact`). It misses a drop at a product less than three millionths above 2^53
  (`Scope.MissedDrop`). Events rebuild the current list except after a zero snapshot (`Scope.DriftRebuilds`).
- The browser's change set equals the server's unless an account is named like a property every
  JavaScript object inherits (`DiffTs.BrowserAgreesWithServer`, both directions); an account named
  `constructor` is such an input (`DiffTs.ConstructorAccount`).
- A phrase without letters or digits matches exactly the texts without any (`Text.ContainsPhraseMeansRun`).
- A mapping file may name a restricted topic `""`, which then hides every other topic, and a topic that
  sorts after `policy` is not protected beside a policy phrase and technical language (`Decide.RestrictedIff`;
  `Decide.EmptyTopicHides` and `Decide.LaterTopicUnprotected` are valid files where it happens).
- A second run of the filler on its own output, with a trimmed evidence URL, can overwrite answers and
  evidence of the first. It keeps them all if and only if no row below the header outscores the completed
  header, or every row survives the columns found instead: the row is passed over, or the cell stands in no
  column the run writes, or the same text is written, and in the row taken for the header no new column name
  falls on the cell (`SecondPass.SecondRunKeepsIff`). With a control column none is lost
  (`SecondPass.ControlColumnKeeps`). The filler's own remark, "needs human — existing answer preserved",
  reads as the name of an answer column, so a second header in the sheet can outscore the first: in one such
  file a person's answer and the evidence beside it become remarks (`LostCells.SecondRunLosesAnswer`), in the
  same file the URL the first run wrote into an empty evidence cell does (`LostCells.SecondRunLosesEvidence`).
- Writing a URL again into the evidence cell it was written into changes nothing, for a cell that was blank, if
  and only if the URL is trimmed or blank (`SecondPass.EvidenceStableIff`, `SecondPass.UntrimmedURLGrows`), and for
  one that was not if and only if the URL is empty, was there before, or is still found when the longer text is
  trimmed (`SecondPass.EvidenceBesideStableIff`).
- An accepted report is not always stored. A database made by the migrations has NOT NULL account columns and
  refuses an accepted report over an unverified organization whose account list is nil
  (`HashPipeline.AcceptedStored`); that is every accepted report of a scan over an unverified organization
  (`Providers.RunStored`). One older than migrations/0003 and brought up to date takes them.
- The control timeline covers the newest 100 verdicts. Its entries give the states of the whole ledger if and
  only if every account known before is observed again (`ControlHistory.WindowIsLosslessIff`), and an account's
  first entry is its first observation if and only if it was not known before
  (`ControlHistory.FirstInLedgerIff`).

## Assumptions

The row lock of `share_links` is held until the transaction ends. SHA-384 is any function; where the
browser's check could only succeed by a collision, the theorem says so. `RoundsToNearest` is
round-to-nearest over float64 with any rule for ties. The Unicode tables are any classification;
`Text.Sound` states what is needed of them; the names the filler gives to its columns are recognised as
such, which holds for every classification that knows the ASCII letters (`ColumnNames.AsciiRecognises`).
`localeCompare` is any weak order of strings. The AWS checks of the catalogue have IDs that start with
`aws.`; another provider's scan gives one result of each of its checks for each of its projects or
subscriptions, under IDs with its prefix (`Providers.WellFormed`). A loaded mapping file has distinct check
IDs, which loading enforces (`QuestionnaireConfig.Validate`). Verdicts come newest first, as the store
returns them.

## Model

| member | source | states |
|---|---|---|
| `GoJson.GoJSONString` | web/src/verify/hash.ts:179-201 | the loop writes exactly the string specified character by character: short escapes, HTML and line-separator escapes, everything else as it is |
| `GoJson.DecimalForm` | web/src/verify/hash.ts:157-168 | integers print as digits without leading zeros, with a minus sign exactly before negative ones |
| `GoJson.ParseQuoted` | web/src/verify/hash.ts:179-201 | a parser recovers the string and the text after it from what either encoder quotes |
| `GoJson.ParsePrint` | web/src/verify/hash.ts:157-168 | the printer is unambiguous: for every value, either encoder and any text after it, the parser returns exactly that value and that text, unless the value is a number and the text goes on with a digit, when it does not |
| `GoJson.PrintInjective` | web/src/verify/hash.ts:157-168 | equal texts come from equal values, even across the two encoders |
| `GoJson.PrintersAgree` | web/src/verify/hash.ts:170-201 | Go and the browser print a value alike if and only if no string or key in it contains U+0008 or U+000C |
| `Canonical.KeptInjective` | web/src/verify/hash.ts:86-139 | with omitempty, two records of the same distinct field names print the same members only if every field agrees: an omitted field is never mistaken for a printed one |
| `Canonical.OwnKeys` | web/src/verify/hash.ts:160-167 | the order in which the browser lists properties: array indices first in numeric order, then the others as added |
| `Canonical.PlainKeysAgree` | web/src/verify/hash.ts:116-135 | keys that are no array index, not `__proto__` and without supplementary characters come out in the same order in Go and in the browser |
| `Canonical.SameOrderIff` | web/src/verify/hash.ts:116-135 | a set of keys comes out in the same order in Go and in the browser if and only if `__proto__` is not among them and for any two of them JavaScript's order, array indices first, is the byte order |
| `Canonical.IndexKeysDisagree` | web/src/verify/hash.ts:116-135 | the orders differ for every set of keys that holds 9 and 10 |
| `HashTs.BuildAttestedContentForHashing` | web/src/verify/hash.ts:86-139 | filling the object field by field gives the specified object, in declaration order with omitempty, or fails exactly when there is no checks map |
| `HashTs.BuildResultForHashing` | web/src/verify/hash.ts:141-154 | null findings stay null; region and evidence are dropped exactly when empty or absent |
| `HashTs.BuildChecks` | web/src/verify/hash.ts:116-135 | checks and accounts appear in the order of the sorted keys, each under its own key |
| `HashTs.SameTextIffSameContent` | web/src/verify/hash.ts:86-201 | two responses have the same canonical text if and only if they agree up to empty-versus-absent omitempty fields and map insertion order |
| `HashTs.NullIsNotEmpty` | web/src/verify/hash.ts:141-154 | null findings and empty findings never give the same text |
| `CleanReport.ContentClean` | internal/report/report.go:50-85 | the sealed object is free of the two control characters exactly when every string and map key of the report is |
| `HashPipeline.SameContent` | internal/api/handlers.go:121-154 | storing, reading back and rendering a report loses nothing that is hashed: the browser rebuilds the sealed object if and only if its map keys order alike |
| `HashPipeline.SameBytesIffReproducible` | internal/api/view.go:69-117 | for every storable report with safe-integer counts: browser bytes equal sealed bytes if and only if the report is Reproducible |
| `HashPipeline.PlainReportReproducible` | internal/api/view.go:69-117 | ordinary keys and clean strings are enough for Reproducible |
| `HashPipeline.IndexAccountsFail` | web/src/verify/hash.ts:116-135 | an acceptable, storable report with accounts 9 and 10 whose browser bytes are not the sealed ones |
| `HashPipeline.BackspaceFails` | web/src/verify/hash.ts:170-201 | an acceptable, storable report with U+0008 in a warning whose browser bytes are not the sealed ones |
| `HashPipeline.HandleCreateVerdict` | internal/api/handlers.go:57-171 | each of the five answers exactly under its condition: bad request for an undecodable body, a missing field or an undecodable document; created, conflict and failure for accepted submissions by what the store says; unprocessable otherwise; a created row is the submission's |
| `HashPipeline.CreatedDelivered` | internal/api/handlers.go:57-171 | a created row comes from an accepted submission and is, as the API renders it, what the browser gets |
| `HashPipeline.CreatedMeans` | internal/api/handlers.go:57-171 | a row is created exactly when the required fields are there, the scope is confirmed and accepted, claimed hash, sealed hash and the hash of the content are one, the lists the database wants are given, and it takes the row; then scanned accounts are listed ones; the body is a bad request exactly when it does not decode, misses a field or has an undecodable document |
| `HashPipeline.AcceptedStored` | migrations/0001_init.sql:45-54 | an accepted report is stored exactly when its region lists are not nil and, on a database made by the migrations, its organization is verified or its account list not nil |
| `HashPipeline.HashAttestedContent` | internal/api/handlers.go:565-577 | the server's hash is the hex digest of the canonical text, with the keys of every map sorted |
| `HashPipeline.HexInjective` | web/src/verify/hash.ts:203-207 | hex encoding loses nothing, so comparing hex strings compares digests |
| `HashPipeline.HexAnyCase` | web/src/verify/hash.ts:51-72 | a results hash in any letter case is lowered to the digits the comparison expects |
| `HashPipeline.BrowserVerifiesAcceptedReport` | web/src/verify/hash.ts:51-72 | end to end: the browser verifies every accepted and stored Reproducible report; it verifies another one only on a SHA-384 collision of the two texts |
| `ScopeValidation.ValidateOrganizationScope` | internal/api/handlers.go:173-286 | no error exactly for the accepted scopes: scanned nonempty and within listed, a result of every check for every listed account, the other providers all or nothing |
| `ScopeValidation.AcceptedMeans` | internal/api/handlers.go:173-286 | acceptance spelled out on the fields: some account scanned, an unverified organization warned about, a verified one with its ID, its listed accounts, the scanned among them, a result of each for every check, and all or nothing of each other provider |
| `ScopeValidation.FirstUncovered` | internal/api/handlers.go:206-212 | reports a check and a listed unit without a result, and finds none only when every check covers every unit |
| `Organization.EnumerateOrganization` | internal/providers/organization.go:48-99 | the paging loop returns the sorted set of all nonempty IDs on all pages, or an error exactly when a call fails, the ID is empty or the current account is missing |
| `Organization.EnumerationGuarantees` | internal/providers/organization.go:64-99 | the current account is listed, IDs are distinct and ascending, nothing a page returned is lost or invented, no-organization means the single account |
| `Onboarding.InvStep` | internal/providers/onboarding.go:103-136 | each step of each goroutine keeps: slots, WaitGroup and lock match the goroutines that hold them, the counter is 1 plus the finished successes |
| `Onboarding.NoDeadlock` | internal/providers/onboarding.go:103-136 | until the function returned some goroutine can move |
| `Onboarding.MeasureDecreases` | internal/providers/onboarding.go:103-136 | every step decreases a measure, so every run ends |
| `Onboarding.CountConnectedMembers` | internal/providers/onboarding.go:103-136 | in every interleaving at most 10 probes are in flight, the run length is bounded, and the value returned is 1 plus the successful non-management probes although the increment is a separate read and write |
| `Onboarding.StatusIsHonest` | internal/providers/onboarding.go:88-97 | the status shows the organization as verified with its number of accounts; connected is between 1 and that, and equals it exactly when every member probe succeeded |
| `Onboarding.CheckOnboardingStatus` | internal/providers/onboarding.go:61-97 | each answer exactly in its case: an error, not connected, a single account outside any organization (connected, scope not verified), or the counts of the organization |
| `Ledger.Store.InsertAccountHistory` | internal/store/store.go:469-503 | the loop inserts one specified row for each listed account, or fails exactly when an account is listed twice |
| `Ledger.Store.CreateVerdict` | internal/store/store.go:169-288 | the whole new ledger of one uninterrupted transaction: created, duplicate scan or failed, with tokens kept and rows appended |
| `Ledger.NextRowIsRow` | internal/store/store.go:476-490 | MIN(first_seen_at) over committed and own rows is the observed time of the first row of that token and account |
| `Ledger.InvStep` | internal/store/store.go:169-288 | each step of each concurrent transaction keeps the ledger invariant: tokens, pending rows, scans, IDs, provenance |
| `Ledger.CommitIsSerial` | internal/store/store.go:169-288 | in every interleaving a commit changes the ledger exactly as the uninterrupted transaction would on the ledger of that moment |
| `Ledger.LedgerSafety` | internal/store/store.go:169-288 | over every run: one token per account for ever, distinct tokens, unique scan IDs, the ledger only grows, an aborted transaction has left no share link, verdict or history row, one first_seen_at per token and account |
| `Ledger.RunHistoryTells` | internal/store/store.go:469-503 | over every run: each history row belongs to the one verdict row with its verdict ID, names one of its listed accounts, has its organization and time, and says scanned exactly when the account is among the scanned ones, otherwise listed_unreachable; every listed account of every verdict row has exactly one such row |
| `Ledger.NoTrace` | internal/store/store.go:169-288 | no account has the token an aborted transaction would have given, and no verdict or history row the ID it had drawn, whether or not it had drawn one |
| `Ledger.EarliestIffOnTime` | migrations/0005_account_history.sql:24-30 | a verdict keeps first_seen_at the earliest attested time exactly when it is no older than the first scan of any account it lists |
| `Ledger.EarliestIffRunOnTime` | migrations/0005_account_history.sql:24-30 | over every run: first_seen_at is the earliest attested time exactly while every commit so far was on time |
| `Ledger.LateArrival` | migrations/0005_account_history.sql:24-30 | two scans arriving out of order leave a row first seen after it was observed |
| `Ledger.NoDeadlock` | internal/store/store.go:169-288 | while a transaction is unfinished, some transaction can execute its next statement without an error |
| `Ledger.StepRemaining` | internal/store/store.go:169-288 | every statement leaves its transaction fewer to go and the others as they are, so every run ends |
| `Relay.InvStep` | deploy/supabase-data-relay.py:70-107 | each step of each handler keeps: permits free plus held make 8, the total counts the admitted, the lock has its holder |
| `Relay.RelayBounds` | deploy/supabase-data-relay.py:70-107 | over every run: never more than 8 permits held, never a release without an acquire, at most 500 admitted and only they are served |
| `Relay.AdmittedIff` | deploy/supabase-data-relay.py:70-80 | a connection that has ended was admitted exactly when it found one of the 8 permits free and fewer than 500 admitted before it |
| `Relay.AddressesInTurn` | deploy/supabase-data-relay.py:82-101 | over every run: each address of a host is tried once and in turn, data is copied only after a connect that went through, and the next address is tried only after an OSError |
| `Relay.PermitsBackIffNoneRaised` | deploy/supabase-data-relay.py:102-107 | when all handlers have ended, the permits missing are exactly as many as the close() calls that raised inside finally; all are back if and only if none did |
| `Relay.LeakedPermitIsLost` | deploy/supabase-data-relay.py:102-107 | a run that ends with 7 permits |
| `Relay.NoDeadlock` | deploy/supabase-data-relay.py:70-107 | while some handler has not ended, some handler can move |
| `Relay.StepAdvances` | deploy/supabase-data-relay.py:70-107 | each step moves its handler to an earlier stage or on within it, whatever the number of addresses, so every handler ends |
| `Diff.SetDifference` | internal/diff/diff.go:99-117 | the distinct items of the left list that are not in the right one, in byte order |
| `Diff.Reports` | internal/diff/diff.go:41-90 | over any map order and any sort: exactly the specified events, each once, ascending in the comparator |
| `Diff.EventsTotallyOrdered` | internal/diff/diff.go:73-88 | the comparator is a strict total order on the events one call can emit |
| `Diff.ReportsDeterministic` | internal/diff/diff.go:41-90 | two results for the same snapshots are equal, and severity groups are contiguous |
| `Diff.ReportOrder` | internal/diff/diff.go:73-135 | regressions, new findings and changes to fail or error, come first, then neutral changes, then improvements, resolved findings and changes away from fail or error; within a group by check, then by account, there findings in byte order and then the status |
| `Diff.ReplayGivesCurrent` | internal/diff/diff.go:41-117 | replaying the events about a check and account on its previous status and findings gives the current ones |
| `Diff.NoEventRedundant` | internal/diff/diff.go:41-117 | leaving out any one event about a check and account gives another result |
| `Diff.SwapReverses` | internal/diff/diff.go:41-135 | swapping the snapshots swaps new with resolved findings and the two statuses, up to the title |
| `Diff.SwapReversesReports` | internal/diff/diff.go:41-135 | for the two whole reports: each holds exactly the reverses of the other's events, and they have the same length |
| `DiffTs.SetDifferenceJs` | web/src/verify/diff.ts:25-28 | the distinct items of the left list not in the right one, in UTF-16 order |
| `DiffTs.DiffReports` | web/src/verify/diff.ts:39-69 | exactly the specified browser events, each once, none before one that sorts first in the comparator, for any order of strings that localeCompare may define |
| `DiffTs.SeverityGroups` | web/src/verify/diff.ts:65-68 | the same order on the browser's list: no improvement or neutral change before a regression, no improvement before a neutral change |
| `DiffTs.SameList` | web/src/verify/diff.ts:39-69 | where the events agree and localeCompare orders their strings by bytes, the browser's list is the server's, event for event |
| `DiffTs.BrowserAgreesWithServer` | web/src/verify/diff.ts:21-63 | for two delivered reports the browser emits the events of the server if and only if no account carries an inherited property name and is missing from the old snapshot |
| `DiffTs.ConstructorAccount` | web/src/verify/diff.ts:21-45 | an account named constructor, new in the second of two reports: the browser emits an event the server does not |
| `Scope.Detect` | internal/scope/scope.go:80-118 | added, removed and coverage events as specified, in list order |
| `Scope.DriftIsExact` | internal/scope/scope.go:80-118 | which events there are, on the snapshots themselves: newly listed accounts with their scanner-role flag, vanished accounts, a drop of the rounded ratios with its counts; none after a zero snapshot |
| `Scope.CoverageEventIff` | internal/scope/scope.go:102-111 | with scanned within listed and a product of listed counts below 2^53: a coverage event is there exactly when both lists are nonempty and the exact ratio fell, with the previous counts first |
| `Scope.CoverageEventIsDrop` | internal/scope/scope.go:102-111 | up to 2^53 accounts a coverage event always carries the two snapshots' counts and a real drop |
| `Scope.DriftInOrder` | internal/scope/scope.go:86-111 | newly listed accounts come first, in the order listed now and with their role flag, then the vanished ones in the order listed before, then the coverage drop |
| `Scope.DriftRebuilds` | internal/scope/scope.go:80-118 | the current list follows from the previous one and the events, except from a zero snapshot to a nonempty list |
| `Scope.Monotone` | internal/scope/scope.go:102-104 | rounding to nearest, with any tie rule, is monotone |
| `Scope.NoFalseDrop` | internal/scope/scope.go:102-104 | the float64 test never reports a drop the exact ratios do not have |
| `Scope.DropIsExact` | internal/scope/scope.go:102-104 | with scanned within listed and a product of listed counts below 2^53 the float64 test is exact cross-multiplication |
| `Scope.DropIsExactBelow26Bits` | internal/scope/scope.go:102-104 | in particular for fewer than 2^26 listed accounts on both sides |
| `Scope.MissedDrop` | internal/scope/scope.go:102-104 | a real drop that rounds to no drop, with a product of listed counts less than three millionths above 2^53 |
| `ControlHistory.HandleControlHistory` | internal/api/handlers.go:364-416 | over the newest 100 verdicts of the token the oldest-first walk gives the specified timeline, or an error exactly when some of their stored checks do not decode |
| `ControlHistory.StateIsLatestObservation` | internal/api/handlers.go:382-414 | the state as of a verdict is each account's newest observation at or before it |
| `ControlHistory.TimelineIsLossless` | internal/api/handlers.go:382-414 | replaying the entries of a verdict's scan and all older scans gives every account's status as of that verdict |
| `ControlHistory.TimelineIsMinimal` | internal/api/handlers.go:406-411 | of two neighbouring entries of an account the later starts where the earlier ended and differs from it |
| `ControlHistory.StillEntry` | internal/api/handlers.go:406-411 | an entry changes nothing exactly when it is its account's first and the status is empty |
| `ControlHistory.EntryIsObservation` | internal/api/handlers.go:406-411 | every entry carries the scan, time, account and status of an observation |
| `ControlHistory.TimelineTells` | internal/api/handlers.go:382-414 | replaying the entries of a verdict's scan and all older ones gives an account the status that the newest of these verdicts that mentions it gives it |
| `ControlHistory.EntrySeen` | internal/api/handlers.go:382-414 | every entry has the scan and the time of a verdict that says this status of this account, by account or, without results by account, for the verdict's own |
| `ControlHistory.WindowIsLosslessIff` | internal/store/store.go:351-371 | the entries of the newest verdicts, on top of what was known before, give every state of the whole ledger; alone they do exactly when every account known before is observed again |
| `ControlHistory.FirstInLedgerIff` | internal/store/store.go:351-371 | an account's first entry is its oldest observation among the newest verdicts, and its first in the ledger exactly when it was not known before them |
| `Text.ContainsPhraseMeansRun` | internal/questionnaire/matcher.go:291-299 | on normalised text the string test holds exactly when the phrase's tokens are a contiguous run of the text's tokens: no partial-word match |
| `Text.NormalizeIsIdempotent` | internal/questionnaire/matcher.go:291-295 | normalising twice is normalising once |
| `Text.TokensAround` | internal/questionnaire/matcher.go:291-295 | a character that is no letter or digit parts the tokens before it from those after it |
| `Text.TokensOfWord` | internal/questionnaire/matcher.go:291-295 | a run of letters and digits is one token, its lower case |
| `Text.TrimCuts` | internal/questionnaire/matcher.go:310-321 | trimming takes white space off both ends, all of it and nothing else |
| `QuestionnaireConfig.Validate` | internal/questionnaire/config.go:85-116 | accepts exactly the well-formed files, with distinct check IDs |
| `QuestionnaireConfig.ValidMeans` | internal/questionnaire/config.go:85-116 | well-formed spelled out: version 1, positive minutes, phrases for the four topics, a reason and keywords for each gap, usable mappings, one a check |
| `QuestionnaireConfig.MappingsForAccount` | internal/questionnaire/config.go:118-150 | any sort of the enabled mappings with their overrides applied |
| `QuestionnaireConfig.MappingListMembers` | internal/questionnaire/config.go:118-150 | the list holds exactly the mappings not disabled for the account, each field replaced where its override gives one; checks and statements stay nonempty |
| `QuestionnaireConfig.MappingListUnique` | internal/questionnaire/config.go:118-150 | with distinct check IDs the list does not depend on the sort |
| `Matcher.ExactMatches` | internal/questionnaire/matcher.go:208-224 | the mappings with the wanted normalised ID, in order; none for an empty ID |
| `Matcher.ExactIff` | internal/questionnaire/matcher.go:208-224 | a mapping is matched exactly when one of its IDs in any of the three frameworks, written plainly, is the wanted one and that is not empty |
| `Matcher.ControlIDKept` | internal/questionnaire/matcher.go:284-289 | a trimmed control ID of letters, digits, dots and dashes is compared as it is, in upper case |
| `Matcher.ControlIDDrops` | internal/questionnaire/matcher.go:284-289 | any other character in a trimmed control ID may as well be missing |
| `Matcher.ShareCAIQControl` | internal/questionnaire/matcher.go:263-282 | the iterated intersection is nonempty exactly when one normalised ID is in every mapping |
| `Matcher.KeywordMatches` | internal/questionnaire/matcher.go:226-261 | the mappings of maximal positive score in order, nothing on a tie without a common ID |
| `Matcher.KeywordMatchesAreBest` | internal/questionnaire/matcher.go:226-282 | a nonempty result is exactly the mappings owning a fully matched group that no other matched group exceeds; it is empty exactly when there is none, or when two mappings own one and no normalised CAIQ ID is listed by all that do |
| `Matcher.RestrictedTopic` | internal/questionnaire/matcher.go:191-206 | the least topic with a mentioned phrase and its first such phrase, whatever the map order |
| `Matcher.TopicIsFirst` | internal/questionnaire/matcher.go:191-206 | the topic is mentioned, every other mentioned topic sorts after it, and the phrase is the first of its phrases that is mentioned |
| `Matcher.EvidenceGapReason` | internal/questionnaire/matcher.go:172-189 | the reason of the first rule one of whose nonempty groups is mentioned in full |
| `Matcher.GapIsFirst` | internal/questionnaire/matcher.go:172-189 | the reason is that of the first rule one of whose groups is mentioned in full, and there is none exactly when no rule has one |
| `Decide.UniqueStrings` | internal/questionnaire/matcher.go:310-321 | first occurrences of the trimmed nonempty items: no repeats, nothing lost |
| `Decide.TallyMeans` | internal/questionnaire/matcher.go:87-119 | the collected lists tell whether some check failed, passed or could not support an answer, and whether all are not in use |
| `Decide.Decide` | internal/questionnaire/matcher.go:55-153 | the decision specified for the account's mapping list, whatever the map and sort orders |
| `Decide.OutcomeIff` | internal/questionnaire/matcher.go:55-153 | for every mapping list: answered, partial, flagged and needs-human each exactly under its condition; needs-human decisions carry no answer, checks or evidence |
| `Decide.AnswerWords` | internal/questionnaire/matcher.go:131-152 | "Yes" exactly when answered and some check passed, "Not applicable" exactly when nothing is in use, partial answers open with "Partial" |
| `Decide.OneBadCheckFlags` | internal/questionnaire/matcher.go:87-129 | a missing, erroneous or failing check, or an unused one without a statement, flags the question, and no answer in favour is written |
| `Decide.RestrictedIff` | internal/questionnaire/matcher.go:55-61 | which questions are restricted, in terms of the topics mentioned |
| `Decide.EmptyTopicHides` | internal/questionnaire/matcher.go:55-61 | a valid mapping file and a question about governance that is not restricted because a topic is named "" |
| `Decide.LaterTopicUnprotected` | internal/questionnaire/matcher.go:55-61 | a valid mapping file and a question about privacy that is not restricted beside a policy phrase and technical language |
| `Decide.AnswerStatesEveryCheck` | internal/questionnaire/matcher.go:131-152 | an answer contains the statement of every matched check |
| `Wording.FlaggedAnswerNames` | internal/questionnaire/matcher.go:103-129 | when every matched check is conclusive and some fail, the answer contains the first three different trimmed findings of the failing ones in mapping order, a failing check without findings being named by its title, and the number of the others |
| `Wording.FlaggedReasonNames` | internal/questionnaire/matcher.go:87-124 | the reason names every matched check that supports no answer: absent from the verdict, not in use without a statement, or not completed, with all its findings |
| `Wording.MatchedSays` | internal/questionnaire/matcher.go:63-85 | mappings with the control ID win over keywords; the decision lists exactly their checks in ascending order, with the confidence of that match, and policy as the restriction of a compound question |
| `Wording.PersonReason` | internal/questionnaire/matcher.go:55-75 | a restricted question is named by its topic, underscores written as spaces, and the phrase found; an unmatched one by the evidence gap, if there is one |
| `Wording.AnswerSaysWhere` | internal/questionnaire/matcher.go:131-152 | every answer, full or partial, says which accounts it covers and of which day it is |
| `Wording.CompoundAsks` | internal/questionnaire/matcher.go:122-152 | every answer to a compound question, in favour or not, says that its documentation part is for a person |
| `Document.DetectTable` | internal/questionnaire/document.go:308-353 | finds a table exactly when one of the first thirty rows qualifies, and then the first of the highest score |
| `Document.HasTableIff` | internal/questionnaire/document.go:308-353 | there is a table exactly when one of the first thirty rows names a question and, below the first row, another column |
| `Document.DetectedColumnsDistinct` | internal/questionnaire/document.go:316-332 | no two recognised columns coincide |
| `Document.Sheet.EnsureColumns` | internal/questionnaire/document.go:128-147 | missing columns become new header cells with their names; found ones and all other cells stay; all columns are distinct |
| `Document.Sheet.SetCell` | internal/questionnaire/document.go:109-114 | one cell changes; a short record is extended with empty cells |
| `Document.Sheet.ProcessRow` | internal/questionnaire/document.go:246-293 | one row becomes the specified row, all others stay, one outcome is counted unless the row is passed over |
| `Document.Sheet.ProcessRows` | internal/questionnaire/document.go:244-296 | every row below the header is filled, the rest untouched, and the summary counts exactly those rows |
| `Document.Sheet.Autofill` | internal/questionnaire/document.go:92-126 | an error exactly when there is no table, and then nothing is written; otherwise the filled file of the detected table |
| `Document.FillRowFrame` | internal/questionnaire/document.go:262-291 | only the four columns change; an answer that is not blank and its evidence stay; evidence is only ever extended, up to trimming |
| `Document.SummaryConserves` | internal/questionnaire/document.go:260-280 | answered, partial, flagged and needs-human add up to the rows reviewed, each counted once |
| `Document.SummaryCounts` | internal/questionnaire/document.go:260-280 | each of the four counters is the number of rows with its own outcome |
| `Document.FilledCounts` | internal/questionnaire/document.go:244-296 | for a whole file: each counter is the number of rows below the header worth that outcome, a row being worth what the decision about it says, needs-human when it had an answer, nothing when it asks nothing |
| `Document.RowMeans` | internal/questionnaire/document.go:254-293 | what each row becomes: untouched when it asks nothing; answer and evidence kept and a remark written when it had an answer; otherwise the status word, reason, confidence and answer of the decision, and the URL in the evidence cell |
| `SecondPass.SecondPassStable` | internal/questionnaire/document.go:244-296 | row by row: filling a filled row again with the same columns and a trimmed evidence URL changes no answer and no evidence cell, and nothing outside the four columns |
| `SecondPass.EvidenceStableIff` | internal/questionnaire/document.go:282-288 | writing the same URL twice into an evidence cell that was blank gives what writing it once gives, exactly when the URL is trimmed or blank |
| `SecondPass.EvidenceBesideStableIff` | internal/questionnaire/document.go:282-288 | the same for a cell with evidence: exactly when the URL is empty, already there, or still found when the longer text is trimmed, as every URL is that does not end in white space |
| `SecondPass.UntrimmedURLGrows` | internal/questionnaire/document.go:282-288 | a URL with a space in front, written twice into a blank cell, does not give what writing it once gives |
| `SecondPass.RedetectedIff` | internal/questionnaire/document.go:308-353 | the filled file is read with the completed columns exactly when no row below the header, among the first thirty, outscores the completed header |
| `SecondPass.ControlColumnSettles` | internal/questionnaire/document.go:308-353 | with a control column none does |
| `SecondPass.SecondRunColumns` | internal/questionnaire/document.go:92-126 | the second run of the filler on its own output uses the same columns exactly then, and leaves the header and everything above it alone |
| `SecondPass.CellSurvivesIff` | internal/questionnaire/document.go:254-292 | for any columns and any row below the header: a cell stays exactly when the row is passed over, its column is none the run writes there, or the same text is written |
| `SecondPass.SecondRunKeepsIff` | internal/questionnaire/document.go:92-126 | for the whole file and a trimmed evidence URL: the second run leaves every answer and evidence cell of the first alone exactly when no row outscores the header or every row survives the columns it finds |
| `SecondPass.ControlColumnKeeps` | internal/questionnaire/document.go:92-126 | a table with a control column keeps all its answers and evidence |
| `ColumnNames.AsciiRecognises` | internal/questionnaire/document.go:128-147 | the four names the filler gives to columns are recognised as those columns |
| `ColumnNames.HeaderMeans` | internal/questionnaire/document.go:316-332 | which header is which column, on the few phrases that matter: most of those it is compared with contain a shorter one; an earlier test takes precedence |
| `LostCells.SecondRunLosesAnswer` | internal/questionnaire/document.go:262-270 | a file of four rows, for any question, answer and evidence: the first run keeps the answer and the evidence beside it, the second writes its remarks over both |
| `LostCells.SecondRunLosesEvidence` | internal/questionnaire/document.go:282-288 | the same file for any question the mappings match: the first run writes the evidence URL, trimmed or not, into an empty cell, the second writes its remark over it |
| `Audit.AuditOne` | internal/questionnaire/audit.go:117-147 | the audit of one question as specified from the same topics and mappings |
| `Audit.MappingAudit.AuditTable` | internal/questionnaire/audit.go:84-115 | appends the audit of every row below the header that asks something, and each counter counts its rows |
| `Audit.Audit` | internal/questionnaire/audit.go:37-82 | the audits of all sheets that have a table, in order, a CSV file being one sheet; an error exactly for another format or when there is no row to audit |
| `Audit.DetailsMember` | internal/questionnaire/audit.go:84-115 | the details are exactly the audits of the rows below the header that ask something, under their sheet and row number |
| `Audit.TotalsCount` | internal/questionnaire/audit.go:101-114 | each counter is the number of rows of its own kind |
| `Audit.RowsAgree` | internal/questionnaire/audit.go:117-147 | for every verdict an audit and a decision name the same match method and checks, the same questions need a person, and the audit gives the reason the decision gives: the topic and phrase, or the evidence gap |
| `Audit.TablesAgree` | internal/questionnaire/audit.go:84-115 | on a table without answers, for every verdict: both review the same rows and leave the same ones to a person; answered+partial+flagged equals exact+keyword+partial; needs-human equals restricted+unmatched; both add up to the rows |
| `Audit.FileAgrees` | internal/questionnaire/audit.go:37-52 | the same for one file, from detection to the returned summary and details |
| `Aggregate.AggregateAccountResults` | cmd/scanner/main.go:539-579 | the aggregate specified over the sorted account IDs, whatever the map order |
| `Aggregate.AggregateStatus` | cmd/scanner/main.go:557-575 | error (or an unknown status) outranks fail outranks pass outranks not_in_use |
| `Aggregate.AggregateFindings` | cmd/scanner/main.go:553-575 | no finding is lost or invented; each carries its account |
| `Aggregate.FindingsNamed` | cmd/scanner/main.go:551-575 | a line is in the aggregate exactly when it is a finding of some account with "account <id>: " in front, or the remark on a status there is not |
| `Aggregate.EvidenceNamed` | cmd/scanner/main.go:556-558 | and the same for evidence: all of it is kept, each piece under its account |
| `Aggregate.CountsAdd` | cmd/scanner/main.go:552 | the count is the sum of the counts: without one account it is less by that account's |
| `Aggregate.AggregateOrder` | cmd/scanner/main.go:543-575 | an account's findings stand together, after those of smaller account IDs |
| `Scanner.Run` | cmd/scanner/main.go:205-312 | for every outcome of identity, enumeration, roles and checks: the report of the scan, its warnings and aggregates |
| `Scanner.ScanAccounts` | cmd/scanner/main.go:268-302 | exactly one result for each check and attempted account; refused accounts are warned about and not counted as scanned |
| `Scanner.ReportedResults` | cmd/scanner/main.go:268-312 | the checks of the report are those of the registry, under their titles; each has a result for exactly the accounts the report is about: what the check gave, its error, or the remark that the account could not be entered |
| `Scanner.WarningNames` | cmd/scanner/main.go:286-302 | the warning names every account that could not be entered, and why |
| `Scanner.ScannedWithinListed` | cmd/scanner/main.go:240-302 | scanned are exactly the accounts entered, all of them listed when enumeration succeeded; a listed account left out always leaves a warning |
| `Scanner.ReportAccepted` | internal/api/handlers.go:173-212 | the ingest validator accepts the report exactly when some account was scanned |
| `Scanner.VerifiedIdentityAccepted` | cmd/scanner/main.go:226-253 | a verified identity suffices: the management account is always entered |
| `Scanner.UnverifiedIdentityRefused` | cmd/scanner/main.go:226-246 | without one the report is never accepted |
| `Providers.ScanPart` | cmd/scanner/main.go:480-525 | one provider's scope, complete units and aggregated checks are put into the report; nothing else changes; no report when a Supabase token spans several organizations |
| `Providers.RunWithProviders` | cmd/scanner/main.go:314-328 | no report exactly when a configured provider fails; otherwise the AWS scan extended by each configured provider in turn |
| `Providers.RunChecks` | cmd/scanner/main.go:314-328 | the report of a run holds the registry's checks with the results of the AWS accounts and each provider's checks as it gave them, with their aggregate; nothing else |
| `Providers.RunAccepted` | internal/api/handlers.go:173-286 | the validator accepts the report of a run exactly when some account was scanned and, if the organization was verified, every listed AWS account is among the units of every provider scanned |
| `Providers.ProviderRunRefused` | internal/api/handlers.go:206-212 | every run over a verified organization and another provider is refused when the management account is not one of that provider's units |
| `Providers.RefusedRun` | internal/api/handlers.go:206-212 | a scan of one verified account and one Supabase project, every check passing, that is refused |
| `Providers.RunStored` | migrations/0001_init.sql:53-54 | an accepted report of a run is stored by an upgraded database, and by one made by the migrations exactly when the organization was verified |
| `Gcp.ProjectsBelow` | internal/gcp/client.go:115-174 | the recursion returns the specified projects, or an error exactly when some listing it reaches fails |
| `Gcp.WalkMeans` | internal/gcp/client.go:115-174 | on the answers themselves: an error exactly when a page of the parent or of a live folder at any depth cannot be listed; otherwise exactly the IDs of the live projects below live folders |
| `Gcp.PagingIndependent` | internal/gcp/client.go:115-174 | only what is listed matters: any cut into pages, empty pages included, at any depth, gives the same projects in the same order |
| `Gcp.SplitPage` | internal/gcp/client.go:115-174 | cutting a page in two, either part possibly empty, lists the same items |
| `Gcp.EachProjectOnce` | internal/gcp/client.go:115-174 | the result lists every active project reached through active folders exactly once, and nothing else |
| `Gcp.NoIDTwice` | internal/gcp/client.go:115-174 | with distinct IDs no ID is repeated |
| `Gcp.EnumerateScope` | internal/gcp/client.go:84-113 | succeeds exactly for one organization with the prefix, no failing listing and some project; the projects are the sorted walk |
| `Sorting.SortedPermutationIsArrange` | internal/diff/diff.go:73-88 | any sort of distinct totally ordered elements, stable or not, gives the one ascending arrangement |

## Left out

- Cryptography: signatures, certificate chains and COSE parsing are the parameter `verify`; SHA-384 the parameter `sha`.
- HTTP, vsock, cloud and database I/O, retries, timeouts and logging.
- JSON decoding of submissions, base64, CSV and XLSX parsing, styles of workbook cells; the models start from decoded values and grids of strings.
- The SQL text: tables are sequences and maps, and the insert is the intended full-column one (internal/store/store.go:206-217 lists fewer placeholders than columns). Only the region columns are modelled NOT NULL.
- Ledger.Store.CreateVerdict: does not run `scope.Detect` on the previous snapshot, whose result is only logged.
- Store reads (`LatestVerdict`, `VerdictHistory`, share-link status): ordered selections whose ties the database may break either way.
- DiffTs.DiffReports: does not fix what `localeCompare` does; every weak order of strings is allowed, and ties keep no stated order.
- Machine integers: counts are unbounded, and sums of counts do not wrap around.
- Strings are sequences of code points; invalid UTF-8 and lone surrogates are not represented.
- ScopeValidation.ValidateOrganizationScope: does not keep the wording of its messages, only when there is one.
- Scanner.Run: does not intersect regions or establish trusted time; both are inputs.
- Providers.RunWithProviders: does not run the providers' checks or fetch tokens; what enumeration and the checks answer is an input.
- Audit.Audit: does not model errors of reading a CSV file or a workbook; a sheet is its grid of cell values.
- Document.Sheet.Autofill: does not cover XLSX workbooks, the hours estimate or the output file name; columns of a workbook sheet are appended the same way.
- Decide.Decide: does not compute the quoting of a phrase or the calendar date, which are inputs.
- React components, deriving an AI posture, manifests of PCR values, configuration from flags and the environment: user interface or straight-line code.
- Google Cloud's listing tokens: a listing is its pages in order, so a server that answers a token inconsistently is not represented.
