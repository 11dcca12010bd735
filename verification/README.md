# Verified model of the content publishing backend

A Dafny model of the parts of the backend whose correctness is not settled by reading one function: the
publish protocol, the MP4 duration parser, the CSV writer, the source scanner behind the static tests, the
dashboard and report aggregations, the commerce ledger and the paid and commerce summaries, the ranking
engines with their two read paths, the cadence periods, the rate limiter, and the comment reply flow.

`dafny verify dfyconfig.toml` checks everything.

## How it is built

* `Platforms` holds the vocabulary several components share, `Rounding` the one rounding rule, `Numerals` what
  decimal digits denote, `Calendar` the UTC dates and their ISO text.
* `PublishProtocol`, `PublishSafety`, `PublishTheorems`: posts, workers, jobs and adapter calls as one state
  that changes one database statement at a time; the invariant; what follows for every run. A statement that
  is not enabled changes nothing, so every sequence of steps is an interleaving. Writes may fail before or
  after taking effect, adapters may err with or without a live post, workers may die anywhere.
* `PublishServices`: the services as classes over the shared tables, with other actors' steps between every
  two awaits; each method is proved to be a run of the protocol.
* `Mp4Duration`, `Mp4RoundTrip`: the box parser over bytes (ISO/IEC 14496-12, sections 4.2 and 8.2.2) and a
  serializer it is inverse to.
* `Csv`, `CsvRoundTrip`: the writer and a decoder for section 2 of RFC 4180.
* `SourceScan`: the comment stripper's nested loops against a token-wise definition.
* `Grouping`: the keyed accumulation all read models share, and its conservation law.
* `Dashboard`, `DashboardReconciles`: latest readings, the trend replay, breakdowns and drill-downs.
* `CommerceLedger`, `CommerceRead`, `PaidRead`: the append-only ledger and the per-currency summaries.
* `Ranking`, `RankingReads`, `RankingScores`: the tie-break, histories of recomputes and engine switches, and
  the scores in fixed point.
* `Cadence`: week and month periods, as the calendar has them and as the code computes them.
* `Throttler`: the fixed-window limiter, Redis command by Redis command.
* `CommentReply`: claim, dispatch and rollback of one comment's reply.

## Where the code and its own words differ

* `publish.processor.ts:8-13` says a redelivered job always loses the claim. It loses for a version that is
  spent; after a recorded failure the same job can win a new version (`RedeliveryDispatchesAgain`). `ClaimWinsIff`
  says exactly when a claim wins.
* A post can go live twice when a "not posted" verdict, of the error taxonomy or of an admin, is wrong
  (`FalseVerdictDoublePosts`). `NoDoublePost` supposes truthful errors and resolutions and nothing else, and
  `FalseVerdictCanDoublePost` shows that any single false one can lead to a second post.
* A success write that took effect but lost its acknowledgement is followed by the holder's own unconfirmed
  write, so a row can go from posted to posted_unconfirmed.
* The comments on the revenue export say it matches the dashboard's latest reading per post. On two readings
  of a post with equal times the two differ. `PicksAgreeIff` gives the exact condition when both read the rows in
  one order, `AnswersAgreeIff` when each has its own query.
* A drill-down is said to reconcile always with the summary it was opened from. The two queries are ordered by
  `collectedAt` alone, so fully tied readings of different figures can come in two orders and give two totals
  (`SwappedTieDisagrees`). `TotalsStableIff` and `DrillDownReconcilesIff` say exactly when the totals reconcile
  whatever the order, `PicksStableIff` when the readings shown are the same.
* The batched and the per-content score reads are said never to disagree. With two rows of one platform at one
  timestamp their two queries can order them differently; `ReadPathsAgreeIff` gives the exact condition, and
  `ReadPathsAgree` shows that distinct recompute times meet it.
* The cadence periods are said to start on Monday or on the first. `Date.UTC` reads the years 0 to 99 as 1900 to
  1999, so for instants there the period begins after now (`TwoDigitYearsFail`); `StartRightIff` and
  `EndRightIff` say exactly when start and end are right.
* The reply flow is described as ruling out a double reply. It rules out two replies in flight and two
  successes; `CanDeliverIff` says exactly when a second reply can still go out.
* A period-bounded commerce summary can contain a reversal and miss the row it reverses
  (`SummaryKeepsChainsIff`).
* The limiter's expiry is set by a second command; if the call dies in between, the window never ends
  (`CrashLeavesStuck`, `StuckForever`) and, once at its limit, lets nothing pass (`LockedOut`). `EndsIff` says
  exactly when a window can still end.
* The period breakdown keys a period by ten characters of ISO text, which for years without four digits end at
  the month; `PeriodsGroupIff` says exactly when periods keep their own items.

## Model

| member | source | states |
|---|---|---|
| `PublishTheorems.LiveBound` | backend/src/modules/publish/publish-execution.service.ts:38-127 | in every interleaving of creates, redispatches, redelivered jobs, crashes, failed writes and resolutions, the live adapter-dispatched posts of a (content, platform) number at most one plus the live posts written off by a wrong "not posted" verdict |
| `PublishTheorems.NoDoublePost` | backend/src/modules/publish/publish-execution.service.ts:38-127 | if no error read as "not posted" hides a live post and no admin resolves as "not posted" a row with one, no two live posts of the run share a (content, platform) |
| `PublishTheorems.TruthfulRun` | backend/src/modules/publish/publish-execution.service.ts:38-227 | truthful errors and resolutions leave no false verdict behind, though a failure write also writes off attempts it knows nothing of |
| `PublishTheorems.FalseVerdictCanDoublePost` | backend/src/modules/publish/adapters/publisher.errors.ts:47-54 | and nothing less will do: after any single false error or resolution about a dispatchable row some continuation posts twice |
| `PublishTheorems.FalseVerdictDoublePosts` | backend/src/modules/publish/adapters/publisher.errors.ts:47-54 | truthfulness cannot be dropped: a concrete run posts twice after one rejection that hid a live post |
| `PublishTheorems.OneDispatchPerVersion` | backend/src/modules/publish/publish-execution.service.ts:66-82 | every adapter call for a post belongs to its own claimed version, in increasing order |
| `PublishTheorems.ClaimWinsIff` | backend/src/modules/publish/publish-execution.service.ts:67-82 | a claim takes the row exactly when the row is draft or failed, its version is still the one read, and no other row of its target is active |
| `PublishTheorems.SnapshotSpent` | backend/src/modules/publish/publish-execution.service.ts:67-82 | once a row has moved past a version, no claim from that snapshot can ever win again |
| `PublishTheorems.DeliveryDispatches` | backend/src/modules/publish/publish-execution.service.ts:38-64 | an undisturbed delivery of a job for a dispatchable row reaches the adapter exactly once |
| `PublishTheorems.RejectedDelivery` | backend/src/modules/publish/publish-execution.service.ts:170-190 | after a recorded refusal the same job can be delivered again, two versions on |
| `PublishTheorems.RedeliveryDispatchesAgain` | backend/src/modules/publish/publish.processor.ts:8-13 | a redelivered job does not always lose: after a recorded failure the same job dispatches again, under a new version |
| `PublishTheorems.RowKept` | backend/src/modules/publish/publish-orchestrator.service.ts:300-315 | no step removes or retargets a row |
| `PublishTheorems.RowMoves` | backend/src/modules/publish/publish-execution.service.ts:67-82 | a step keeps target, selection and manual mark and moves the version by one or not at all; without a new version only the recommendation facts can change |
| `PublishTheorems.StatusMoves` | backend/src/modules/publish/post-state.ts:10-26 | the only status moves, each with its author and a version bump, and only the claim holder takes a row out of scheduled or back out of posted, only an admin resolution out of posted_unconfirmed |
| `PublishTheorems.ExternalKept` | backend/src/modules/publish/publish-execution.service.ts:129-227 | a recorded platform post id is never taken away, through failures, retries and resolutions |
| `PublishTheorems.ClaimIsolation` | backend/src/modules/publish/publish-execution.service.ts:66-82 | from a successful claim to the holder's own terminal write nobody else changes that row's status or version |
| `PublishTheorems.TerminalWritesMatch` | backend/src/modules/publish/publish-execution.service.ts:129-190 | the holder's success and failure writes match exactly one row and the index never refuses them |
| `PublishTheorems.FlagLandsOnOwnAttempt` | backend/src/modules/publish/publish-execution.service.ts:199-227 | the unguarded unconfirmed write lands on the writer's own attempt, which is the last one on the row |
| `PublishTheorems.ManualNeverDispatched` | backend/src/modules/publish/publish-orchestrator.service.ts:176-232 | a manually recorded post is never dispatched by anyone |
| `PublishTheorems.ManualNeverDoubled` | backend/src/modules/publish/publish-orchestrator.service.ts:176-232 | a manual record never shares its target with a live adapter post that nobody has written off |
| `PublishTheorems.DecisionsKept` | backend/src/modules/publish/publish-orchestrator.service.ts:323-337 | along every run the override flag is set exactly when a recommendation existed and differs from the selection |
| `PublishTheorems.CreateIff` | backend/src/modules/publish/publish-orchestrator.service.ts:93-107 | a create adds exactly one row, a draft of version 0 with its recommendation and override flag and no author, exactly where no draft, scheduled, posted or unconfirmed row of the target is there; elsewhere it does nothing |
| `PublishTheorems.RecordManualIff` | backend/src/modules/publish/publish-orchestrator.service.ts:193-213 | under the same condition a manual record adds exactly one posted row with its author, its external post and its recommendation facts |
| `PublishTheorems.SecondCreateRefused` | backend/src/modules/publish/publish-orchestrator.service.ts:275-315 | once a row is created, whatever runs in between, no second create or manual record of its target does anything until the row has failed or been cancelled |
| `PublishTheorems.RefreshIff` | backend/src/modules/publish/publish-orchestrator.service.ts:141-150 | a refresh gives a row with a selection the new recommendation and the override flag that follows from it, and changes nothing else |
| `PublishSafety.NextKeeps` | backend/src/modules/publish/publish-execution.service.ts:38-227 | every single step keeps the invariant: index, claim ownership, attempt log, outstanding attempts |
| `PublishSafety.RunKeeps` | backend/src/modules/publish/publish-execution.service.ts:38-227 | every run keeps it |
| `PublishSafety.AppendKeepsPairs` | backend/prisma/migrations/20260718000000_bugqa001_posts_active_publish_unique/migration.sql:14-16 | a dispatch adds an attempt only to a target that has no other unrefuted one: claim and partial index together |
| `PublishServices.Database.UpdateMany` | backend/src/modules/publish/publish-execution.service.ts:71-80 | one conditional update: which row changes, what it returns, when it throws |
| `PublishServices.PublishExecution.Execute` | backend/src/modules/publish/publish-execution.service.ts:38-64 | one execution under arbitrary interference is a run; it holds the claim exactly when the claim statement matches the row as it then is, with the claim its outcome follows from token, account, reply and writes and it calls the adapter once or, without token or account, not at all; without the claim it never calls it |
| `PublishServices.PublishExecution.TryClaim` | backend/src/modules/publish/publish-execution.service.ts:38-54 | read, wait, claim: won or lost exactly as the row then stands, and the claim won is the next version after the one read |
| `PublishServices.PublishExecution.Claim` | backend/src/modules/publish/publish-execution.service.ts:67-82 | the conditional update to scheduled: won, lost exactly when the row no longer matches, or thrown |
| `PublishServices.PublishExecution.DispatchAndRecord` | backend/src/modules/publish/publish-execution.service.ts:94-127 | each outcome with the adapter reply and the row it leaves behind |
| `PublishServices.PublishExecution.RecordSuccess` | backend/src/modules/publish/publish-execution.service.ts:129-168 | a confirmed post ends posted, or falls back to posted_unconfirmed with its platform id |
| `PublishServices.PublishExecution.MarkFailed` | backend/src/modules/publish/publish-execution.service.ts:170-190 | the failure write, guarded by version |
| `PublishServices.PublishExecution.MarkUnconfirmed` | backend/src/modules/publish/publish-execution.service.ts:199-227 | the best-effort write ends on a row that owns a live post |
| `PublishServices.PublishOrchestrator.HasActiveDuplicate` | backend/src/modules/publish/publish-orchestrator.service.ts:275-291 | the friendly check finds exactly a draft, scheduled, posted or unconfirmed row of the target |
| `PublishServices.PublishOrchestrator.InsertRow` | backend/src/modules/publish/publish-orchestrator.service.ts:300-315 | an insert succeeds exactly when the index allows it; the index's refusal is a conflict, any other failure an error with or without the row |
| `PublishServices.PublishOrchestrator.CreateAndDispatch` | backend/src/modules/publish/publish-orchestrator.service.ts:80-110 | a create is a conflict exactly when the content or account is not ready or the target is taken at the check or at the insert; otherwise it leaves a fresh draft with its recommendation and queues its job, or ends in an error that leaves exactly what had been written |
| `PublishServices.PublishOrchestrator.Enqueue` | backend/src/modules/publish/publish-orchestrator.service.ts:371-396 | the row outlives the wait for the queue, and the job is queued unless the queue refused it |
| `PublishServices.PublishOrchestrator.Redispatch` | backend/src/modules/publish/publish-orchestrator.service.ts:113-154 | a redispatch puts the new recommendation and its override flag on a dispatchable row and queues it, leaving status and version alone; a failing update or queue leaves exactly what had been written |
| `PublishServices.PublishOrchestrator.RecordManualExternal` | backend/src/modules/publish/publish-orchestrator.service.ts:176-232 | a manual record is a conflict exactly when the content is not ready or the target is taken; otherwise it adds one posted row with its author, external post and recommendation facts and queues nothing, also when the insert loses its acknowledgement |
| `PublishServices.PostResolution.ResolveAsPosted` | backend/src/modules/publish/post-resolution.service.ts:23-32 | only an unconfirmed row is resolved, only at the version read, to posted, with every outcome of the write |
| `PublishServices.PostResolution.ResolveAsNotPosted` | backend/src/modules/publish/post-resolution.service.ts:35-39 | only an unconfirmed row is resolved, only at the version read, to failed, with every outcome of the write |
| `PublishServices.UnmovedKeepsStatus` | backend/src/modules/publish/post-resolution.service.ts:52-70 | a row whose version has not moved has not changed status, so the guard on both is the guard on the version |
| `Mp4Duration.ReadBoxAt` | backend/src/modules/content/mp4-duration.ts:35-52 | an accepted box strictly advances, stays in range, and its body starts at or after the eight header bytes, even when the declared size is smaller |
| `Mp4Duration.ReadBoxIff` | backend/src/modules/content/mp4-duration.ts:35-73 | a box is read exactly where one is laid out: 32-bit, 64-bit or open-ended size, its type with the high bits dropped, ending inside the limit and past its start |
| `Mp4Duration.TypeNames` | backend/src/modules/content/mp4-duration.ts:146-150 | the two types looked for are the letters moov and mvhd |
| `Mp4Duration.ReadExtendedSizeBox` | backend/src/modules/content/mp4-duration.ts:54-73 | the same for 64-bit sizes |
| `Mp4Duration.FindBox` | backend/src/modules/content/mp4-duration.ts:76-89 | for arbitrary bytes the scan ends and returns the first matching sibling or nothing |
| `Mp4Duration.FirstMatchIsFirst` | backend/src/modules/content/mp4-duration.ts:76-89 | a matching box the scan can reach is never skipped for a later one |
| `Mp4Duration.ParseMp4DurationSeconds` | backend/src/modules/content/mp4-duration.ts:144-158 | the result is a number exactly when the first mvhd of the first moov carries it in positive timescale and duration fields lying wholly inside the box |
| `Mp4Duration.ReadIffCarries` | backend/src/modules/content/mp4-duration.ts:108-138 | the reader answers n exactly when the version 0 or 1 layout holds that duration, rounded half up |
| `Mp4Duration.ThrowsOnlyAtTheEnd` | backend/src/modules/content/mp4-duration.ts:108-110 | the version byte is the only read that can leave the buffer, exactly when the mvhd header closes it |
| `Mp4Duration.ThrowReachable` | backend/src/modules/content/mp4-duration.ts:144-158 | and some input does that |
| `Mp4RoundTrip.RoundTrip` | backend/src/modules/content/mp4-duration.ts:35-158 | parsing the bytes of any box list with a moov holding a v0 or v1 mvhd gives its duration over timescale rounded half up, in all three size forms, whatever follows an explicitly sized moov |
| `Mp4RoundTrip.ReadsBack` | backend/src/modules/content/mp4-duration.ts:35-73 | reading a serialized box gives back its kind, body and end |
| `Mp4RoundTrip.PayloadReads` | backend/src/modules/content/mp4-duration.ts:108-138 | reading a serialized mvhd payload gives its seconds |
| `Csv.SafeNumericIffPlainDecimal` | backend/src/common/utils/csv.util.ts:25 | the numeric test accepts exactly an optional minus, digits, and an optional fraction |
| `Csv.GuardDefuses` | backend/src/common/utils/csv.util.ts:57-67 | an apostrophe is put before the whole text exactly when it starts with =, +, -, @, a tab or a carriage return and is no plain decimal, so that only a plain decimal can still start like a formula |
| `Csv.GuardNotInjective` | backend/src/common/utils/csv.util.ts:57-67 | two different texts share one guarded cell |
| `Csv.NumbersVerbatim` | backend/src/common/utils/csv.util.ts:57-73 | a count is written as the digits of its value and an amount as a sign, whole part and cents that denote it, with as many decimals as it has or two; reading the field back gives the value, negative ones too |
| `Csv.DigitsUnique` | backend/src/common/utils/csv.util.ts:61 | of all texts of digits without a needless leading zero the one written for a number is the one that denotes it |
| `Csv.QuotedIff` | backend/src/common/utils/csv.util.ts:69-72 | quotes are put around a cell exactly when it holds a comma, a quote or a line break; null is empty and booleans are their words |
| `CsvRoundTrip.RoundTrip` | backend/src/common/utils/csv.util.ts:57-85 | a decoder for section 2 of RFC 4180 gives back the header and every row, cell by guarded cell, for all strings |
| `CsvRoundTrip.CellsReturned` | backend/src/common/utils/csv.util.ts:57-73 | a cell comes back as it went in exactly when it does not look like a formula or is a plain decimal |
| `CsvRoundTrip.EscapedReads` | backend/src/common/utils/csv.util.ts:57-73 | an escaped field is one whole field wherever a field may start |
| `SourceScan.StripComments` | backend/src/testing/source-scan.util.ts:72-121 | the nested loops compute the token-wise stripping |
| `SourceScan.NextPiece` | backend/src/testing/source-scan.util.ts:72-121 | one turn of the outer loop writes one token's rendering and always advances |
| `SourceScan.LexLossless` | backend/src/testing/source-scan.util.ts:72-121 | the tokens make up the source, unterminated ones included |
| `SourceScan.FirstIff` | backend/src/testing/source-scan.util.ts:76-118 | the first token of a text, said without the lexer: a line comment to the first newline, a block comment through its first closing delimiter, a literal through its first unescaped quote of its kind, or one other character |
| `SourceScan.LexIff` | backend/src/testing/source-scan.util.ts:72-121 | every text has exactly one reading as such tokens, unterminated ones to the end, and the lexer finds it |
| `SourceScan.LineCommentGoes` | backend/src/testing/source-scan.util.ts:80-84 | a line comment becomes one space and the text goes on from its newline |
| `SourceScan.BlockCommentGoes` | backend/src/testing/source-scan.util.ts:86-94 | a block comment becomes one space and the text goes on behind its first closing delimiter; an unclosed one takes the rest |
| `SourceScan.LiteralStays` | backend/src/testing/source-scan.util.ts:96-114 | a literal of any of the three quotes is copied through its closing quote, escapes in pairs, and an unclosed one to the end |
| `SourceScan.CodeStays` | backend/src/testing/source-scan.util.ts:116-117 | any other character is copied and the text goes on behind it |
| `SourceScan.StripIsTokenwise` | backend/src/testing/source-scan.util.ts:60-121 | lexing the output gives the original tokens with each comment replaced by its blank |
| `SourceScan.StripIdempotent` | backend/src/testing/source-scan.util.ts:60-121 | the output holds no comment and stripping it again changes nothing |
| `SourceScan.LiteralsKept` | backend/src/testing/source-scan.util.ts:60-121 | place by place, comments are blanks and every string and template literal survives verbatim |
| `SourceScan.StripShrinks` | backend/src/testing/source-scan.util.ts:72-121 | the text never grows, and shrinks when it held a comment |
| `SourceScan.StripIdentityIff` | backend/src/testing/source-scan.util.ts:72-121 | exactly the comment-free texts are left alone |
| `SourceScan.NoCommentStart` | backend/src/testing/source-scan.util.ts:72-121 | outside literals no slash of the output is followed by a slash or a star |
| `Grouping.Accumulate` | backend/src/modules/commerce/commerce-read.service.ts:177-207 | one row adds its amounts to the group of its key, opened from the row's label on first sight; no other group moves |
| `Grouping.BreakDown` | backend/src/modules/commerce/commerce-read.service.ts:133-168 | the pass gives one item per key in order of first appearance: the first row's label, the sum of all rows with that key |
| `Grouping.KeysInOrder` | backend/src/modules/commerce/commerce-read.service.ts:177-207 | the items stand in the order in which their keys first appear |
| `Grouping.Conserved` | backend/src/modules/commerce/commerce-read.service.ts:133-168 | whatever labels are picked, their items add up to the picked rows: nothing lost, counted twice or moved to another label |
| `Grouping.RefinesTag` | backend/src/modules/commerce/commerce-read.service.ts:132-168 | a breakdown whose keys fix a tag adds up, tag by tag, to the breakdown by the tag |
| `Grouping.OneItemPerTag` | backend/src/modules/commerce/commerce-read.service.ts:132-139 | the breakdown by tag has exactly one item for each tag that occurs |
| `Grouping.GroupsByLabel` | backend/src/modules/commerce/commerce-read.service.ts:141-168 | when rows share a text key exactly if they share a label, grouping by the key is grouping by the label itself |
| `Grouping.OneItemPerLabel` | backend/src/modules/commerce/commerce-read.service.ts:141-168 | and every label that occurs has exactly one item, holding its rows' sum |
| `Grouping.GroupPermuted` | backend/src/modules/commerce/commerce-read.service.ts:46-48 | a group's sum does not depend on the order of the query's rows |
| `Dashboard.LatestPerPost` | backend/src/modules/dashboard/dashboard.service.ts:178-194 | one reading per post, replaced only by a strictly newer one |
| `Dashboard.ExportedPerPost` | backend/src/modules/reports/report-export.service.ts:93-99 | one reading per post, replaced by one collected at the same time or later |
| `Dashboard.BuildTrend` | backend/src/modules/dashboard/dashboard.service.ts:222-244 | the single pass equals the direct statement: for each distinct day in order, the sum over posts of the last reading up to its end |
| `Dashboard.DaysAre` | backend/src/modules/dashboard/dashboard.service.ts:224 | the days are exactly those with a reading, strictly increasing |
| `Dashboard.ReplaySum` | backend/src/modules/dashboard/dashboard.service.ts:228-240 | the running map at a day's end adds up to the posts' last readings up to then |
| `Dashboard.TallyColumns` | backend/src/modules/dashboard/dashboard.service.ts:196-206 | a tally is the column sums of its readings and their number |
| `DashboardReconciles.KeepsNewest` | backend/src/modules/dashboard/dashboard.service.ts:178-194 | the dashboard keeps, of each post, the reading with the latest collection time, among those the latest creation time, and of readings alike in both the first |
| `DashboardReconciles.KeepsLast` | backend/src/modules/reports/report-export.service.ts:87-99 | on readings in time order the export and the trend keep each post's last row |
| `DashboardReconciles.PicksAgreeIff` | backend/src/modules/reports/report-export.service.ts:93-99 | the dashboard and the export pick the same readings exactly when each post's last row is strictly newer, by both times, than its earlier rows |
| `DashboardReconciles.PicksStableIff` | backend/src/modules/dashboard/dashboard.service.ts:127-133 | the dashboard keeps the same readings in whatever order the database returns ties exactly when each post's newest pair of times belongs to one reading |
| `DashboardReconciles.TotalsStableIff` | backend/src/modules/dashboard/dashboard.service.ts:127-133 | and shows the same totals exactly when readings that tie for the newest of their post carry the same figures |
| `DashboardReconciles.AnswersAgreeIff` | backend/src/modules/reports/report-export.service.ts:87-99 | dashboard and export, each with its own query, agree in whatever order ties come exactly when each post's latest collection time belongs to one reading |
| `DashboardReconciles.TieKeepsFirst` | backend/src/modules/reports/report-export.service.ts:93-99 | on a full tie the dashboard keeps the first reading and the export the second |
| `DashboardReconciles.TrendEndsAtTotals` | backend/src/modules/dashboard/dashboard.service.ts:34-53 | the trend's last point is the export's total, and the overview's too when the picks agree |
| `DashboardReconciles.DrillDownCommutes` | backend/src/modules/dashboard/dashboard.service.ts:77-88 | restricting to a content and keeping one reading per post can be done in either order |
| `DashboardReconciles.DrillDownReconciles` | backend/src/modules/dashboard/dashboard.service.ts:67-107 | a drill-down, in its own query's answer, has the figures of that content's one row in the revenue summary if readings that tie for the newest of a post carry the same figures; without readings there is no row and the totals are zero |
| `DashboardReconciles.DrillDownReconcilesIff` | backend/src/modules/dashboard/dashboard.service.ts:67-107 | and only then: it has the totals of its share of the summary in every order exactly under that condition |
| `DashboardReconciles.SwappedTieDisagrees` | backend/src/modules/dashboard/dashboard.service.ts:127-133 | any two fully tied readings of different figures, answered in two orders, give two totals |
| `DashboardReconciles.BreakdownsSumToTotals` | backend/src/modules/dashboard/dashboard.service.ts:135-174 | platform and content breakdowns each add up to the overall reach, engagement, revenue and post count |
| `DashboardReconciles.RankedByPlatform` | backend/src/modules/dashboard/dashboard.service.ts:135-149 | the platform rows, by falling revenue and equal ones in order of appearance, with the whole's sum |
| `DashboardReconciles.RankedByContent` | backend/src/modules/dashboard/dashboard.service.ts:151-174 | the content rows, by falling revenue and equal ones in order of appearance, with the whole's sum |
| `DashboardReconciles.Overview` | backend/src/modules/dashboard/dashboard.service.ts:34-53 | totals, platform rows and trend of the overview agree with each other |
| `DashboardReconciles.ContentRevenue` | backend/src/modules/dashboard/dashboard.service.ts:77-107 | totals, platform rows and trend of one content, from its own query's answer; when ties for the newest carry the same figures the totals are those of its share of the summary |
| `CommerceLedger.ConversionLedger.Create` | backend/src/modules/commerce/commerce-conversion.service.ts:34-114 | when a row is appended, what it holds, and which refusal otherwise; the history is never edited and every reversal repeats its target's linkage |
| `CommerceLedger.RootLinked` | backend/src/modules/commerce/commerce-conversion.service.ts:54-79 | a chain of reversals ends at a row that reverses nothing and has one channel, currency, post, placement, product and link throughout |
| `CommerceLedger.RootFollows` | backend/src/modules/commerce/commerce-conversion.service.ts:54-79 | the chain of a reversal is that of the row it reverses |
| `CommerceLedger.ChainHeads` | backend/src/modules/commerce/commerce-conversion.service.ts:54-79 | there is one chain for every row that reverses nothing |
| `CommerceLedger.ChainItem` | backend/src/modules/commerce/commerce-conversion.service.ts:54-79 | with that row's linkage and the sum of the rows that lead back to it |
| `CommerceLedger.ChainsNetInScope` | backend/src/modules/commerce/commerce-conversion.service.ts:54-79 | a scope's total is the sum over its chains of each chain's net in the whole ledger |
| `CommerceLedger.ContentKeepsChains` | backend/src/modules/commerce/commerce-read.service.ts:104-120 | a content's view holds each chain wholly or not at all |
| `CommerceLedger.SummaryKeepsChainsIff` | backend/src/modules/commerce/commerce-read.service.ts:90-97 | a summary holds chains whole in every ledger exactly when it does not bound the period |
| `CommerceLedger.SummaryTakesWholePeriods` | backend/src/modules/commerce/commerce-read.service.ts:90-97 | a summary takes a row exactly when channel and product match and every day of its period lies inside the bound |
| `CommerceLedger.InContentIff` | backend/src/modules/commerce/commerce-read.service.ts:104-120 | a row is a content's exactly when its placement or its post is one of the content's |
| `CommerceLedger.CreateSplit` | backend/src/modules/commerce/commerce-conversion.service.ts:34-114 | two recorded rows split by a given period bound: a sale and its reversal |
| `CommerceRead.ByCurrency` | backend/src/modules/commerce/commerce-read.service.ts:133-139 | the totals by currency are the breakdown by currency |
| `CommerceRead.ByChannel` | backend/src/modules/commerce/commerce-read.service.ts:141-148 | the breakdown by channel and currency |
| `CommerceRead.ByProduct` | backend/src/modules/commerce/commerce-read.service.ts:150-157 | the breakdown by product, or none, and currency |
| `CommerceRead.ByPeriod` | backend/src/modules/commerce/commerce-read.service.ts:159-168 | the breakdown by period and currency |
| `CommerceRead.ChannelKeyIff` | backend/src/modules/commerce/commerce-read.service.ts:144 | two rows share a channel group exactly when channel and currency agree |
| `CommerceRead.ProductKeyIff` | backend/src/modules/commerce/commerce-read.service.ts:153 | two rows share a product group exactly when product, or its absence, and currency agree |
| `CommerceRead.PeriodKeyIff` | backend/src/modules/commerce/commerce-read.service.ts:162-164 | two rows share a period group exactly when both dates show alike and the currency agrees |
| `CommerceRead.PeriodDaysIff` | backend/src/modules/commerce/commerce-read.service.ts:162-164 | that is, exactly when the currency and the days agree, or the days lie in one month of a year without four digits |
| `CommerceRead.PeriodsGroupIff` | backend/src/modules/commerce/commerce-read.service.ts:159-168 | every period that occurs has its own item exactly when no two periods of the rows blur that way |
| `CommerceRead.CreateBlurred` | backend/src/modules/commerce/commerce-conversion.service.ts:34-114 | two recorded rows whose different periods share one item, for any two days that show alike |
| `Calendar.SomeDaysBlur` | backend/src/modules/commerce/commerce-read.service.ts:22-24 | and there are such days among those a date can hold |
| `Calendar.IsoDateIff` | backend/src/modules/commerce/commerce-read.service.ts:22-24 | two representable days have one ten-character text exactly when they are one day or lie in one month of a year without four digits |
| `Calendar.IsoDateDenotes` | backend/src/modules/commerce/commerce-read.service.ts:22-24 | the ten characters spell year, month and day of a four-digit year, and otherwise the year's sign, its six digits and the month |
| `CommerceRead.LabelsGroup` | backend/src/modules/commerce/commerce-read.service.ts:133-168 | the four breakdowns show one item per currency, channel, product or period that occurs, with exactly its rows' sum |
| `CommerceRead.BreakdownsAgree` | backend/src/modules/commerce/commerce-read.service.ts:132-168 | all four breakdowns show in every currency exactly what was recorded in it, in every field |
| `CommerceRead.ColumnSums` | backend/src/modules/commerce/commerce-read.service.ts:195-204 | a currency's total is the column sums of its rows, missing values as zero, and their number |
| `CommerceRead.ContentTotals` | backend/src/modules/commerce/commerce-read.service.ts:66-88 | the per-content totals are those of the content's rows, none when it has no placements and posts |
| `CommerceRead.ContentNets` | backend/src/modules/commerce/commerce-read.service.ts:66-120 | however the rows are ordered, a content's total in a currency is the sum of its reversal chains' ledger-wide nets |
| `CommerceRead.SummaryNets` | backend/src/modules/commerce/commerce-read.service.ts:42-57 | the same for a channel or product summary that does not bound the period |
| `PaidRead.ByCurrency` | backend/src/modules/paid/paid-read.service.ts:67-73 | the totals by currency |
| `PaidRead.ByCampaign` | backend/src/modules/paid/paid-read.service.ts:75-82 | the breakdown by campaign and currency |
| `PaidRead.ByResultType` | backend/src/modules/paid/paid-read.service.ts:84-91 | the breakdown by result type and currency |
| `PaidRead.CampaignKeyIff` | backend/src/modules/paid/paid-read.service.ts:78 | two entries share a campaign group exactly when campaign and currency agree |
| `PaidRead.ResultKeyIff` | backend/src/modules/paid/paid-read.service.ts:87 | entries without a result type share the group of the free text "unlabelled", and no other types meet |
| `PaidRead.CampaignsGroup` | backend/src/modules/paid/paid-read.service.ts:67-82 | one item per campaign and currency that occurs, with exactly its entries' sum |
| `PaidRead.ResultTypesGroupIff` | backend/src/modules/paid/paid-read.service.ts:84-91 | result types are grouped as labelled exactly when no entry without a type meets one typed "unlabelled" in its currency |
| `PaidRead.BreakdownsAgree` | backend/src/modules/paid/paid-read.service.ts:66-91 | all three breakdowns show in every currency exactly what was entered in it, in every field |
| `PaidRead.ColumnSums` | backend/src/modules/paid/paid-read.service.ts:120-125 | a currency's total is the column sums of its entries |
| `Ranking.PickIsUniqueMaximum` | backend/src/modules/ranking/ranking.constants.ts:98-116 | the pick is the one row with the higher score, or equal score and earlier platform, against every other; none exactly for no rows |
| `Ranking.PickIgnoresOrder` | backend/src/modules/ranking/ranking.constants.ts:98-116 | the order in which the rows arrive does not matter |
| `Ranking.TopPlatform` | backend/src/modules/ranking/ranking.constants.ts:98-116 | the recommended platform is that of a row with the highest score, the earliest of those in the tie-break order; none exactly for no rows |
| `Ranking.AppendingKeepsOutcomes` | backend/src/modules/ranking/ranking.constants.ts:20-40 | appending platforms to the tie-break order changes no outcome among those already in it |
| `Ranking.OriginalOutcomesUnchanged` | backend/src/modules/ranking/ranking.constants.ts:33-40 | every Facebook and YouTube outcome is what it was under the two-platform order |
| `Ranking.LatestScorePerPlatform` | backend/src/modules/ranking/ranking.constants.ts:74-84 | the first row of each platform, in order of first appearance |
| `Ranking.RowsByContent` | backend/src/modules/scheduler/scheduler.service.ts:113-118 | each content's rows in the order of the answer |
| `Ranking.ReadyContentsWithScores` | backend/src/modules/scheduler/scheduler.service.ts:86-137 | each content's newest rows and recommendation from one query |
| `Ranking.GetRecommendation` | backend/src/modules/ranking/ranking-engine.service.ts:99-119 | one content's newest rows and recommendation from its own query |
| `RankingReads.ScoreTable.ComputeScores` | backend/src/modules/ranking/ranking-engine-v2.service.ts:35-80 | a recompute appends one whole batch, two rows or four, or nothing |
| `RankingReads.ReadPathsAgree` | backend/src/modules/scheduler/scheduler.service.ts:95-143 | after any history of recomputes and engine switches both read paths return the active engine's last batch of the content |
| `RankingReads.ReadPathsAgreeIff` | backend/src/modules/scheduler/scheduler.service.ts:95-143 | on any table, equal timestamps or not, the two read paths agree in every order of ties exactly when the content's rows that share a platform's newest timestamp are equal |
| `RankingReads.NewestStableIff` | backend/src/modules/ranking/ranking.constants.ts:48-84 | the newest rows are the same in every answer exactly under that condition |
| `RankingReads.OtherEngineIrrelevant` | backend/src/modules/ranking/ranking-engine.service.ts:78-106 | rows of the other engine change no answer |
| `RankingReads.NewestIsLastBatch` | backend/src/modules/ranking/ranking.constants.ts:64-84 | the newest row per platform of an engine's rows is its last batch |
| `RankingReads.LastBatchIs` | backend/src/modules/ranking/ranking-engine-v2.service.ts:35-80 | that batch holds the scores of the last recompute of the content under the engine in effect |
| `RankingReads.NoBatchIff` | backend/src/modules/ranking/ranking-engine-v2.service.ts:35-80 | and there is none exactly where there was no such recompute |
| `RankingReads.BatchIs` | backend/src/modules/ranking/ranking.constants.ts:20-40 | a batch has each platform's own score: Facebook and YouTube under the first engine, the four platforms under the second |
| `RankingReads.ActiveIs` | backend/src/modules/ranking/active-ranking-engine.service.ts:22-36 | the engine in effect is the one last switched to |
| `RankingReads.ActiveAtFirst` | backend/src/modules/ranking/active-ranking-engine.service.ts:22-36 | and the first engine until there is a switch |
| `RankingScores.ScoreInRange` | backend/src/modules/ranking/ranking.constants.ts:139-149 | a score never exceeds what its weights allow, despite rounding each share |
| `RankingScores.ScoreError` | backend/src/modules/ranking/ranking.constants.ts:182-189 | rounding moves a score by at most half a ten-thousandth per factor |
| `RankingScores.ScoreMonotone` | backend/src/modules/ranking/ranking-engine-v2.service.ts:94 | raising factor values never lowers a score |
| `RankingScores.ScoreV1` | backend/src/modules/ranking/ranking-engine.service.ts:121-134 | the first engine stays in 0..1 and within 0.0002 of the 35/20/20/25 weighted sum |
| `RankingScores.ScoreV2` | backend/src/modules/ranking/ranking-engine-v2.service.ts:82-96 | the second engine stays in 0..1 and within 0.00025 of the 30/20/20/15/15 weighted sum |
| `RankingScores.EngagementMeasures` | backend/src/modules/ranking/ranking-factors.service.ts:40-83 | engagement is neutral without history, else the platform's share of the two averages to within half a ten-thousandth |
| `RankingScores.BlendMeasures` | backend/src/modules/ranking/ranking-factors-v2.service.ts:73-131 | the second engine's is the middle of the engagement and the revenue share, each a half where there is nothing to compare |
| `RankingScores.PillarMeasures` | backend/src/modules/ranking/ranking-factors.service.ts:104-138 | pillar alignment is a half moved by what the pillar's share of recent posts is short of its target |
| `RankingScores.CadenceMeasures` | backend/src/modules/ranking/ranking-factors.service.ts:146-173 | cadence pressure is the part of the target still to be published |
| `RankingScores.EngagementAroundAverage` | backend/src/modules/ranking/ranking-factors.service.ts:33-83 | a platform at or above the pillar average is never below neutral, and conversely |
| `RankingScores.BlendAroundAverage` | backend/src/modules/ranking/ranking-factors-v2.service.ts:58-131 | the same for the blend of engagement and revenue |
| `RankingScores.PillarAroundTarget` | backend/src/modules/ranking/ranking-factors.service.ts:97-138 | an under-served pillar is never pushed down, an over-served one never up |
| `RankingScores.CadenceFalls` | backend/src/modules/ranking/ranking-factors.service.ts:140-173 | cadence pressure falls from full to none as posts approach the target |
| `RankingScores.CountedOnce` | backend/src/modules/ranking/ranking-factors-v2.service.ts:173-180 | a decision counts for or against a platform, never both |
| `RankingScores.SignalIsZeroSum` | backend/src/modules/ranking/ranking-factors-v2.service.ts:173-180 | over the four platforms every override takes from one what it gives another |
| `RankingScores.FactorsBalance` | backend/src/modules/ranking/ranking-factors-v2.service.ts:193-206 | the four override factors balance around neutral up to their rounding |
| `RankingScores.SignalPointsTheRightWay` | backend/src/modules/ranking/ranking-factors-v2.service.ts:134-142 | more overrides toward a platform than away never put it below neutral, and conversely; a net past one in ten thousand decisions moves it |
| `RankingScores.OverrideFeedbackMeasures` | backend/src/modules/ranking/ranking-factors-v2.service.ts:164-206 | below five decisions the factor is neutral; from five on it is a half plus half the share by which overrides that chose the platform outnumber overrides that turned it down, to within half a ten-thousandth |
| `RankingScores.OverrideIsAdvisory` | backend/src/modules/ranking/ranking-v2.constants.ts:64-77 | whatever the decisions, the factor moves a score by at most 0.10 from neutral |
| `RankingScores.StoredDecisions` | backend/src/modules/ranking/ranking-factors-v2.service.ts:164-171 | along every run of the publish protocol the stored decisions are the kind these results need |
| `Throttler.RedisThrottlerStorage.Increment` | backend/src/common/throttler/redis-throttler-storage.service.ts:34-71 | a call under arbitrary interleaving is exactly the run of its commands, an expiry only after the first hit and a block key only on a refusal; it is blocked exactly when the block key lives or what its own INCR returned exceeds the limit, and it tells the remaining window it read (a whole window where the key has no expiry) in seconds rounded up |
| `Throttler.RunKeeps` | backend/src/common/throttler/redis-throttler-storage.service.ts:34-71 | every run keeps counts, lives and expiries consistent |
| `Throttler.LimitPerLife` | backend/src/common/throttler/redis-throttler-storage.service.ts:54-60 | between the creation of the hit key and its expiry at most the limit passes |
| `Throttler.LimitPerWindow` | backend/src/common/throttler/redis-throttler-storage.service.ts:54-60 | in any interval of one window's length at most 2 * limit - 1 hits pass, however calls interleave and wherever they crash |
| `Throttler.BoundIsTight` | backend/src/common/throttler/redis-throttler-storage.service.ts:54-60 | and for every limit, in windows of at least two milliseconds, a run reaches that bound |
| `Throttler.CrashLeavesStuck` | backend/src/common/throttler/redis-throttler-storage.service.ts:54-57 | a call that dies between counting the first hit and setting the expiry leaves a key without expiry |
| `Throttler.StuckForever` | backend/src/common/throttler/redis-throttler-storage.service.ts:54-57 | and such a key never expires |
| `Throttler.EndsIff` | backend/src/common/throttler/redis-throttler-storage.service.ts:54-57 | a reachable window can still end exactly when its key is not left like that |
| `Throttler.LockedOut` | backend/src/common/throttler/redis-throttler-storage.service.ts:54-60 | with its count at the limit such a key lets no later hit pass |
| `Throttler.BlockHolds` | backend/src/common/throttler/redis-throttler-storage.service.ts:44-52 | from a block on, with no call past its check, nothing is counted before the block's time is over, however the calls interleave |
| `Throttler.CheckPassesIff` | backend/src/common/throttler/redis-throttler-storage.service.ts:44-52 | a call gets past the block check exactly when there is no block or its time is over |
| `Throttler.BlockedOnlyOverLimit` | backend/src/common/throttler/redis-throttler-storage.service.ts:62-65 | nobody is blocked before some hit has gone over the limit, nor without a block duration |
| `Cadence.PeriodsTile` | backend/src/common/utils/cadence-period.util.ts:3-10 | the calendar's periods: an instant lies in its period, every instant of a period has that period, and a period ends where the next begins |
| `Cadence.PeriodsStart` | backend/src/common/utils/cadence-period.util.ts:3-10 | weeks start on Monday and months on the first, at midnight UTC |
| `Cadence.MonthBounds` | backend/src/common/utils/cadence-period.util.ts:3-10 | a month begins on the first of the date's month and the next one follows its last day |
| `Cadence.WeekdayIs` | backend/src/common/utils/cadence-period.util.ts:16-17 | weekdays go round from the Monday that opens the year 1 of the Gregorian calendar |
| `Cadence.StartRightIff` | backend/src/common/utils/cadence-period.util.ts:11-20 | the code's start is the period's start exactly when now's year is not one of 0 to 99 and a date can hold it |
| `Cadence.EndRightIff` | backend/src/common/utils/cadence-period.util.ts:23-32 | the code's end is the period's end exactly when, besides, the period does not begin in such a year and a date can hold both |
| `Cadence.CurrentPeriodsTile` | backend/src/common/utils/cadence-period.util.ts:11-32 | where both years are proper the code's periods tile: now lies in its period, the proper instants of the period have it too, and its end opens the next |
| `Cadence.TwoDigitYearsFail` | backend/src/common/utils/cadence-period.util.ts:11-20 | in the years 0 to 99 the code's period begins after now, a month on the first of that month in the 1900s |
| `Cadence.SomeInstantFails` | backend/src/common/utils/cadence-period.util.ts:11-14 | as it does for 0050-06-15 |
| `Calendar.DateOfDayNumber` | backend/src/common/utils/cadence-period.util.ts:13-19 | the day number `Date.UTC` computes from a date is that date's day |
| `CommentReply.CommentReplyService.Reply` | backend/src/modules/comments/comment-reply.service.ts:33-97 | a request under arbitrary interference is a run; its outcome follows from the comment as read and as claimed, the writes and the platform: success records its author and text, a failure gives the claim back, a claimed or unreplyable comment is left alone |
| `CommentReply.CommentReplyService.DispatchReply` | backend/src/modules/comments/comment-reply.service.ts:67-129 | dispatch, record or give back, by outcome of each |
| `CommentReply.OneInFlight` | backend/src/modules/comments/comment-reply.service.ts:56-65 | at most one request is between its claim and its end, and the row then carries a claim |
| `CommentReply.DeliveriesBounded` | backend/src/modules/comments/comment-reply.service.ts:56-97 | at most one request ever succeeds, and replies delivered number at most one plus the claims given back after a delivery |
| `CommentReply.SuccessIsFinal` | backend/src/modules/comments/comment-reply.service.ts:56-65 | after a success nothing more is delivered |
| `CommentReply.CanDeliverIff` | backend/src/modules/comments/comment-reply.service.ts:56-97 | another reply can go out exactly while the row carries no claim or someone still works on it, whether or not one went out before |
| `CommentReply.DoubleReply` | backend/src/modules/comments/comment-reply.service.ts:14-20 | so a double reply is possible: from any fresh, replyable comment some run delivers two |
| `CommentReply.TruthfulSendsOnce` | backend/src/modules/comments/comment-reply.service.ts:67-129 | with every text recorded at the first try and no error after a delivery, at most one reply goes out |
| `CommentReply.AbandonedForever` | backend/src/modules/comments/comment-reply.service.ts:56-97 | a claim whose request died stands forever and no request reaches the platform again |
| `CommentReply.DyingAbandons` | backend/src/modules/comments/comment-reply.service.ts:56-97 | dying with the claim, or losing the claim's acknowledgement, leaves it like that |
| `CommentReply.UnreplyableUntouched` | backend/src/modules/comments/comment-reply.service.ts:48-54 | a comment that takes no replies is never claimed and nothing is ever sent for it |
| `CommentReply.ClaimWinsIff` | backend/src/modules/comments/comment-reply.service.ts:48-65 | a request goes on to claim exactly on a replyable comment without a claim, and wins exactly if there still is none |
| `CommentReply.TextMovesIff` | backend/src/modules/comments/comment-reply.service.ts:125-128 | the recorded text changes only by the write of the request that has sent its reply, to that request's text |

## Left out

- The copyright gate, content readiness, step-up passwords and connected accounts are yes-or-no inputs of the
  orchestrator and the reply flow; how they are decided is not modelled.
- The job queue may deliver any queued job at any time and any number of times; that a job id is queued once is
  not used. No code writes the status cancelled, so no step does.
- Platform adapters, token refresh and account lookups appear as nondeterministic outcomes.
- Audit logging, redaction, health checks, configuration and user interface are not modelled.
- Numbers in a CSV cell beyond the safe integers, whose text can have an exponent.
- IEEE rounding: money is in whole cents, scores in whole ten-thousandths, averages and rates exact; a rounding
  to two places of whole cents, and the outer rounding of a sum of rounded contributions, is then the identity.
- The trend's day keys are day numbers and sort as numbers, which is their text order for the years 0 to 9999;
  beyond those the trend's text keys are not modelled.
- Database ids of products, campaigns, posts and placements are 36-character strings and currencies have three
  characters, as the columns' types say.
- The commerce statement reference format and the sixty-second duplicate guard enter `Create` as answers; that
  guard compares what the client sent, not the inherited linkage, so no claim about duplicates is made.
- The seven grouping loops of the commerce and paid services and the two of the dashboard are one generic loop,
  `Grouping.BreakDown`, with each service's key, label and amounts.
- Every column of the revenue export but the choice of reading, the export's filters, and the other exports.
- The per-post list of a drill-down, which only renames fields, and the count of contents in the overview.
- The database aggregates behind the ranking factors (averages, counts, policies and targets) are inputs.
- The throttler models one key; the choice of key, and a failing (rather than dying) Redis command, are not
  part of the model. A key is gone from the millisecond of its expiry on.
- Comment ingestion, retention and deletion; a comment is taken to exist throughout.
- `CarriesDuration` and the parser take the quotient of duration and timescale as exact; the original divides
  floating point numbers first.
