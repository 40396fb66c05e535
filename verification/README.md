# Verified model of the capture, form, marketing and authentication services

The project models the hard parts of five components of a marketing back end written in
TypeScript and proves properties of them. Each database table is a map or a sequence, each
conditional UPDATE is one atomic step, and dates are integers on one clock.

| files | component |
|---|---|
| `ExportJob.dfy`, `ExportProtocol.dfy`, `ExportProgress.dfy` | the lease protocol of capture exports: the statements and objects of one attempt, all interleavings of workers, heartbeats and recovery, and that a job can always end |
| `Keyset.dfy`, `SyncWalk.dfy` | keyset queries, the batch loop of an export, the incremental sync whose cursor is cut to milliseconds |
| `Csv.dfy`, `QuizExport.dfy`, `QuestionHeaders.dfy`, `CaptureCsv.dfy` | the two CSV parsers and the printer, the quiz columns resolved in chunks, the question headers, the streamed and the in-memory capture export |
| `FormStore.dfy`, `FormClone.dfy`, `FormPayload.dfy`, `FormDraft.dfy`, `FormScores.dfy`, `FormFull.dfy`, `FormCreate.dfy` | versions and scores with at most one active, the deep copy of a version, creating a form from one payload |
| `Decimals.dfy`, `Consolidation.dfy`, `CampaignSums.dfy`, `AdCsv.dfy`, `ConsolidationRuns.dfy`, `ConsolidationLimits.dfy`, `JobLimits.dfy` | six-digit fixed point, the campaign table that extraction jobs and CSV imports derive from the ad table, the export and import of the ad table, and when exactly the two tables agree |
| `DateChunks.dfy`, `BulkInsights.dfy` | planning bulk insight jobs, and their accounting over polls |
| `RateLimit.dfy`, `LoginThrottle.dfy` | the in-memory rate limiter and the login lockout |
| `Options.dfy`, `Text.dfy` | shared option and result types, trimming |

Code that works in place is a class with the source's fields or a method with the source's
loop. Its contract ties the new state to a function of the old one, and the lemmas are about
that function.

## Where the code does not do what one may expect

- The sync cursor is cut to milliseconds, so a page limit that a single millisecond fills
  makes the caller fetch the same page for ever (`SyncWalk.CrowdedMillisecondTraps`,
  `SyncWalk.OneRowPagesCanLoop`). `SyncWalk.TerminatesExactlyWhenInsidesPass` gives the exact
  condition for tables in which no crowded millisecond mixes rows on and off its boundary, and
  `SyncWalk.EndsSoonOrNever` bounds, for every table, the pages of a walk that ends.
- For an empty result the streamed CSV ends in CRLF and the in-memory one does not; and where
  one question key has several labels the two exports can head its column differently: there is
  one capture for which they write different files (`CaptureCsv.ExportsCanDiffer`). The two files
  are the same exactly when there is a capture and the in-memory export reads the least label of
  each key first (`CaptureCsv.ExportsAgreeExactly`).
- A table whose last row is one empty cell is not read back (`Csv.RoundTrip`).
- Two writers format a negative cost differently (`Decimals.MicrosTextAgrees`), and the
  database rounds a seventh decimal that the aggregate cuts off
  (`Decimals.StoredEqualsAggregated`).
- An import row with bad `metadata_json` leaves the rows before it saved and their campaigns
  not rebuilt (`ConsolidationLimits.BadMetadataBreaksConsistency`), and a row with a bar in its
  key has another group rebuilt instead of its own (`ConsolidationLimits.BarBreaksConsistency`).
  The tables still agree exactly when no campaign whose sums change belongs to a group that is
  not rebuilt (`ConsolidationLimits.ImportIsConsistentExactly`); on empty tables, when no saved
  row of such a group names a campaign (`ConsolidationLimits.FirstImportIsConsistentExactly`).
- A response that names an ad twice on a day is summed twice and stored once
  (`JobLimits.RepeatedAdBreaksConsistency`). A row without an ad is summed and not stored, and
  a seventh decimal can be summed and stored differently (`JobLimits.OneRowIsConsistentExactly`).
  `JobLimits.JobIsConsistentExactly` says when the tables still agree.
- A row of the ad table whose ids are blank or have blanks around them, or with a negative
  number, is exported but not imported as it was (`AdCsv.RowReturns`).
- Option points of a payload are looked up under `question_key::option_key`; with colons in
  question keys two pairs can share a text, and a point then refers to the option of another
  question (`FormCreate.MixedPayload`). `FormCreate.FullMatchesExactlyWhenUnmixed` says when.
- An execution none of whose jobs could be started is finalized as aborted.
- A window of the rate limiter can admit nearly twice the limit, and fifteen minutes can hold
  eighteen failed logins; both bounds are reached, the first for every limit.

## Model

| member | source | states |
|---|---|---|
| `ExportJob.JobTable.Claim` | src/capture/capture.service.ts:1178-1205 | a claim takes a pending job, or a processing one silent for five minutes, with fewer than three attempts, and then resets progress and sets the new lease; otherwise no row changes |
| `ExportJob.JobTable.UpdateWhereOwned` | src/capture/capture.service.ts:1160-1163 | a write goes through exactly when the row is processing under this lease |
| `ExportJob.JobTable.FailWhereOwned` | src/capture/capture.service.ts:1272-1280 | a failure is recorded only by the attempt that owns the row |
| `ExportJob.JobTable.ReadRecoverable` | src/capture/capture.service.ts:920-928 | recovery reads the ten oldest jobs that wait or are silent, oldest first, and all of them when there are fewer |
| `ExportJob.JobTable.RecoverExportJobs` | src/capture/capture.service.ts:918-953 | recovery handles every job it read, failing abandoned ones and publishing the others |
| `ExportJob.RecoveryOnlyFailsAbandoned` | src/capture/capture.service.ts:918-953 | recovery changes a row only to failed, only when its attempts were used up and it is stale at that moment |
| `ExportJob.RepublishedExactlyTheRest` | src/capture/capture.service.ts:918-953 | exactly the jobs with attempts left are published again |
| `ExportJob.Attempt.UpdateOwned` | src/capture/capture.service.ts:1153-1175 | an owned update succeeds iff the lease was not known lost and the row is owned; an error leaves the table alone and marks the lease lost for good |
| `ExportJob.Attempt.Heartbeat` | src/capture/capture.service.ts:1207-1221 | a tick beats only when idle and owning; a broken or ineffective beat loses the lease |
| `ExportJob.Attempt.ExportBatches` | src/capture/capture.service.ts:1232-1247 | the progress reports of the batch loop end with the number of matching captures |
| `ExportJob.Attempt.ProcessExportJob` | src/capture/capture.service.ts:1140-1284 | an undisturbed run on a claimable job completes it with total and processed equal to the matching captures and the stored file, or fails it; other jobs and unclaimable ones are untouched |
| `ExportProtocol.StepKeeps` | src/capture/capture.service.ts:1140-1284 | every step of any worker, heartbeat, clock or recovery keeps the protocol's invariant |
| `ExportProtocol.NewerAttemptFencesOlder` | src/capture/capture.service.ts:1147-1284 | in every interleaving, after a newer claim no step of an older attempt changes the row |
| `ExportProtocol.AttemptsAreBounded` | src/capture/capture.service.ts:1178-1197 | over every run attempt_count is the number of successful claims and at most 3, and pending means no claim yet |
| `ExportProtocol.TerminalForever` | src/capture/capture.service.ts:1160-1163 | a completed or failed row is never changed again |
| `ExportProtocol.RecoveryFailsOnlyExhausted` | src/capture/capture.service.ts:918-953 | although it acts on an old snapshot, recovery fails only a processing job with all attempts used that is stale at the instant of the update |
| `ExportProtocol.CompletedComesFromOneAttempt` | src/capture/capture.service.ts:1225-1263 | file, file name token, total and progress of a completed row all come from the attempt whose lease it holds, and total and progress equal the captures matching the frozen filter |
| `ExportProtocol.RowChangesAreOwned` | src/capture/capture.service.ts:1147-1284 | whatever changes the row is a claim, a step of the owning attempt, or recovery |
| `ExportProtocol.SilentJobCanMove` | src/capture/capture.service.ts:918-953 | an unfinished job silent for five minutes can be claimed or will be failed by recovery |
| `ExportProgress.OwnerCanComplete` | src/capture/capture.service.ts:1225-1263 | whatever its place, the attempt that owns the row completes the job if it is left alone, whatever file it stores |
| `ExportProgress.EveryJobCanEnd` | src/capture/capture.service.ts:1140-1284 | from every reachable state in which the job has not ended, some enabled actions end it: completed if an attempt is left, failed otherwise |
| `ExportProtocol.CreateJob` | src/capture/capture.service.ts:867-884 | without a later end date of its own a new job never matches captures created after it |
| `Keyset.ListingIsSorted` | src/capture/capture.service.ts:1699-1700 | the sorted query lists each matching capture once in strict key order |
| `Keyset.QueryIsSlice` | src/capture/capture.service.ts:1687-1711 | every keyset query is a slice of that one listing |
| `Keyset.ExactCursor` | src/capture/capture.service.ts:1694-1708 | the microsecond cursor of a row continues right behind it |
| `Keyset.ExportRows` | src/capture/capture.service.ts:816-860 | for every batch size the batch loop ends and yields the listing, with no row twice or missing, and reports the running totals |
| `Keyset.ReportsReachTheEnd` | src/capture/capture.service.ts:843-845 | reported totals grow strictly and end at the number of rows |
| `SyncWalk.NoRowIsSkipped` | src/capture/capture.service.ts:1034-1089 | following next_cursor never skips a row, and a walk that ends has delivered all |
| `SyncWalk.SufficientLimitTerminates` | src/capture/capture.service.ts:1047-1088 | the walk ends when no millisecond fills a page that has anything behind it |
| `SyncWalk.CrowdedMillisecondTraps` | src/capture/capture.service.ts:1079-1088 | a millisecond with as many rows off its boundary as the limit, and anything behind, is never left |
| `SyncWalk.TerminatesExactlyWhenLimitSuffices` | src/capture/capture.service.ts:1047-1088 | without timestamps exactly on a millisecond the walk ends iff no millisecond fills a page that has anything behind it |
| `SyncWalk.TerminatesExactlyWhenInsidesPass` | src/capture/capture.service.ts:1047-1088 | unless a millisecond that fills a page mixes rows on and off its boundary, the walk ends iff no millisecond has as many rows off its boundary as the limit and anything behind them |
| `SyncWalk.EndsSoonOrNever` | src/capture/capture.service.ts:1034-1089 | for every table and limit a walk that ends at all has ended after one page more than there are rows |
| `SyncWalk.AlignedWalkIsExact` | src/capture/capture.service.ts:1034-1089 | on millisecond-aligned timestamps the walk ends and delivers the listing, each row once |
| `SyncWalk.OneRowPagesCanLoop` | src/capture/capture.service.ts:1047-1088 | two rows of one millisecond trap a walk with one row a page |
| `QuizExport.ChunkArray` | src/capture/capture.service.ts:2266-2272 | chunks are non-empty, all but the last full, and together the list |
| `QuizExport.CollectAnswers` | src/capture/capture.service.ts:2072-2103 | one pass over the answers groups the pieces by response, the labelled values by capture and the first label of each key |
| `QuizExport.ReadResponses` | src/capture/capture.service.ts:2025-2104 | reading responses in chunks gives each its first score, its joined answers and its capture's answer map, and every answered key the label read first for it |
| `QuizExport.ResolveQuizExportData` | src/capture/capture.service.ts:1958-2131 | for any chunk size every asked capture gets the detail and answers of its latest response, no other capture gets any, and every key of these answers gets the label read first |
| `QuizExport.LatestIsGreatest` | src/capture/capture.service.ts:1984-1995 | the response taken for a capture is the one submitted last, then created last, then of the greatest id |
| `QuizExport.BatchIsRestriction` | src/capture/capture.service.ts:1958-2131 | resolving a batch equals resolving the whole set restricted to the batch |
| `QuizExport.ResolvePersonContacts` | src/capture/capture.service.ts:2220-2264 | for any chunk size each asked person gets the contacts found in order |
| `QuestionHeaders.CollectExportQuestionHeaders` | src/capture/capture.service.ts:1813-1849 | the stream's headers: of every key the first label in label order, sorted by key |
| `QuestionHeaders.QueriedLabelsAreLeast` | src/capture/capture.service.ts:1839-1845 | these labels cover the answers of the latest responses, each key with its least label |
| `QuestionHeaders.CollectedAreLeast` | src/capture/capture.service.ts:2085-2089 | the labels kept in reading order are the least ones iff every first answer of a key shows its least label |
| `QuestionHeaders.HeadersAgreeExactly` | src/capture/capture.service.ts:2121-2123 | for all tables, captures and chunk sizes both exports list the same question headers iff every answer that is the first read of its key shows the key's least label |
| `QuestionHeaders.OneLabelEach` | src/capture/capture.service.ts:2085-2089 | so they do when no two answers read show different labels for one key |
| `QuestionHeaders.HeadersCanDiffer` | src/capture/capture.service.ts:2085-2089 | and there are tables, with two labels for one key, for which the two exports collect different labels |
| `CaptureCsv.ExportBatch` | src/capture/capture.service.ts:823-841 | a batch's text is its lines of the whole export, separated from what came before |
| `CaptureCsv.StreamCapturesCsv` | src/capture/capture.service.ts:789-865 | for every batch and chunk size the stream is the header line, with the queried headers, and the listing's lines |
| `CaptureCsv.ExportCapturesCsv` | src/capture/capture.service.ts:670-687 | the in-memory export prints the header, with the labels read first, and the listing as one table |
| `CaptureCsv.StreamContinuesMemory` | src/capture/capture.service.ts:808-811 | under the same headers the stream is the in-memory file, with one more CRLF when there is no row |
| `CaptureCsv.StreamEqualsInMemory` | src/capture/capture.service.ts:1297-1323 | for any two header lists both texts are equal iff the listing is not empty and the headers are the same |
| `CaptureCsv.ExportsAgreeExactly` | src/capture/capture.service.ts:789-865 | so what the two exports write about the same captures is one file iff there is a capture and every answer that is the first read of its key shows the key's least label |
| `CaptureCsv.ExportsCanDiffer` | src/capture/capture.service.ts:2085-2089 | and for one capture with two labels for one key the two files differ |
| `Csv.ParseCsv` | src/marketing-sync/marketing-sync.service.ts:1128-1177 | the document parser's index loop computes the row grammar it is specified by |
| `Csv.ParseCsvLine` | src/meta-ads/meta-ads.service.ts:1353-1375 | the line parser's index loop computes the cell grammar it is specified by |
| `Csv.ParsersAgree` | src/meta-ads/meta-ads.service.ts:1353-1375 | on a line without CR, LF and leading BOM the two parsers agree, except that a single empty cell is no row for the document parser |
| `Csv.RowsReadBody` | src/marketing-sync/marketing-sync.service.ts:1150-1166 | printed rows are read back whether lines end in CR, LF or CRLF |
| `Csv.ParsedPrint` | src/marketing-sync/marketing-sync.service.ts:899-924 | what parsing the export gives for any rows whatsoever |
| `Csv.RoundTrip` | src/marketing-sync/marketing-sync.service.ts:899-924 | parsing the export gives the rows back iff each row has a cell and the last is not one empty cell (section 2 of RFC 4180) |
| `Csv.LineRoundTrip` | src/meta-ads/meta-ads.service.ts:1353-1375 | the line parser inverts joined cells, quoted or plain |
| `FormStore.NextFormVersionNumber` | src/form/form-management.service.ts:1878-1888 | the next number is one above the form's highest and not in use |
| `FormStore.FormManagement.CreateVersion` | src/form/form-management.service.ts:113-148 | keeps foreign keys and at most one active version per form; the new version has the requested or next number, and a number below 1 is refused |
| `FormStore.FormManagement.UpdateVersion` | src/form/form-management.service.ts:150-187 | keeps them; fails exactly for an unknown version, an empty change or a number below 1 |
| `FormStore.FormManagement.ActivateVersion` | src/form/form-management.service.ts:189-207 | activates this version and no other of its form |
| `FormStore.FormManagement.RemoveVersion` | src/form/form-management.service.ts:209-216 | removes the version with its links, responses, scores and their points |
| `FormStore.FormManagement.CreateScore` | src/form/form-management.service.ts:552-581 | keeps at most one active score per version |
| `FormStore.FormManagement.UpdateScore` | src/form/form-management.service.ts:583-618 | keeps it; fails exactly for an unknown score, an empty change or an empty name |
| `FormStore.FormManagement.ActivateScore` | src/form/form-management.service.ts:620-636 | activates this score and no other of its version |
| `FormStore.FormManagement.RemoveScore` | src/form/form-management.service.ts:638-645 | removes the score with its points and rules |
| `FormStore.FormManagement.CreateQuestion` | src/form/form-management.service.ts:234-257 | adds a question of a known form under a new id |
| `FormStore.FormManagement.CreateQuestionOption` | src/form/form-management.service.ts:316-337 | adds an option of a known question under a new id |
| `FormStore.FormManagement.AddFormVersionQuestion` | src/form/form-management.service.ts:397-439 | links a question exactly when it is of the version's form and not linked yet, at the given place or behind all others |
| `FormStore.NextFormVersionQuestionOrder` | src/form/form-management.service.ts:1890-1898 | the next place is one above the version's highest, 1 for a first link |
| `FormStore.FormManagement.ReplaceScoreOptionPoints` | src/form/form-management.service.ts:671-760 | replaces a score's points by exactly the items, or changes nothing when a pair repeats or does not fit the form; points keep matching their options |
| `FormClone.CopyRows` | src/form/form-management.service.ts:1193-1205 | a copying loop adds exactly one new row per source and notes its id |
| `FormClone.MatchingIsClonable` | src/form/form-management.service.ts:1179-1191 | in a matching store no check of the clone fails for a version of the form |
| `FormClone.PrepareTarget` | src/form/form-management.service.ts:1088-1121 | the copies go to the requested version if it is unused, else to a new one that takes over its activity |
| `FormClone.Clone` | src/form/form-management.service.ts:1004-1350 | succeeds exactly when the ids fit and the source is clonable; then the target holds an isomorphic image of the source's seven row kinds, the counts are those of the image, soundness is kept, and an error changes nothing |
| `FormClone.ImageIsSound` | src/form/form-management.service.ts:1258-1268 | copying into a version without scores keeps at most one active score |
| `FormClone.ImageMatches` | src/form/form-management.service.ts:1223-1287 | cloned options belong to the clones of their questions and cloned points refer to cloned score, question and option |
| `FormClone.TargetHoldsExactlyTheCopies` | src/form/form-management.service.ts:1239-1268 | the target version holds the copies and nothing else, the source what it held |
| `FormClone.PointIsCloned` | src/form/form-management.service.ts:1270-1290 | a cloned score awards a cloned option a copy, of the same value, of every point its source awards |
| `FormClone.PointIsCopy` | src/form/form-management.service.ts:1270-1290 | and nothing else |
| `FormClone.GrownByCount` | src/form/form-management.service.ts:1333-1348 | the reported counts are the growth of the tables |
| `FormPayload.SaveOptions` | src/form/form-management.service.ts:1470-1502 | the option loop accepts a question iff its option keys are non-empty and do not repeat |
| `FormPayload.SaveItems` | src/form/form-management.service.ts:1450-1515 | the question loop saves question, options and link of every item, or refuses |
| `FormPayload.JoinedIsInjective` | src/form/form-management.service.ts:1497-1500 | joined texts of question keys without a colon tell the pairs apart |
| `FormPayload.PairFound` | src/form/form-management.service.ts:1497-1500 | the pair found for a text has that text and names a question of the payload |
| `FormPayload.MakePoints` | src/form/form-management.service.ts:1531-1562 | option points are made iff every key pair is known |
| `FormPayload.MakeRanges` | src/form/form-management.service.ts:1564-1604 | range points are made iff every question is known and no range is inverted |
| `FormPayload.SaveScores` | src/form/form-management.service.ts:1517-1606 | the score loop saves every score with its points, or refuses |
| `FormCreate.CreateFull` | src/form/form-management.service.ts:1352-1616 | succeeds exactly on accepted payloads whose launch and season are known and fit each other, keeps soundness, reports the counts, and leaves the store untouched otherwise |
| `FormCreate.PayloadIsThere` | src/form/form-management.service.ts:1450-1606 | every question, option, link, score and point of the payload is in the new store with its attributes and defaults |
| `FormScores.NothingElse` | src/form/form-management.service.ts:1517-1606 | the score tables hold their old rows and the payload's, nothing else |
| `FormCreate.FullIsSound` | src/form/form-management.service.ts:1392-1401 | the new store keeps at most one active version and score, which rests on the check of the payload's active scores |
| `FormCreate.FullMatchesExactlyWhenUnmixed` | src/form/form-management.service.ts:1542-1558 | points keep matching their options iff each point's text stands for a pair of its own question |
| `FormCreate.ColonFreeIsUnmixed` | src/form/form-management.service.ts:1497-1500 | with question keys free of colons they always do |
| `FormCreate.MixedPayload` | src/form/form-management.service.ts:1542-1558 | an accepted payload for which they do not |
| `Decimals.ScaledRoundTrip` | src/marketing-sync/marketing-extract-processor.service.ts:627-654 | decimalStringToScaledInt undoes scaledIntToDecimalString on every integer |
| `Decimals.TruncatesTowardZero` | src/marketing-sync/marketing-extract-processor.service.ts:627-644 | a plain decimal is cut toward zero with an error below one micro-unit, and exactly converted with up to six decimals |
| `Decimals.AggregateError` | src/marketing-sync/marketing-extract-processor.service.ts:470-487 | an aggregate of n rows is within n micro-units of the exact sum |
| `Decimals.AggregateIgnoresOrder` | src/marketing-sync/marketing-extract-processor.service.ts:470-487 | whatever the row order |
| `CampaignSums.CollectsExactly` | src/marketing-sync/marketing-extract-processor.service.ts:470-487 | the aggregation fails iff some row that names a campaign has a number that cannot be read |
| `CampaignSums.CollectSums` | src/marketing-sync/marketing-extract-processor.service.ts:470-487 | otherwise each campaign and day of the rows has one entry with the sums of its rows, and no other has any |
| `CampaignSums.AggregationIgnoresOrder` | src/marketing-sync/marketing-extract-processor.service.ts:470-487 | permuting the rows changes no entry |
| `CampaignSums.CampaignSpendError` | src/marketing-sync/marketing-extract-processor.service.ts:470-487 | the spend of an entry over n plain amounts is within n micro-units of their exact sum |
| `Decimals.MicrosTextAgrees` | src/marketing-sync/marketing-extract-processor.service.ts:620-654 | the two cost formats agree iff the cost is not negative or is a whole unit |
| `Decimals.StoredEqualsAggregated` | src/marketing-sync/marketing-extract-processor.service.ts:484-504 | the stored and the aggregated cost agree iff the seventh decimal, if any, is below five |
| `Decimals.StoredScaledText` | src/marketing-sync/marketing-extract-processor.service.ts:519-522 | a printed aggregate is stored without loss |
| `Consolidation.JobKeepsConsistency` | src/marketing-sync/marketing-extract-processor.service.ts:261-364 | a job over a good response, or one that stops at a bad number, keeps the campaign table equal to the sums of the ad table |
| `Consolidation.RebuildAgrees` | src/marketing-sync/marketing-sync.service.ts:1271-1334 | the rebuild puts the named groups right and leaves the others alone |
| `Consolidation.KeySurvives` | src/marketing-sync/marketing-sync.service.ts:1014-1016 | a group is recovered from its joined key iff its parts hold no bar |
| `ConsolidationRuns.MarketingTables.ProcessJob` | src/marketing-sync/marketing-extract-processor.service.ts:452-550 | the job clears its range, aggregates and inserts; of the numbers of its rows it fails exactly on one it cannot parse or store |
| `ConsolidationRuns.MarketingTables.ImportAdPerformanceCsv` | src/marketing-sync/marketing-sync.service.ts:927-1027 | an empty file, a missing column, a bad row or no row is its error and changes nothing; otherwise rows are saved up to one with bad metadata, and campaigns rebuilt if there is none |
| `ConsolidationRuns.MarketingTables.SaveRows` | src/marketing-sync/marketing-sync.service.ts:970-1017 | the loop upserts the rows in order and notes each group once |
| `ConsolidationRuns.MarketingTables.RebuildCampaigns` | src/marketing-sync/marketing-sync.service.ts:1271-1334 | the loop rebuilds the noted groups one after the other |
| `ConsolidationRuns.ImportKeepsConsistency` | src/marketing-sync/marketing-sync.service.ts:970-1019 | an import without bars in its keys and with valid metadata keeps the tables consistent |
| `ConsolidationRuns.RunsStayConsistent` | src/marketing-sync/marketing-extract-processor.service.ts:560-588 | from empty tables any sequence of good jobs and imports keeps the campaign table equal to the per-day sums of the ad table |
| `ConsolidationRuns.GoogleRowIsGood` | src/marketing-sync/marketing-extract-processor.service.ts:290-321 | a Google row with both ids, a date in range, a cost of zero or more and clean conversions, or none, meets the conditions |
| `ConsolidationRuns.MetaRowIsGood` | src/marketing-sync/marketing-extract-processor.service.ts:469-507 | so does a Meta row with clean amounts, or none |
| `ConsolidationRuns.CleanRunsStayConsistent` | src/marketing-sync/marketing-extract-processor.service.ts:560-588 | so any sequence of responses with clean texts and of imports keeps the tables in agreement |
| `ConsolidationLimits.ImportIsConsistentExactly` | src/marketing-sync/marketing-sync.service.ts:970-1019 | an import leaves consistent tables consistent iff every campaign whose sums the saved rows change is of a group without bars and all metadata parses |
| `ConsolidationLimits.BarFreeImportIsConsistentExactly` | src/marketing-sync/marketing-sync.service.ts:970-1019 | without bars: iff all metadata parses or the rows saved change no campaign's sums |
| `ConsolidationLimits.FirstImportIsConsistentExactly` | src/marketing-sync/marketing-sync.service.ts:1002-1019 | from empty tables: iff all metadata parses and no row that names a campaign has a bar in its key, or no saved row names a campaign |
| `ConsolidationLimits.BadMetadataBreaksConsistency` | src/marketing-sync/marketing-sync.service.ts:1002-1019 | bad metadata behind a good row leaves its campaign without sums |
| `ConsolidationLimits.BarBreaksConsistency` | src/marketing-sync/marketing-sync.service.ts:1014-1019 | a bar in a key leaves the row's campaign without sums, though the import succeeds |
| `JobLimits.SummedIsStoredAndLost` | src/marketing-sync/marketing-extract-processor.service.ts:470-507 | for every campaign, day and metric, what a response sums is what it stores of ads plus what it loses to rows that name no ad, are overwritten by a later one or are rounded otherwise |
| `JobLimits.JobIsConsistentExactly` | src/marketing-sync/marketing-extract-processor.service.ts:261-364 | a job whose rows lie in its range and can be summed and stored leaves consistent tables consistent iff each campaign and day loses nothing and keeps a row |
| `JobLimits.NonNegativeJobIsConsistentExactly` | src/marketing-sync/marketing-extract-processor.service.ts:493-507 | with rows stored as they are summed and no negative numbers: iff rows that leave no ad behind have only zeros, and each campaign and day keeps an ad |
| `JobLimits.OneRowIsConsistentExactly` | src/marketing-sync/marketing-extract-processor.service.ts:484-507 | with one row: iff it names an ad and is stored as it is summed |
| `JobLimits.CountedJobIsConsistentExactly` | src/marketing-sync/marketing-extract-processor.service.ts:493-507 | with good rows that all have impressions: iff no ad is named twice on a day |
| `JobLimits.RepeatedAdBreaksConsistency` | src/marketing-sync/marketing-extract-processor.service.ts:493-507 | an ad named twice on a day is summed twice and stored once |
| `AdCsv.RowReturns` | src/marketing-sync/marketing-sync.service.ts:1179-1230 | an exported row is read back as it was iff its ids are trimmed and not empty, its date is an ISO date and no number is negative |
| `AdCsv.ExportReadsBack` | src/marketing-sync/marketing-sync.service.ts:842-964 | the import reads an exported file as the exported rows iff there are some and all are such |
| `ConsolidationRuns.ReimportChangesNothing` | src/marketing-sync/marketing-sync.service.ts:927-1027 | importing what was exported from some rows of the ad table, all portable and without bars in provider and account, leaves the ad table as it is and the campaign sums right |
| `ConsolidationRuns.ExportRestores` | src/marketing-sync/marketing-sync.service.ts:842-1027 | imported into empty tables, the export of such an ad table restores it, and the campaign sums with it |
| `DateChunks.EndsExactlyWhenPositive` | src/meta-ads/meta-ads.service.ts:325-336 | the chunk loop leaves a non-empty range iff chunks have at least one day |
| `DateChunks.ChunkDateRange` | src/meta-ads/meta-ads.service.ts:316-339 | chunks are consecutive, at most chunkDays long, and cover the range exactly; their number is days / chunkDays rounded up |
| `DateChunks.ContainedOnce` | src/meta-ads/meta-ads.service.ts:316-339 | every day of the range is in exactly one chunk, any other in none |
| `DateChunks.GroupTargets` | src/meta-ads/meta-ads.service.ts:1400-1410 | grouping by connection keeps every selected account as often as it was selected |
| `DateChunks.ResolveTargets` | src/meta-ads/meta-ads.service.ts:1379-1411 | given accounts are taken as they are, else the selected ones; without any it is an error |
| `DateChunks.PlanJobs` | src/meta-ads/meta-ads.service.ts:288-295 | the announced total is the number of jobs, and each account and day of the range is fetched as often as the account is listed |
| `DateChunks.EveryAccountDayOnce` | src/meta-ads/meta-ads.service.ts:407-424 | so by exactly one job when the accounts differ, and days outside by none |
| `BulkInsights.UpsertsAgain` | src/meta-ads/meta-processor.service.ts:203-264 | writes that all come again leave no trace of the first time |
| `BulkInsights.BulkService.SaveInsights` | src/meta-ads/meta-processor.service.ts:171-270 | rows with both ids are upserted in order and counted, the others skipped; a fault leaves the rows before it |
| `BulkInsights.BulkService.CheckJobs` | src/meta-ads/meta-ads.service.ts:603-658 | the loop over the checks keeps open exactly the jobs without a final answer and counts failures and rows |
| `BulkInsights.BulkService.FinalizeExecution` | src/meta-ads/meta-ads.service.ts:503-537 | the final record and status |
| `BulkInsights.BulkService.ProcessPendingJobs` | src/meta-ads/meta-ads.service.ts:563-703 | one tick; when the record cannot be saved only the table changes |
| `BulkInsights.BulkService.PollRunningBulkJobs` | src/meta-ads/meta-ads.service.ts:541-561 | only a running execution with pending jobs is touched |
| `BulkInsights.StartJobs` | src/meta-ads/meta-ads.service.ts:426-500 | the started jobs become pending; without any, or on request, the execution is aborted |
| `BulkInsights.MirrorBounds` | src/meta-ads/meta-ads.service.ts:485-494 | done plus pending is the total, and failures are among the done |
| `BulkInsights.PollAdvances` | src/meta-ads/meta-ads.service.ts:660-683 | a saved poll does to the counters what it does to a ledger with one entry a job, and closes the record when none is open: done plus failed is the total, completed iff nothing failed |
| `BulkInsights.RunMirrors` | src/meta-ads/meta-ads.service.ts:563-683 | so over any sequence of polls, with totalRecords the sum over the jobs done without failure |
| `BulkInsights.EntriesChangeOnce` | src/meta-ads/meta-ads.service.ts:603-658 | a job is settled once, by an answer it gave |
| `BulkInsights.PollCanBeRedone` | src/meta-ads/meta-ads.service.ts:563-703 | any number of polls whose record could not be saved can be followed by one that is saved, with the table and record of that one alone, for unchanged results |
| `RateLimit.RateLimiter.CheckMemory` | src/auth/auth-rate-limit.service.ts:76-91 | the answer and the new buckets |
| `RateLimit.RateLimiter.Cleanup` | src/auth/auth-rate-limit.service.ts:99-104 | from 5000 buckets on exactly the expired ones are dropped |
| `RateLimit.CleanupIsInvisible` | src/auth/auth-rate-limit.service.ts:99-104 | cleanup changes no answer on a clock that does not go back |
| `RateLimit.IntervalBound` | src/auth/auth-rate-limit.service.ts:76-91 | any interval of one window length admits at most 2 * limit - 1 checks of a key, none without a limit |
| `RateLimit.BoundIsReached` | src/auth/auth-rate-limit.service.ts:76-91 | that bound is reached for every limit and every window of at least two milliseconds |
| `RateLimit.RetryIsAdmitted` | src/auth/auth-rate-limit.service.ts:89-90 | a caller back after the returned seconds is admitted if nobody checked the key since its restart |
| `LoginThrottle.AuthService.AssertNotLocked` | src/auth/auth.service.ts:321-330 | an expired lock is forgotten, a running one refuses |
| `LoginThrottle.AuthService.RegisterFailure` | src/auth/auth.service.ts:305-319 | one more failure in the current counting window or the first of a new one |
| `LoginThrottle.AuthService.TryLogin` | src/auth/auth.service.ts:56-85 | outcome and new entry of one login |
| `LoginThrottle.TenthFailureLocks` | src/auth/auth.service.ts:305-330 | after a tenth failure no failure and no success is registered for fifteen minutes |
| `LoginThrottle.AtMostEighteen` | src/auth/auth.service.ts:305-330 | fifteen minutes without a success register at most 18 failures of an email |
| `LoginThrottle.EighteenIsReached` | src/auth/auth.service.ts:305-319 | and 18 are possible |

## Left out

- HTTP controllers, guards, DTOs, OAuth and token handling, bcrypt, JWT, blob storage, the
  service bus, ExcelJS and all provider calls: their outcomes are parameters.
- SQL text and TypeORM: a query is its meaning, and where an ORDER BY leaves ties the rows are
  taken in one fixed order. Database errors between two writes are modelled only where the
  table above says so.
- Launch, season, role and audit records, dashboards, Hotmart processing, lead scoring: easy
  members, or parts whose guarantees rest on code that is not part of this model.
- Meta's abort endpoint: it races with whole-record saves, so nothing is claimed about it.
- ExportJob.Attempt.ProcessExportJob: the whole run happens at one instant and undisturbed; all
  interleavings are in ExportProtocol.
- ExportProtocol.CompletedComesFromOneAttempt: captures that match the frozen filter neither
  come nor go during a run; others may be inserted.
- SyncWalk.TerminatesExactlyWhenLimitSuffices: tables with timestamps exactly on a millisecond
  are left to SyncWalk.TerminatesExactlyWhenInsidesPass.
- SyncWalk.TerminatesExactlyWhenInsidesPass: where a crowded millisecond mixes rows on and off
  its boundary the condition depends on the ids in it and on where the walk enters; for such
  tables SyncWalk.EndsSoonOrNever says that following a page more than there are rows decides.
  The cap on the page size, the map parameter and cursor parsing are not modelled.
- QuestionHeaders.HeadersAgreeExactly: the pt-BR collation is any total order; texts that
  compare equal are taken to be the same.
- QuizExport.ResolveQuizExportData: captures and persons are unique ids.
- ExportJob.JobTable.RecoverExportJobs: it acts on what ReadRecoverable read earlier, so the jobs
  it read are a parameter; the branch for a service bus that is switched off is not modelled, nor
  a publication that fails.
- ConsolidationRuns.MarketingTables.ProcessJob: raw payload rows are not stored, and impressions
  and clicks are numbers already, so the failure of BigInt on them is not modelled. Nor are the
  unique indexes of the two tables
  (src/database/migrations/1770000000037-CreateMarketingExtractionTables.ts:120 and
  1770000000038-CreateMarketingAdDailyPerformance.ts:74), which make a job fail too when a row's
  date lies outside its range and its key is stored already.
- JobLimits.JobIsConsistentExactly: rows with a date outside the job's range, and numbers that
  can be summed and not stored, are left out.
- Decimals.AggregateError: stated for any list of amounts; CampaignSums.CampaignSpendError
  carries it to the aggregation of a response.
- Decimals.AggregateIgnoresOrder: stated for any list of amounts;
  CampaignSums.AggregationIgnoresOrder carries it to the aggregation of a response.
- FormClone.Clone: the order in which rows are copied, and so their creation times, is not
  kept.
- FormStore: replacing range points and tier rules, and updating or removing questions,
  options and links, work like the operations modelled. Operations run one after the other.
- FormCreate.CreateFull: texts are taken as trimmed already, and the form's own name, type,
  launch and season are checked but not stored.
- Decimals.ScaledRoundTrip: BigInt's hexadecimal, octal and binary notations are not modelled.
- Consolidation.JobKeepsConsistency: raw payloads, names and metadata of rows are not
  modelled, and the keys id:date of the aggregation maps are pairs.
- ConsolidationRuns.MarketingTables.ImportAdPerformanceCsv: names and metadata are read but not
  stored; which texts are JSON is a parameter, and a bad line's number is not told.
- AdCsv.ExportReadsBack: the export's filters and limit are any choice of rows.
- DateChunks.ChunkDateRange: days are integers; an unparsable date is not modelled.
- BulkInsights.BulkService.ProcessPendingJobs: log lines and percentages are not modelled, and
  one execution is polled by one tick at a time.
- RateLimit.RateLimiter.CheckMemory: the key is given; building it from address and subject,
  and the table in Postgres, are not modelled.
- LoginThrottle.AtMostEighteen: attempts follow one another; concurrent attempts can register
  more.
