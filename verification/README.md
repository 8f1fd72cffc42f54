# Semcast, modelled and proved in Dafny

Semcast runs SQL with predicates that a language model answers. This project models the parts
of it where being almost right is expensive: the durable cache of the model's verdicts, the
calibration that decides what an index may prune, the query rewrites that must not change an
answer, the batch-job protocol, and five self-contained algorithms they lean on. Run
`dafny verify dfyconfig.toml` to check everything.

How the parts are modelled:

- **The verdict cache** (`VerdictCache`, `CacheProtocol`, `CacheAtomicity`, `CacheAnswers`,
  `CacheWriter`, `CacheTracking`, `CacheFlush`, `CacheReopening`, `SqliteCache`,
  `ExtractionGroups`). A step machine with any number of instances on one file: the two lock sections of `get`, the map insert and the later send of `store`, one message taken by the
  writer, a transaction that commits or fails, flushes, close, exit, crash, and arbitrary
  tampering with the file. Runs are arbitrary step sequences. Beside it stand the cache's own
  methods, proved against the same first-wins functions the steps use, and the writer's loop.
- **Recall calibration and the scan** (`Wilson`, `Calibrate`, `CalibrationSearch`,
  `CertifiedRecall`, `CertifiedSearch`, `LabelledRecall`, `SamplePriority`, `SampleDraw`,
  `IndexScan`, `CalibratedScan`). Scores, targets and ratios are reals; a floor is either a real or the explicit "prunes nothing". The
  square root and the normal quantile are parameters with their defining properties. 64-bit
  words are naturals below 2^64 with wrap-around and bitwise operations written out.
- **Query rewrites** (`SelectExpr`, `ClassifyRewrite`, `ClassifyGuards`, `ClassifyBuilder`,
  `ClassifyStack`, `ClassifyBatch`, `ClassifyCache`, `ClassifyRun`, `MeansRewrite`, `MeansLayout`,
  `FusionCost`, `FusionRuns`). A small expression language with three-valued logic, `CASE` and `MEANS`, and an oracle from text and condition to yes, no or failed.
- **Batch jobs** (`Jobs`, `JobProtocol`, `JobStory`). The registry as an object whose methods are critical
  sections, and a step machine of submitters, tasks, drains, cancellers, aborts and restarts,
  with every file write allowed to fail.
- **Algorithms** (`SqlLexer`, `Splitter`, `SqlConstructs`; `KMeans`; `GenerationUnits`; `Fallback`).

Where the code and what is said about it differ, the model follows the code:

- A comment at `src/optimizer/rewrite.rs:178-186` says fusing conditions never loses on call count. It
  can: a text that one condition turns away and another condition's call always fails on costs one
  fused call per batch, but only one stacked call ever. Seen from the input, it never loses whatever the
  model answers exactly when no text is met again in a later batch
  (`FusionCost.FusingTheseBatchesIsNeverDearerIff`); seen from the model, on any batches, exactly when no text
  is turned away before a condition the model fails on (`FusionCost.FusingIsNeverDearerIff`).
- `flush` promises that all verdicts stored up to then are on disk when it returns (`src/cache/sqlite.rs:180-183`). It is
  not if a store is between its locked section and its send (`CacheFlush.FlushMissesWhatIsNotSent`), or if a
  transaction failed (`CacheFlush.FlushIsAnsweredAfterAFailure`). `CacheFlush.FlushDelivers` says for every stored
  verdict where it is once the flush has been answered, and `CacheFlush.FlushPromiseIff` when the promise is kept.
- A terminal job status survives a restart only if a write of its record did: in the run
  `JobProtocol.LostWriteInterrupts` it does not, and `JobProtocol.TerminalSurvivesRestartIff` says when it does.
- The claim that certifying never keeps fewer matches than estimating (`src/optimizer/calibrate.rs:566-606`) is
  about recall, not floors. It holds when the unindexed positives alone fall short of the target
  (`CertifiedRecall.CertifyingKeepsNoFewer`). When they do not it can fail: `CertifiedRecall.CertifyingCanKeepFewer` is a
  sample for which it does, and `CertifiedRecall.CertifiedKeepsNoFewerIff` the exact
  condition for one quantile and confidence, and `CertifiedRecall.CertifyingKeepsNoFewerIff` for the sample alone, over all quantiles.
- A job's abort handle is said to be present only while its task is alive (`src/server/jobs/mod.rs:113`). It can
  outlive the task: in `JobProtocol.FinishedJobKeepsItsHandle` the task finished, and in
  `JobProtocol.CancelledJobKeepsItsHandle` it found the job cancelled before its handle was stored. In every run a handle
  is stored exactly when neither a cancel of the job nor a restart came after it was (`JobProtocol.HandleStoredIff`), and
  `JobProtocol.HandleMeansTaskIff` says in which runs the claim holds.

## Model

| member | source | states |
|---|---|---|
| VerdictCache.FirstWinsIsUnion | src/cache/sqlite.rs:325-343 | Offering rows one by one, each ignored if its key is taken, adds the group's first verdicts below what the table holds |
| VerdictCache.FreshRowsAreTheMissingOnes | src/cache/sqlite.rs:203-223 | The rows `store` sends say exactly what the group says about keys the map lacked |
| VerdictCache.FreshRowsDistinct | src/cache/sqlite.rs:203-223 | No key is sent twice by one store, and none the map already had |
| VerdictCache.FirstWinsAppends | src/cache/sqlite.rs:325-343 | Two batches in a row are one longer batch |
| CacheAtomicity.CommitGroup | src/cache/sqlite.rs:309-346 | Committing one group, possibly with members already dropped, leaves every group on disk whole |
| CacheAtomicity.StoreKeepsInstance | src/cache/sqlite.rs:196-233 | Storing a group that is partly in memory only drops members the file has from a complete group |
| CacheAtomicity.KeepKeepsInstance | src/cache/sqlite.rs:385-408 | Remembering a verdict read from the file never leaves the map with part of a group the file lacks |
| CacheAtomicity.GroupsAreWhole | src/cache/sqlite.rs:196-346 | In every run from an empty file, with groups of equal or disjoint key sets, the file holds none of a group or all of it from one `put_many`, whatever the instances, failures and crashes |
| ExtractionGroups.KeyTellsTheUnit | src/physical/extract.rs:382-391 | With a digest that separates lists of texts, one extraction key belongs to one unit, text, type name and model |
| ExtractionGroups.PutsAreEqualOrDisjoint | src/physical/extract.rs:365-391 | Any two of the program's puts, whole units or single verdicts, share all their keys or none |
| ExtractionGroups.UnitsAreWholeOnDisk | src/physical/extract.rs:365-381 | In every run whose stores are the program's, the file holds none or all of the fields of a unit stored for a text |
| CacheAnswers.InstanceNeverChangesItsMind | src/cache/sqlite.rs:384-408 | Once an instance has a verdict for a key, every answer it ever gives for the key, before or after, is that verdict, whatever happens to the file |
| CacheAnswers.ReopeningChangesNoAnswer | src/cache/sqlite.rs:196-245 | With one instance at a time, no failed write or read, and no put the file disagrees with, dropping and reopening changes no answer and loses no verdict |
| CacheAnswers.AskingRunIsCareful | src/cache/sqlite.rs:198-203 | A put that follows a missed get is never one the file disagrees with |
| CacheAnswers.QuietGetReadsTheView | src/cache/sqlite.rs:385-408 | The three sections of `get` in a row answer from the map over the file, and a miss is recorded as one |
| CacheAnswers.CarefulStep | src/cache/sqlite.rs:196-245 | Each such step keeps all earlier answers true, and only a store adds any |
| CacheAnswers.PutWithoutGetCanChangeAfterReopening | src/cache/sqlite.rs:198-203 | A put that skips the get can answer one way until the cache is reopened and another way after |
| CacheReopening.PutSurvivesReopeningIff | src/cache/sqlite.rs:196-245 | Everything the cache would answer after a put it answers for ever, reopenings included, exactly when the file says nothing else about the rows the put is going to send |
| CacheWriter.WriterKeepsOrder | src/cache/sqlite.rs:251-277 | In every reachable state what was sent is, in order, in the log of transactions and replies, the batch, the pending flush or the channel: nothing is split, lost, repeated or reordered |
| CacheWriter.FlushCoversWhatWasSentBefore | src/cache/sqlite.rs:256-275 | The writer's half: when a flush is answered, exactly the messages sent before it have been handed to a transaction or answered |
| CacheTracking.TrackStep | src/cache/sqlite.rs:196-277 | Every step keeps a key sent at most once, and in the file, lost by a failed transaction, or still underway |
| CacheFlush.StoredIsOnFileIff | src/cache/sqlite.rs:196-277 | A stored verdict's key is in the file exactly when somebody else put it there, or it is neither underway nor was in a failed transaction |
| CacheFlush.FlushDelivers | src/cache/sqlite.rs:180-192 | After an answered flush that holds of every verdict stored before it, and what is still underway had not been sent when the flush was asked for |
| CacheFlush.SentBeforeFlushIsOnFile | src/cache/sqlite.rs:180-192 | If none of the instance's transactions failed, everything sent before an answered flush is in the file |
| CacheFlush.FlushPromiseIff | src/cache/sqlite.rs:180-192 | With no transaction failing from now on, every stored verdict is in the file after the flush, in every continuation, exactly when none the file lacks is waiting to be sent or already lost |
| CacheFlush.FlushMissesWhatIsNotSent | src/cache/sqlite.rs:180-232 | A run in which a flush is answered and a verdict stored before it is not in the file, because it was not sent |
| CacheFlush.FlushIsAnsweredAfterAFailure | src/cache/sqlite.rs:272-303 | A run in which it is not there because its transaction failed |
| CacheWriter.ExitLeavesNoBacklog | src/cache/sqlite.rs:235-245 | When the writer of a dropped cache returns, everything sent is in its log |
| CacheWriter.Collect | src/cache/sqlite.rs:252-270 | One round takes a consecutive run of messages and stops at a flush or with the first group that reaches the cap |
| CacheWriter.WriteLoop | src/cache/sqlite.rs:251-277 | Until the channel closes, the log accounts for exactly what was sent, in order, in non-empty transactions cut at the cap |
| SqliteCache.Connection.WriteBatch | src/cache/sqlite.rs:309-346 | A transaction writes all rows first-wins or nothing, and reports exactly the rows whose key holds another verdict |
| SqliteCache.Connection.Committed | src/cache/sqlite.rs:361-381 | A point lookup returns the file's verdict, and a failed read is a miss |
| SqliteCache.BatchingDoesNotMatter | src/cache/sqlite.rs:248-277 | However rows were batched, the file ends as if they were offered one by one |
| SqliteCache.SqliteCache.Store | src/cache/sqlite.rs:196-233 | The map becomes first-wins over the entries and exactly the new rows are sent |
| SqliteCache.SqliteCache.Remember | src/cache/sqlite.rs:397-407 | A put that got in first keeps its verdict, and that is what is answered |
| SqliteCache.SqliteCache.Get | src/cache/sqlite.rs:385-408 | The map's verdict, else the file's, and what was told is remembered |
| SqliteCache.SqliteCache.Drop | src/cache/sqlite.rs:235-245 | The file ends as the transactions the database took make it, in the order sent; with none refused it holds every row sent, first evaluation winning |
| Wilson.BoundOfSample | src/optimizer/calibrate.rs:276-287 | The unclamped expression is the root of the score-test quadratic and already lies in [0, 1] |
| Wilson.LowerBoundIsBelow | src/optimizer/calibrate.rs:276-287 | With alpha at most one half the bound is between 0 and the sample's own proportion |
| Wilson.LowerBoundMonotone | src/optimizer/calibrate.rs:276-287 | A smaller alpha never raises the bound, for any sample and any two alphas |
| Wilson.LowerBoundInvertsScoreTest | src/optimizer/calibrate.rs:276-287 | The bound reaches t exactly when the one-sided score test rejects t |
| Calibrate.RecallAt | src/optimizer/calibrate.rs:178-188 | Positives kept never exceed the total, and the total counts every known positive |
| Calibrate.LowerMeets | src/optimizer/calibrate.rs:178-192 | Lowering a floor that meets the target keeps it met, failed labels included |
| Calibrate.GreatestFloorIsUnique | src/optimizer/calibrate.rs:124-139 | There is only one floor the estimate may return |
| Calibrate.NothingExactlyWhenUnreachable | src/optimizer/calibrate.rs:124-139 | When unindexed positives fall short, the estimate is minus infinity exactly when no floor meets the target |
| Calibrate.MoreConfidencePrunesLess | src/optimizer/calibrate.rs:654-672 | Asking for more confidence never raises the certified floor |
| Calibrate.CertifiedIsBelowEstimate | src/optimizer/calibrate.rs:219-269 | The certified floor never exceeds the estimate, when unindexed positives fall short and the corrected alpha is at most one half |
| Calibrate.CertifiedFloorMeetsTarget | src/optimizer/calibrate.rs:141-172 | A finite certified floor is reported with an uncorrected bound that clears the target too |
| Calibrate.PassthroughCanPutCertifiedAbove | src/optimizer/calibrate.rs:570-575 | Otherwise the certified floor can be above the estimate's default while keeping the same matches |
| CertifiedRecall.RecallFalls | src/optimizer/calibrate.rs:175-188 | Lowering a floor never lowers the recall reported for it |
| CertifiedRecall.CertifyingKeepsNoFewer | src/optimizer/calibrate.rs:566-606 | The certified calibration reports at least the estimate's recall, when unindexed positives fall short and the corrected alpha is at most one half |
| CertifiedRecall.CertifiedKeepsNoFewerIff | src/optimizer/calibrate.rs:566-606 | For any quantile and confidence the certified floor keeps no fewer matches exactly when no candidate above the estimate is certified and loses some |
| CertifiedRecall.CertifyingKeepsNoFewerIff | src/optimizer/calibrate.rs:566-606 | On a sample that holds for every quantile at once exactly when no candidate above the estimate meets the target and loses matches |
| CertifiedRecall.CertifyingCanKeepFewer | src/optimizer/calibrate.rs:219-222 | A sample whose unindexed positives suffice, for which the certified floor drops a match the estimate keeps |
| CertifiedSearch.SearchErrsRarely | src/optimizer/calibrate.rs:236-269 | If each candidate is certified wrongly no more often than its share of the allowed error, the floor the search picks, highest certified first, is a bad one no more often than the whole of it |
| CalibrationSearch.CandidateFloors | src/optimizer/calibrate.rs:196-205 | The scores of positives and failed labels, descending and without repeats |
| CalibrationSearch.NoneAbovePointEstimate | src/optimizer/calibrate.rs:208-233 | No real floor above the point estimate, and within the default when that applies, meets the target |
| CalibrationSearch.BetweenCandidates | src/optimizer/calibrate.rs:124-139 | Recall does not change between neighbouring candidates, so trying them tries every real floor |
| CalibrationSearch.EstimatedFloor | src/optimizer/calibrate.rs:124-139 | The estimate is the greatest of all real floors whose worst-case recall meets the target |
| CalibrationSearch.CertifiedFloor | src/optimizer/calibrate.rs:243-269 | The highest candidate whose Bonferroni-corrected bound clears the target, or none |
| CalibrationSearch.CalibrateThreshold | src/optimizer/calibrate.rs:101-172 | Which floor each reading must return, and that the recalls reported are the worst case's at that floor |
| LabelledRecall.ScoreLabels | src/physical/index_scan.rs:63-95 | Each label is counted once, by its score, as unindexed, as lost, as unverified, or not at all |
| LabelledRecall.WorstCaseIsWorst | src/physical/index_scan.rs:63-95 | However failed labels turn out, at least as many matches survive as counted kept and no more are lost than counted lost |
| LabelledRecall.RecallIsNoWorse | src/optimizer/calibrate.rs:175-192 | For every truth and every floor, the recall of the scan's keep rule on the sample is at least the computed one |
| LabelledRecall.RecallIsTheWorst | src/physical/index_scan.rs:63-95 | And some truth gives exactly that recall, so the computed one is the least the scan can have; it needs every scored document to be indexed |
| SamplePriority.XorShiftIsInjective | src/physical/index_scan.rs:106-111 | Mixing a word with itself shifted right loses nothing, for any shift |
| SamplePriority.MulIsInjective | src/physical/index_scan.rs:106-111 | Neither does a wrapping multiplication by a number with an inverse modulo 2^64 |
| SamplePriority.PriorityIsInjective | src/physical/index_scan.rs:101-111 | No two document hashes share a place in the draw order |
| SampleDraw.SampleIsUnique | src/physical/index_scan.rs:636-643 | A set of documents has one sample of a given size, in one order |
| SampleDraw.SmallerDrawIsAPrefix | src/physical/index_scan.rs:636-643 | Drawing fewer documents draws a prefix of what drawing more draws, so a sample can be labelled in tranches |
| SampleDraw.FirstSeen | src/physical/index_scan.rs:649-665 | Every document hash with a non-NULL row is mapped to its first row, and no other |
| SampleDraw.SampleDocuments | src/physical/index_scan.rs:644-680 | What is drawn is the sample of the documents present, each with the text of its first row |
| SampleDraw.DrawDependsOnlyOnTheTexts | src/physical/index_scan.rs:101-105 | Tables with the same texts draw the same texts in the same order, whatever their row order, batching or repetition |
| IndexScan.HitsArePrefix | src/index/mod.rs:123-129 | Best first, the hits at a floor are a prefix of the hits without one |
| IndexScan.BucketChunks | src/physical/index_scan.rs:742-757 | Every document hit gets its best chunks in order, at most the given number |
| IndexScan.FirstTextsAreBest | src/physical/index_scan.rs:742-757 | Those chunks are the texts of the document's first hits, as many as allowed or all there are, and no earlier hit is passed over |
| IndexScan.PerDocBest | src/physical/index_scan.rs:495-499 | A document's score is its best chunk's |
| IndexScan.HitAtFloor | src/physical/index_scan.rs:425-436 | A document is hit at a floor exactly when its best chunk reaches it |
| IndexScan.CalibratedAgreesWithTrusted | src/physical/index_scan.rs:425-436 | On cosine scores the calibrated and the trusting prefilter let the same documents through, and the trusted evidence is a prefix of the calibrated |
| IndexScan.ScanBatch | src/physical/index_scan.rs:373-402 | Kept rows are those let through or never indexed, in order, NULLs dropped; the three counters are how many rows were let through, never indexed and pruned |
| IndexScan.PassesBySurviving | src/physical/index_scan.rs:383-400 | A row passes exactly when it has a text whose score reaches the floor or that was never indexed |
| IndexScan.SameRowsEitherWay | src/physical/index_scan.rs:372-402 | The calibrated scan at a threshold keeps exactly the rows the trusting scan with that floor keeps |
| CalibratedScan.CalibrateOverBestProxy | src/physical/index_scan.rs:590-634 | A proxy that scores exactly the documents of the search is calibrated on the half it was not fitted to, on its own scores; otherwise, and only then, cosine is calibrated on all labels |
| CalibratedScan.LearnFloor | src/physical/index_scan.rs:510-536 | The labels are the model's answers about one slice of the pool after another from its start; each attempt learns from all so far; learning ends with the first attempt that is good enough and otherwise with the pool, an estimate after one slice; the loop ends even for a slice size of zero |
| CalibratedScan.ReportedRecallIsReal | src/physical/index_scan.rs:63-95 | Whichever proxy is used, the reported recall is a lower bound of the scan's recall on the judged sample, for every truth |
| CalibratedScan.EstimatedScanMeetsTarget | src/optimizer/calibrate.rs:101-139 | An estimated floor that prunes anything meets the target on the judged sample, for every truth |
| CalibratedScan.CertifiedScanMeetsTarget | src/optimizer/calibrate.rs:141-172 | A certified floor that prunes anything meets the target on the judged sample too, for every truth |
| CalibratedScan.CertifiedRecallIsReal | src/optimizer/calibrate.rs:276-287 | The certified recall is a lower bound of the scan's recall on the judged sample, for every truth |
| CalibratedScan.CalibratedPrefilter | src/physical/index_scan.rs:481-578 | From a non-empty pool the last such attempt decides, and from an empty one the default floor; the documents let through are exactly those it scores at its floor or above, each with its best chunks whatever scored it |
| SelectExpr.ConjunctionAdmits | src/optimizer/classify.rs:150-156 | A conjunction is definitely true exactly when all its parts are |
| SelectExpr.SameValue | src/optimizer/classify.rs:66-86 | An expression's value depends on classify columns only through what they hold, and a query's own expression not at all |
| ClassifyRewrite.RegisterExtends | src/optimizer/classify.rs:174-202 | Registering only grows the builder and never makes two nodes with one text and guard or asks a condition twice |
| ClassifyRewrite.ColumnAnswersMarker | src/optimizer/classify.rs:177-202 | A column handed out early answers its marker in every later builder |
| ClassifyRewrite.GatedRowsAreClaimed | src/optimizer/classify.rs:132-157 | The guard turns away exactly the rows that an earlier plain branch has claimed |
| ClassifyGuards.ClaimedRowsAreNotAsked | src/optimizer/classify.rs:96-157 | A row that a plain branch before the first asking one is true of is turned away by every node that a branch's condition reads, however deep its markers stand |
| ClassifyGuards.MarkersAreTurnedAway | src/optimizer/classify.rs:65-130 | A row that a guard turns away is turned away by every node of the markers rewritten under it |
| ClassifyRewrite.RewriteKeepsValue | src/optimizer/classify.rs:66-86 | Under a guard that admits the row, rewriting keeps an expression's value |
| ClassifyRewrite.BranchesKeepValues | src/optimizer/classify.rs:96-130 | A CASE picks the same branch, even when its guard gates the row |
| ClassifyRewrite.RewriteOutcome | src/optimizer/classify.rs:66-86 | A rewrite is rejected exactly when a marker carries WITH RECALL; otherwise no marker is left and expressions without markers are untouched |
| ClassifyRewrite.ProjectionKeepsItsMeaning | src/optimizer/classify.rs:32-62 | Any SELECT list means the same on every row after the rewrite, and asks nothing twice |
| ClassifyBuilder.GuardOfCase | src/optimizer/classify.rs:138-157 | The leading plain conditions, collected up to the first that asks the model, behind the outer guard |
| ClassifyBuilder.Builder.Register | src/optimizer/classify.rs:177-202 | The first group and branch that match are reused, else pushed, and their column returned |
| ClassifyBuilder.Builder.RewriteExpr | src/optimizer/classify.rs:66-86 | The traversal over the shared builder returns and leaves what the threaded rewrite does |
| ClassifyBuilder.Builder.RewriteCase | src/optimizer/classify.rs:96-130 | Base, branches and ELSE in order, with the branch guard only on WHENs that ask the model |
| ClassifyBuilder.RewriteSelectList | src/optimizer/classify.rs:32-62 | A list without markers is returned untouched; any other is rewritten over one builder |
| ClassifyStack.StackedColumns | src/optimizer/classify.rs:204-220 | Stacking one node per group gives every column the value it would have over the table's own row |
| ClassifyStack.StackedPlanKeepsItsMeaning | src/optimizer/classify.rs:32-62 | The rewritten list over the stacked nodes means what the query wrote, on every row |
| ClassifyBatch.PendingRowsAreRight | src/physical/classify.rs:288-331 | Each row asked about is asked once, for exactly the conditions the cache lacks |
| ClassifyBatch.NoRowIsForgotten | src/physical/classify.rs:288-331 | Every admitted row with a text and a missing verdict is asked about |
| ClassifyBatch.FilledSlots | src/physical/classify.rs:383-415 | Each missing slot takes its own answer and no other; known slots stay |
| ClassifyBatch.Prepare | src/physical/classify.rs:284-332 | Gated rows and NULL texts are false at no cost, cached verdicts are used, one request is built for each row left |
| ClassifyBatch.ClassifyRows | src/physical/classify.rs:270-353 | The verdict table and the cache after a batch, outcome by outcome, failed calls changing nothing |
| ClassifyBatch.CacheStaysTruthful | src/physical/classify.rs:402-415 | Only verdicts the model gave are cached, so a truthful cache stays truthful |
| ClassifyBatch.BatchIsRight | src/physical/classify.rs:288-353 | Every slot is false for a gated or NULL row, else the cached verdict, else the answer of the row's own call |
| ClassifyBatch.NullSlotIff | src/physical/classify.rs:329-353 | A slot is NULL exactly when its row's call was asked for it and gave no answer |
| ClassifyBatch.AnsweredSlotIsTrue | src/physical/classify.rs:288-305 | With a truthful cache and model, whatever an asked slot holds is the truth |
| ClassifyCache.CachedIsUsed | src/physical/classify.rs:288-319 | A slot with an entry under the node's own prompt holds it, else one with an entry under the single-condition prompt holds that; a slot is asked for exactly when it has neither |
| ClassifyCache.AskedIsAnswered | src/physical/classify.rs:359-381 | The request that asks for a slot carries its row's text and its condition, and the slot takes the answer at that place in it |
| ClassifyCache.LearntExactly | src/physical/classify.rs:402-445 | A batch adds exactly one entry per text, condition and prompt answered, fused unless its request asked one condition; entries that were there stay, and the first answer is the one kept |
| ClassifyCache.NextBatchReuses | src/physical/classify.rs:417-445 | Run on what a batch left, with any other model, a batch over the same conditions asks no question the first had a verdict for and answers it as the first verdict did |
| ClassifyCache.AnsweredOnceIsEnough | src/physical/classify.rs:417-445 | Nor does it ask again for any other slot that had a verdict |
| ClassifyCache.TruthInTruthOut | src/physical/classify.rs:270-353 | On a truthful cache, if the model says nothing untrue about the requests it is given, every verdict is true of its own row and condition |
| ClassifyRun.RunStack | src/physical/classify.rs:270-353 | Each node in turn over the rows and the cache the ones below left |
| ClassifyRun.ExecutedSlotIsRight | src/physical/classify.rs:288-353 | What every slot of the executed stack holds, in terms of the table's own row |
| ClassifyRun.SomeOracleIff | src/physical/classify.rs:288-305 | The executed columns are those the rewrite relies on, for some oracle, exactly when nothing asked of one text under two guards was answered two ways |
| ClassifyRun.ExecutedPlanMeansTheQuery | src/optimizer/classify.rs:32-62 | On every such row the rewritten list over the executed columns means what the query wrote |
| ClassifyRun.TruthfulRunsDifferOnlyInFailures | src/physical/classify.rs:402-415 | With a truthful model and cache, two answers differ only by one of them having failed |
| MeansRewrite.GroupByText | src/optimizer/rewrite.rs:194-208 | Predicates are grouped by text in first-appearance order, duplicates kept |
| MeansRewrite.RewriteWhere | src/optimizer/rewrite.rs:81-149 | The loops build the plan the specification describes |
| MeansRewrite.FuseIsWhere | src/optimizer/rewrite.rs:228-263 | Labelling, demanding every label and dropping the labels is a filter on the group's predicates |
| MeansRewrite.StackIsWhere | src/optimizer/rewrite.rs:210-226 | So is one semantic filter per predicate |
| MeansRewrite.GroupingLosesNothing | src/optimizer/rewrite.rs:194-208 | A row satisfies all groups exactly when it satisfies all predicates |
| MeansRewrite.PlanKeepsTheRows | src/optimizer/rewrite.rs:81-149 | The plan keeps exactly the WHERE's rows, in order, whatever order the predicates were written in |
| MeansRewrite.WhereOutcome | src/optimizer/rewrite.rs:96-117 | A WHERE is untouched exactly when it has no markers and rejected exactly when one is not a whole conjunct |
| MeansLayout.EveryTextIsServed | src/optimizer/rewrite.rs:119-226 | In the plan, a text with two different conditions, no recall target and no index gets one question with each condition once, and no filter; any other gets a filter for each predicate as written, with its own recall target and no other, and no question |
| MeansLayout.StagesRunInOrder | src/optimizer/rewrite.rs:119-147 | Stages on indexed texts lie below those on unindexed ones, otherwise they stand in the order the texts were first written; the free predicates lie below all; there are no other nodes but those of a question |
| MeansLayout.FreeFilterIsFree | src/optimizer/rewrite.rs:131-138 | The bottom filter keeps exactly the rows on which every free predicate holds |
| MeansLayout.SplitUndoesJoin | src/optimizer/rewrite.rs:100-104 | Splitting a WHERE into conjuncts undoes joining them, in order |
| FusionCost.StackedByRow | src/optimizer/rewrite.rs:176-182 | A stack's calls on a batch are the sum of each row's own share |
| FusionCost.FusingIsNoDearer | src/optimizer/rewrite.rs:176-182 | From a cold cache, on any batches, fusing costs no more calls than stacking when no text is turned away before a condition the model fails on |
| FusionCost.FusingIsNeverDearerIff | src/optimizer/rewrite.rs:176-182 | That condition is exact: without it some batches cost more fused |
| FusionCost.FusingTheseBatchesIsNeverDearerIff | src/optimizer/rewrite.rs:176-182 | A fusable group costs no more than its stack on given batches, whatever the model answers, exactly when no text is met again in a later batch |
| FusionRuns.CallsAreCounted | src/physical/classify.rs:321-331 | The requests a batch sends are as many as the fused calls the cost model counts for what is cached |
| FusionRuns.LearningIsCounted | src/physical/classify.rs:402-431 | What the next batch can find in the cache is what the cost model says was learnt |
| FusionRuns.FusedRunIsCounted | src/physical/classify.rs:270-353 | So batch after batch from a cold cache, the requests sent are the cost model's total |
| Jobs.RecoveryLeavesNothingLive | src/server/jobs/mod.rs:155-196 | After recovery no job is queued or running, and finished jobs are as they were |
| Jobs.RecoveryIsIdempotent | src/server/jobs/mod.rs:155-196 | Recovering what a recovery wrote changes nothing, at any later time |
| Jobs.JobRegistry.Recover | src/server/jobs/mod.rs:155-196 | The directory loop, in any order, loads every record and interrupts those in flight |
| Jobs.JobRegistry.Create | src/server/jobs/mod.rs:204-222 | A new queued record on disk and in memory, or an error and no job |
| Jobs.JobRegistry.SpawnAttached | src/server/jobs/mod.rs:231-237 | The handle is stored if the job exists |
| Jobs.JobRegistry.Start | src/server/jobs/mod.rs:241-253 | True, and running, exactly for a known job that has not ended |
| Jobs.JobRegistry.Update | src/server/jobs/mod.rs:262-269 | The record is mutated and written under one lock |
| Jobs.JobRegistry.Cancel | src/server/jobs/mod.rs:299-322 | Ok exactly for a known job that has not ended; it is then cancelled and its handle taken |
| JobProtocol.RunsAreSafe | src/server/jobs/runner.rs:27-62 | In every run: a running job's abort handle is stored, work begins at most once and never after a cancel returned Ok, no more jobs run than slots, result paths only on success |
| JobProtocol.StepTouchesOne | src/server/jobs/mod.rs:241-322 | A step changes nothing about any other job |
| JobProtocol.LogStaysWell | src/server/jobs/mod.rs:239-253 | A job can only begin if it has not begun and no cancel of it returned Ok |
| JobProtocol.HoldersFit | src/server/jobs/runner.rs:50-56 | Only acquiring takes a slot, and only while one is free |
| JobProtocol.TerminalStays | src/server/jobs/runner.rs:107-121 | Within a process a job that ended keeps its status and result; only progress may still change |
| JobProtocol.HandleStoredIff | src/server/jobs/mod.rs:231-322 | In every run a job's handle is stored exactly when neither a cancel of it nor a restart came after the last time one was stored |
| JobProtocol.HandleMeansTaskIff | src/server/jobs/mod.rs:111-115 | A stored handle means a living task exactly in the runs where the task lives or the handle was taken away |
| JobProtocol.FinishedJobKeepsItsHandle | src/server/jobs/runner.rs:79-121 | A run from an empty server in which the task has finished and its handle is still stored |
| JobProtocol.CancelledJobKeepsItsHandle | src/server/jobs/mod.rs:231-253 | A run in which a job is cancelled before its handle is stored, and keeps it when the task is refused and gone |
| JobProtocol.EndOnFileIff | src/server/jobs/mod.rs:241-331 | In every run a job's file tells of its end exactly when some write at or after that end succeeded, and then says what memory says |
| JobProtocol.TerminalSurvivesRestartIff | src/server/jobs/mod.rs:155-196 | In every run a terminal status survives the next restart exactly when some write of the record at or after the end succeeded, or it is interrupted anyway |
| JobProtocol.FilesMatchMemory | src/server/jobs/mod.rs:255-269 | If writes succeed, every job's file says what memory says after every step |
| JobProtocol.EndedForGood | src/server/jobs/mod.rs:155-196 | If writes succeed, a job that ended never changes status again, restarts included |
| JobProtocol.LostWriteInterrupts | src/server/jobs/mod.rs:325-331 | A run from an empty server in which a success whose write failed is interrupted by the next restart |
| JobStory.RecordsTellTheRun | src/server/jobs/runner.rs:79-159 | In every run a job's record, in memory and on file, is what the steps say: who submitted it when, when work began, the last progress line, and the first step that ended it |
| JobStory.RecordsProveTheirEnd | src/server/jobs/runner.rs:79-121 | A job succeeded exactly when its task ended it with a written result or a command, failed exactly when with a broken or buffered one; path and rows are the written result's, the tag the command's, the error the failure's, the time the step's; a file proves as much of the end it tells of |
| JobStory.OutcomeIsLast | src/server/jobs/runner.rs:74-83 | Once the task has written its outcome nothing in the record changes while the process lives, not even the progress line |
| SqlLexer.CutsAreTheCuts | src/server/router.rs:35-39 | The list of cuts is ascending and holds exactly the semicolons the lexer sees at top level |
| SqlLexer.RejoinedIsTheInput | src/server/router.rs:35-39 | The raw segments rejoined with semicolons are the input |
| SqlLexer.StatementsSplitToThemselves | src/server/router.rs:39-70 | Splitting any returned statement again yields just that statement |
| Splitter.SkipQuoted | src/server/router.rs:72-88 | The jump over a quoted run, doubled quotes included, skips no cut and lands where the lexer is ready |
| Splitter.SkipDollarQuoted | src/server/router.rs:90-105 | Likewise for dollar quotes and for a `$` that does not begin one |
| Splitter.SkipBlockComment | src/server/router.rs:107-127 | Likewise for nested block comments |
| Splitter.SkipLineComment | src/server/router.rs:57-61 | Likewise for line comments |
| Splitter.SplitStatements | src/server/router.rs:39-70 | The statements are exactly the non-empty trimmed segments between the lexer's cuts |
| SqlConstructs.CutAtSemicolons | src/server/router.rs:35-127 | A script put together from plain characters, quotes, line and nested block comments and dollar quotes, the last perhaps left open, is cut exactly at the semicolons that are plain characters |
| SqlConstructs.QuotedIsInert | src/server/router.rs:72-88 | From either quote to the next of its kind there is no cut, and what follows is cut as if it stood alone |
| SqlConstructs.DoubledQuoteIsInert | src/server/router.rs:72-88 | A doubled quote does not end the quotation |
| SqlConstructs.LineCommentIsInert | src/server/router.rs:57-61 | Nor is there a cut from `--` to the end of the line, and what follows the line is unaffected |
| SqlConstructs.BlockCommentIsInert | src/server/router.rs:107-127 | Nor from `/*` to the `*/` that matches it, comments within it included |
| SqlConstructs.DollarQuotedIsInert | src/server/router.rs:90-105 | Nor from `$tag$` to the next `$tag$`, whatever is between |
| SqlConstructs.PlainCharacterCuts | src/server/router.rs:44-65 | Any other character leaves what follows to be cut as if it stood alone, and is a cut exactly if it is a semicolon; so is a `$` that begins no quote |
| SqlConstructs.StatementsAroundCut | src/server/router.rs:45-52 | Around a cut each side is split by itself, and the statements are those of both |
| SqlConstructs.SemicolonSeparates | src/server/router.rs:35-70 | So a script with a plain semicolon has the statements of what is before it and of what is after it |
| SqlConstructs.WithoutSemicolonIsOne | src/server/router.rs:66-70 | And one without is a single statement, or none if it is blank |
| SqlConstructs.TrimKeepsTheMiddle | src/server/router.rs:46-49 | What is dropped around a statement is white space, all of it and nothing else |
| KMeans.NearestCentroid | src/index/kmeans.rs:175-186 | The closest centroid, the first of several equally close |
| KMeans.DistanceAddsSquares | src/index/kmeans.rs:188-192 | The distance of empty vectors is nothing, and one more coordinate adds the square of the difference |
| KMeans.LongerVectorIsCut | src/index/kmeans.rs:188-192 | Coordinates only the longer vector has count for nothing |
| KMeans.Recentre | src/index/kmeans.rs:143-173 | Each centroid is its members' mean; an empty cluster's stays |
| KMeans.ReassigningCostsNoMore | src/index/kmeans.rs:92-98 | Reassigning never raises the total squared distance |
| KMeans.RecentringCostsNoMore | src/index/kmeans.rs:143-173 | Neither does recentring |
| KMeans.RecentringIsBest | src/index/kmeans.rs:143-173 | For the assignments given no centroids cost less, only those that agree on every cluster with members cost as little, and an empty cluster's stays |
| KMeans.Lloyd | src/index/kmeans.rs:85-105 | From any seeding every half-iteration of the run is a reassignment to nearest centroids or a recentring and costs no more than any before it; assignments stay below k, and a run that settles leaves every point with its nearest centroid |
| GenerationUnits.ComputeUnits | src/types/mod.rs:130-156 | The loop computes one unit per leading field, in declaration order |
| GenerationUnits.UnitsPartition | src/types/mod.rs:126-130 | Every field is in exactly one unit, and units hold nothing else |
| GenerationUnits.UnitsAreGroups | src/types/mod.rs:126-156 | Two fields are in one unit exactly when they are the same or declared together |
| GenerationUnits.UnitsAreInOrder | src/types/mod.rs:126-156 | Units, and the fields in each, are in declaration order, a unit counting from its first field |
| GenerationUnits.Pruned | src/types/mod.rs:163-194 | Unknown fields are an error; otherwise what remains is exactly what is generated with a used field |
| GenerationUnits.PruningKeepsUnits | src/types/mod.rs:158-163 | The pruned type's units are exactly the full type's units that the used fields meet, same specs, same order |
| GenerationUnits.UnitDoesNotDependOnTheQuery | src/types/mod.rs:221-234 | A unit two queries reach is the same list of specs in both, so its cache key is too |
| Fallback.Route | src/model/fallback.rs:96-115 | Answers go to their slots, failures to the next model, and the last model's errors are final |
| Fallback.Complete | src/model/fallback.rs:68-124 | One result per request in order, each a model's own and final; each model is asked exactly what every earlier one failed on, until nothing is left or the chain ends |
| Fallback.NeverAskedAgain | src/model/fallback.rs:66-67 | A request one model answered is never sent to a later one |

## Left out

- Digests: row keys, document hashes and cache keys are taken to be injective where the code relies on it; BLAKE3 and FNV collisions are not modelled.
- Floating point: scores, distances and ratios are reals. NaN, infinities and rounding in `f32` and `f64` arithmetic, and the coefficients of `normal_quantile`, are not modelled; the Wilson radicand is written with (z/n)^2, which is the same real number.
- The in-memory cache: `InMemoryCache::put` overwrites, and is not part of this model.
- SQLite itself: a transaction is one atomic step that may fail; busy retries, schema setup and version checks are not modelled.
- Provider calls, embeddings and the learned proxy's fit: arbitrary functions, with the proxy's scores arbitrary reals for the documents searched.
- SampleDraw.DrawDependsOnlyOnTheTexts: assumes the digest separates the texts present, because two texts with one hash are one document to the code.
- CalibratedScan.LearnFloor: labels come from a function of the tranche, so what labelling does to the verdict cache, and the order cached and fresh labels come back in, are inside that function. The pool is a parameter; `SampleDraw` says how it is drawn.
- IndexScan.CalibratedAgreesWithTrusted: the index returns one fixed best-first order, so two searches order equal scores alike.
- MeansRewrite.PlanKeepsTheRows: every semantic filter is exact; what an index prunes by its floor is what the calibration modules are about.
- ClassifyCache.NextBatchReuses: the cache keeps every entry; one shared with other writers, or that fails to read, is what the cache modules are about.
- ClassifyRun.ExecutedPlanMeansTheQuery: answers are compared row by row, so one text on two rows may be answered two ways; a query whose row fails under one guard and is answered under another has no single oracle it could mean, and `ClassifyRun.SomeOracleIff` says that is the only such case. Texts that ask the model themselves are excluded, as a later pass rejects them.
- CertifiedRecall.CertifyingKeepsNoFewerIff: quantifies over every monotone quantile with median zero, the constant one included; for one quantile its condition is only sufficient, and `CertifiedRecall.CertifiedKeepsNoFewerIff` has the exact one.
- CertifiedSearch.SearchErrsRarely: over samples with the same candidates, as when only labels that leave the best positive score alone vary; how often a single candidate is certified wrongly is a hypothesis, since the Wilson bound holds only approximately.
- ExtractionGroups.UnitsAreWholeOnDisk: the digest separates any two lists of texts; single verdicts are told from extracted ones by the prompt version they carry, whatever else is in their keys.
- ClassifyRewrite.ProjectionKeepsItsMeaning: expressions are deterministic and total, so a guard evaluated early cannot fail where lazy evaluation would have skipped it; a marker nested in another marker's text is given its meaning here, while the code rejects it in a later pass.
- FusionCost.FusingIsNeverDearerIff: the model gives one text and condition one verdict however it is asked; NULL texts cost neither side anything and are left out. `FusionRuns` counts the fused side on the executor; the stacked side's executor, a verifying filter, is not modelled.
- Jobs.JobRegistry.Create: the job id is a parameter; that the clock and counter make it unused is assumed in `JobProtocol`, as is one process per directory.
- Jobs.JobRegistry.Recover: unreadable record files, which the code skips, are not in the modelled directory.
- JobProtocol.RunsAreSafe: work begins at the critical section that marks the job running; panics in a task are not modelled.
- KMeans.Lloyd: seeds are a parameter, so the k-means++ seeding and its generator are not modelled, and points all have one dimension.
- The silhouette sweep over k, representatives and cluster naming.
- Splitter.SplitStatements: works on characters; every byte the code compares is ASCII, so byte offsets differ and cuts do not. Which non-ASCII characters are alphanumeric is a parameter. Nesting deeper than a 32-bit counter is not bounded.
- GenerationUnits.Pruned: field types are their rendered text, and prompts and JSON schemas are not modelled.
- SqlConstructs.CutAtSemicolons: a block comment left open is one whose inner comments are all closed.
- Fallback.Complete: the all-or-nothing `embed` chain and the composite id.
- Routing by parse tree, dialects, pgwire, Arrow encoding, Lance storage, telemetry, progress rendering, statistics and EXPLAIN output.
- `apply_recall`, the validation of `means()` arguments, and the preservation of column names.
