# Verified models of the research, refresh and lifecycle scripts

Dafny models of the scripts that carry real state or arithmetic, with proofs of what
they are there to guarantee. Each file is one module; `dafny verify dfyconfig.toml`
checks them all.

| file | what it models |
|---|---|
| Util.dfy, Numbers.dfy | ascending enumeration of a finite set; sums, extrema, decimal rounding over exact reals |
| StressMetrics.dfy | slippage stress, drawdown, project score and the gates of the strategy research run |
| Correlation.dfy, Diversity.dfy | daily-PnL correlation, entry similarity, and the qualification of units |
| CandlePages.dfy | backwards paging over the candle endpoint and the incremental refresh |
| Aggregation.dfy | the derivation of 15-minute candles |
| Promotion.dfy | promotion of a file set with rollback |
| LaunchLifecycle.dfy | the Phase 9 launch lifecycle: state file, lease, launchd job, supervisor, receipts |
| ReaderRotation.dfy | rotation of the API reader credential in database and Keychain |
| SoakWindow.dfy | the 24-hour openings window of the continuous Demo soak |
| JsonPointer.dfy, StructuredScan.dfy | JSON Pointer text (RFC 6901) and the structured-configuration scan |
| CredentialBackoff.dfy | the local supervisor's restarts and retry cool-down |
| ResearchWorker.dfy | the bounded research worker |
| AcceptanceServer.dfy | the acceptance server's signal handling and clean-up |

## How to read the models

Objects and files that the scripts update in place are classes whose methods state the
new state; loops stay loops. Where a property speaks of every run, the class keeps a
ghost trace or log of everything that happened and its `Valid` invariant states the
property of that log, so each method proves it for one more step. Steps of another
process (supervisor, child, signals, operator commands) are methods that make any number
of nondeterministic moves and are called between the steps of a command.

Conventions:

- Floats are exact reals; `round` is decimal rounding with ties to even. A norm is a
  square root, so correlations are compared in squares; `Correlation.PearsonFormula` ties
  the squares to the quotient the script computes, for whatever norms square to the sums.
- The limits of the research contract are a `Policy` value; the repository uses 30 trades,
  similarity 0.90, correlation 0.85, score 50 and drawdown 0.15. Only a minimum of one
  trade is needed.
- Days are numbered from 1970-01-01, candle times are milliseconds, the three research
  pairs are numbered 0 to 2 in the order the run inserts them. Class names are distinct.
- Digests (plan, request, receipt) are tags that identify what they are computed from; a
  SCRAM verifier accepts exactly the material it was derived from.
- Operator commands run one at a time. The clock of the soak commands and of the local
  supervisor never goes back. `bootout` ends the supervisor, with or without its `finally`
  block; a failed bootstrap starts nothing; at most one supervisor runs, under launchd.
- In the promotion, sources, targets and backup paths are pairwise different, as `main`
  builds them, and the operations of the rollback itself succeed.
- A database commit that raises has had no effect. The worker's timed statements charge
  time only to sleeps and bounded waits.

## Where the code differs from what one might expect

- An incremental refresh of a stored frame shorter than six hours can return candles
  older than the stored ones, because the requested start then lies before the frame.
  `CandlePages.ShortFrameGrowsBackwards` is an instance. Every successful refresh starts
  at the stored frame if and only if the frame holds more than 72 candles or the caller's
  start is later than one candle before its first date
  (`CandlePages.RefreshStartsAtInstalledExactlyWhen`).
- The lease check of `prepare` can never fire: whenever it is reached no lease exists
  (`LaunchLifecycle.Service.Prepare` ensures this).
- The pointer printer writes the whole document as "/", which RFC 6901 reserves for the
  member with the empty key; findings are never made for the whole document, so member
  pointers stay distinct.
- A credential restart aborted by a command time-out records nothing and is repeated by
  the next pass, however soon that is; only recorded failures are held back
  (`CredentialBackoff.Supervisor.SuperviseTwice` says exactly when a pass repeats one).
- If the terminal recorder raises after an unconfirmed termination, the worker terminates
  a second time at once, unless the child has ended by then, and in no other case; ending
  the child is then bounded by four grace periods instead of two
  (`ResearchWorker.Worker.Execute`).
- When the registry file exists before the call, the acceptance server starts no child, and
  its clean-up removes that file although another run wrote it, unless the clean-up fails
  before (`AcceptanceServer.Server.RunServer`).
- A rotation leaves the two stores apart exactly when its transaction is undone after the
  Keychain write was tried and either that write has lost the item, which `_replace_keychain`
  then refuses to restore, or the restoring write leaves something other than the old item
  (`ReaderRotation.Rotation.RotateFresh`). Later calls then refuse the old credential, so the
  stores stay apart (`ReaderRotation.RunKeepsAgreement`).

## Model

| member | source | states |
|---|---|---|
| StressMetrics.Stress | scripts/run_strategy_candidate_research.py:508-539 | Each figure, to half a unit of its eighth place: the profit of all trades less twice the slippage on their stakes, the same over 1000, the greatest fall of the running sum over 1000 plus its greatest value, and the winning trades over all trades |
| StressMetrics.FiguresMean | scripts/run_strategy_candidate_research.py:508-539 | The same of the metrics function that the later results speak about |
| StressMetrics.DrawdownIsLargestFall | scripts/run_strategy_candidate_research.py:520-526 | The drawdown is the greatest prefix sum i minus prefix sum j over i <= j, attained by some pair, and at least minus the total profit |
| StressMetrics.PeakIsLargestPrefix | scripts/run_strategy_candidate_research.py:522-525 | The peak is the greatest prefix sum, the empty prefix counting as 0 |
| StressMetrics.ReportedDrawdownIsALowerBound | scripts/run_strategy_candidate_research.py:520-532 | The percentage against the final peak never exceeds the largest percentage against the peak of its own moment |
| StressMetrics.MetricsIgnoreInputOrder | scripts/run_strategy_candidate_research.py:509 | Two lists with the same trades give the same metrics when trades closing at one time are identical |
| StressMetrics.SortOrders | scripts/run_strategy_candidate_research.py:509 | The stable sort puts trades in order of close time |
| StressMetrics.SortIsStable | scripts/run_strategy_candidate_research.py:509 | Trades closing at one time keep their order |
| StressMetrics.LowerProfitsDeepenDrawdown | scripts/run_strategy_candidate_research.py:520-527 | Lowering every profit lowers total and peak and never lowers the drawdown |
| StressMetrics.SlippageWorsensMetrics | scripts/run_strategy_candidate_research.py:508-539 | More slippage never raises profit or win rate and never lowers the drawdown percentage, for non-negative stakes, after rounding |
| StressMetrics.ScoreFollowsMetrics | scripts/run_strategy_candidate_research.py:692-712 | Metrics that are nowhere better never score higher, elimination included |
| StressMetrics.ScoreInRange | scripts/run_strategy_candidate_research.py:692-703 | Scores lie between 0 and 100 and are 0 exactly below three trades or from a drawdown of 0.35 on |
| StressMetrics.MarginalScores | scripts/run_strategy_candidate_research.py:692-700 | What a change of profit, drawdown, win rate or one more trade does to the unrounded total, inside the range that is not clamped |
| StressMetrics.ScoreAnchors | scripts/run_strategy_candidate_research.py:692-706 | The best metrics score exactly 100; the worst that are not eliminated keep the 25 of a full trade count |
| StressMetrics.SlippageNeverRescuesATarget | scripts/run_strategy_candidate_research.py:909-926 | A target failing the validation or score gate still fails under more slippage |
| Numbers.Round8Monotone | scripts/run_strategy_candidate_research.py:533-536 | Rounding to eight places, ties to even, is monotone |
| Numbers.Round6Monotone | scripts/run_strategy_candidate_research.py:704-710 | Rounding to six places, ties to even, is monotone |
| Correlation.CauchySchwarz | scripts/run_strategy_candidate_research.py:565-576 | The squared dot product of two series is at most the product of their squared norms |
| Correlation.DotIsSum | scripts/run_strategy_candidate_research.py:576 | The dot product is the sum of the products, day by day |
| Correlation.DeviationsAreCentred | scripts/run_strategy_candidate_research.py:568-571 | Deviations from the mean add up to nothing |
| Correlation.SpreadZeroExactly | scripts/run_strategy_candidate_research.py:572-575 | A norm is zero exactly when the series never moves |
| Correlation.PearsonDefinedExactly | scripts/run_strategy_candidate_research.py:565-576 | A correlation is defined exactly for equally long series of thirty days that both move |
| Correlation.PearsonIgnoresLevel | scripts/run_strategy_candidate_research.py:565-576 | Adding a constant to every day does not change the correlation |
| Correlation.PearsonOfCopy | scripts/run_strategy_candidate_research.py:565-576 | A moving series is perfectly correlated with its copy at any level |
| Correlation.PearsonSymmetricAndBounded | scripts/run_strategy_candidate_research.py:565-576 | Correlation is symmetric and its square lies in [0, 1] for all series of equal length |
| Correlation.PearsonFormula | scripts/run_strategy_candidate_research.py:572-576 | For any norms squaring to the spreads, the returned quotient squares to PearsonSquared, lies in [-1, 1], and meets a limit exactly when the square meets the squared limit |
| Correlation.QuotientLimited | scripts/run_strategy_candidate_research.py:572-576 | A squared correlation within the squared limit bounds the computed quotient, for all norms |
| Diversity.CollectInput | scripts/run_strategy_candidate_research.py:542-562 | Entries are exactly the open times; every out-of-sample day holds the stressed ratios of the trades closing on it, and all days together those of exactly the trades closing inside the interval |
| Diversity.DailyPnlConserved | scripts/run_strategy_candidate_research.py:552-561 | Over any interval of days the day totals add up to the stressed ratios of exactly the trades closing inside it |
| Diversity.CollectedPnlConserved | scripts/run_strategy_candidate_research.py:542-562 | The values of the returned dictionary, in day order, sum to the stressed ratios of exactly the trades closing on out-of-sample days |
| Diversity.CompareSignals | scripts/run_strategy_candidate_research.py:606-623 | The values compared are exactly the parts v with v times all entries equal to the shared entries, over the other class names with a non-empty union and enough entries on both sides |
| Diversity.Correlate | scripts/run_strategy_candidate_research.py:628-631 | Two units are correlated over the days they share, in day order |
| Diversity.CompareDailyPnl | scripts/run_strategy_candidate_research.py:624-635 | The correlations kept are the defined ones with every other unit of the run |
| Diversity.CollectCrossUnits | scripts/run_strategy_candidate_research.py:593-601 | The cross-unit inputs are all units of all candidates |
| Diversity.CompareCandidate | scripts/run_strategy_candidate_research.py:603-684 | A candidate's evidence is the maxima of its two comparison lists, or the blocked status when a list is empty |
| Diversity.EvidenceForTarget | scripts/run_strategy_candidate_research.py:579-685 | Evidence of every candidate of a target, each under its own class name |
| Diversity.SignalsNeedEntries | scripts/run_strategy_candidate_research.py:617-623 | A passed similarity status forces enough entries of the candidate itself |
| Diversity.DefinedCorrelation | scripts/run_strategy_candidate_research.py:565-576 | A defined correlation forces the full calendar on both sides and a nonzero norm |
| Diversity.PassedForces | scripts/run_strategy_candidate_research.py:652-683 | Qualification forces enough entries, the full calendar, at least thirty days and a nonzero norm |
| Diversity.QualifiedUnitsAreDiverse | scripts/run_strategy_candidate_research.py:958-1012 | Any two qualified units have a defined correlation within the limit; two of one target share at most the limit times all their entries, and with a limit below 1 never have the same entries |
| Diversity.QualifiedQuotientsWithinLimit | scripts/run_strategy_candidate_research.py:958-1012 | The quotient computed for any two qualified units is defined and its absolute value within the limit |
| Diversity.Qualify | scripts/run_strategy_candidate_research.py:909-1012 | The run fails exactly when a primary window has no metrics; otherwise the listed units are those that pass every gate, none listed twice |
| Diversity.QualifyCandidate | scripts/run_strategy_candidate_research.py:972-1012 | The qualified targets of one candidate, in order |
| Diversity.QualifiedOfExactly | scripts/run_strategy_candidate_research.py:997-1012 | A unit of a candidate is listed exactly when it is deployable and its evidence passes |
| Diversity.QualifiesExactlyWhen | scripts/run_strategy_candidate_research.py:909-1012 | A unit qualifies exactly when it loads, has a blueprint, passes look-ahead, meets every limit in every validation window and the score, has been compared both ways, and no comparison with any other unit exceeds its limit |
| Diversity.QualifiedListDistinct | scripts/run_strategy_candidate_research.py:969-1012 | No unit is listed twice |
| Diversity.ReportedUnitsAreDiverse | scripts/run_strategy_candidate_research.py:969-1012 | Any two different labels of the qualified list belong to units that are pairwise diverse in that sense |
| CandlePages.ReadPage | scripts/download_okx_research_market_data.py:71-81 | One pass over a page absorbs its closed rows from the start on and finds the oldest time, or refuses a malformed row |
| CandlePages.DownloadPair | scripts/download_okx_research_market_data.py:62-117 | Paging ends for every server, and its pages account for every way out: an accepted frame is gap-free and holds the last closed row of each time from the start on; against a server of the newest hundred older candles the result is exactly the closed rows from the start, or the matching error |
| CandlePages.AbsorbGathers | scripts/download_okx_research_market_data.py:71-81 | The row dictionary holds, for each time from the start on, the last closed row seen so far |
| CandlePages.PageExtendsHistory | scripts/download_okx_research_market_data.py:71-87 | After a page the dictionary holds exactly the closed history down to its oldest candle, and the cursor moved back |
| CandlePages.EmptyPageEndsHistory | scripts/download_okx_research_market_data.py:66-68 | An empty page means the closed history from the start has been collected |
| CandlePages.MergeFrames | scripts/download_okx_research_market_data.py:140-145 | The merge keeps the last row of each date and sorts by date |
| CandlePages.RefreshPair | scripts/download_okx_research_market_data.py:120-155 | For every server, the frame downloaded in this call is refused exactly when it ends before the installed one, and otherwise merged with its bars winning on shared dates; against a fixed history the refresh succeeds exactly when refreshable and returns the closed history from the earlier of the first installed date and the requested start |
| CandlePages.JoinFrames | scripts/download_okx_research_market_data.py:136-146 | An older download is refused exactly when its last date is earlier, a merge exactly when its dates have a gap; an accepted merge has all dates of both frames and the downloaded bar wherever both have one |
| CandlePages.RefreshOutcome | scripts/download_okx_research_market_data.py:120-155 | Against a fixed history every way out of a refresh succeeds exactly when the installed and closed candles join, with the complete closed history |
| CandlePages.MergeCompletesHistory | scripts/download_okx_research_market_data.py:135-145 | Installed rows and downloaded rows together are the closed history without a hole |
| CandlePages.RefreshStartsAtInstalledExactlyWhen | scripts/download_okx_research_market_data.py:130-145 | Over all histories a stored frame can come from, every successful refresh starts at the frame exactly when the requested start is later than one candle before it: the frame holds more than 72 candles or the caller's start is that late |
| CandlePages.StartsAtInstalledWithoutOlder | scripts/download_okx_research_market_data.py:134-145 | For one history, the refresh starts at the frame exactly when no closed candle lies between the requested start and the frame |
| CandlePages.ShortFrameGrowsBackwards | scripts/download_okx_research_market_data.py:130-145 | A concrete stored frame shorter than the overlap whose refresh starts before it |
| CandlePages.RefreshableExactlyWhen | scripts/download_okx_research_market_data.py:134-146 | With a gap-free closed history a refresh succeeds exactly when the start is within the stored frame, or at most at the next candle and that candle is closed |
| CandlePages.SpacedExactlyWhen | scripts/download_okx_research_market_data.py:158-165 | A frame is accepted as complete exactly when its dates have no gap |
| Aggregation.DerivationIsTriples | scripts/download_okx_research_market_data.py:168-179 | On a gap-free frame the resample and the count filter yield exactly the aggregates of the consecutive complete triples, or the error |
| Aggregation.BucketIsSlice | scripts/download_okx_research_market_data.py:169-175 | A bucket of a gap-free frame is a contiguous slice of at most three candles |
| Aggregation.DerivedGrid | scripts/download_okx_research_market_data.py:168-179 | k rows with n - 4 <= 3k <= n, failing exactly when k is 0; each row starts a quarter of an hour, opens and closes with the first and last of three consecutive candles, and has their greatest high, least low and summed volume |
| Aggregation.AggregateSummarises | scripts/download_okx_research_market_data.py:170-172 | First open, last close, greatest high, least low and summed volume of three candles |
| Aggregation.VolumeConserved | scripts/download_okx_research_market_data.py:170-172 | The volume of derived rows is the volume of the candles kept |
| Aggregation.DerivedRowsAreSane | scripts/download_okx_research_market_data.py:170-172 | Low <= open, close <= high is preserved |
| Aggregation.AppendingKeepsCompleteBuckets | scripts/download_okx_research_market_data.py:168-179 | Appending newer candles leaves every complete bucket as it was |
| Promotion.FileSystem.Replace | scripts/download_okx_research_market_data.py:207-212 | A move raises with no effect or moves the source over the target |
| Promotion.BackupInjective | scripts/download_okx_research_market_data.py:204 | Different targets have different backup paths |
| Promotion.EntryStep | scripts/download_okx_research_market_data.py:202-213 | A step on the paths of one entry changes the standing of that entry only |
| Promotion.StatesAreRecoverable | scripts/download_okx_research_market_data.py:199-219 | In every state before the clean-up each original is at its target or at its backup |
| Promotion.PromoteEntry | scripts/download_okx_research_market_data.py:202-213 | One forward pass succeeds exactly when no step of the entry raises, and leaves the entry promoted, set aside or untouched |
| Promotion.RemovePromoted | scripts/download_okx_research_market_data.py:215-217 | The first half of the rollback removes every promoted target |
| Promotion.RestoreBackups | scripts/download_okx_research_market_data.py:218-220 | The second half moves every backup back |
| Promotion.NothingHeld | scripts/download_okx_research_market_data.py:214-220 | After the rollback every target and backup path is as it was before |
| Promotion.DropBackups | scripts/download_okx_research_market_data.py:222-223 | The final loop removes the backups of this run, and raises exactly when removing the backup of some target that existed raises; all targets stay promoted then |
| Promotion.PromoteCompleteRefresh | scripts/download_okx_research_market_data.py:196-223 | All or nothing: rollback happens exactly when some step raises and restores every target; otherwise every staged content is installed, and no backup is left exactly when no backup removal raises; every state in between is recoverable until all targets are promoted |
| LaunchLifecycle.ClaimKeepsInv | backend/app/canonical_v13/phase9_runtime_supervisor.py:667-743 | Claiming, also over an expired dead lease, keeps the lease bound to the active plan and makes it the running supervisor's own |
| LaunchLifecycle.BeatKeepsInv | backend/app/canonical_v13/phase9_runtime_supervisor.py:746-829 | Renewing or losing the lease keeps the invariant |
| LaunchLifecycle.ExitKeepsInv | scripts/canonical_v13_phase9_service.py:2620-2641 | The finally block releases the own lease, which is still the stored one, and keeps the invariant |
| LaunchLifecycle.ClaimExactly | backend/app/canonical_v13/phase9_runtime_supervisor.py:685-743 | A claim is refused, ending the process and changing nothing else, exactly while a stored lease has not expired or its process is alive; otherwise it stores a lease that expires after its time to live |
| LaunchLifecycle.BeatExactly | backend/app/canonical_v13/phase9_runtime_supervisor.py:746-810 | A heartbeat in time renews the lease; a late one releases it and ends the process |
| LaunchLifecycle.LeaseChangesOnly | scripts/canonical_v13_phase9_service.py:2546-2641 | The stored lease changes only by a claim that nothing blocks, or by its holder |
| LaunchLifecycle.HeldLeaseBlocks | backend/app/canonical_v13/phase9_runtime_supervisor.py:690-697 | Over every run, the lease of a holder that is gone stays and no other supervisor gets past its claim until the lease has expired and its process is found dead |
| LaunchLifecycle.PublishKeepsInv | scripts/canonical_v13_phase9_service.py:2595-2598 | Publishing RUNNING over the loaded snapshot cannot bring back another plan or status |
| LaunchLifecycle.MoveKeepsInv | scripts/canonical_v13_phase9_service.py:2499-2641 | Every supervisor, launcher or clock step keeps the invariant and leaves plans, job and plist alone |
| LaunchLifecycle.RunKeepsInv | scripts/canonical_v13_phase9_service.py:2499-2641 | The same for every run of such steps |
| LaunchLifecycle.InactiveIsQuiet | scripts/canonical_v13_phase9_service.py:863-1240 | While no plan is confirmed or running there is no job, no supervisor and no lease |
| LaunchLifecycle.PlanNumbered | scripts/canonical_v13_phase9_service.py:927-973 | Storing the next plan continues the numbering 1, 2, 3, ... |
| LaunchLifecycle.Service.Prepare | scripts/canonical_v13_phase9_service.py:863-985 | A fresh plan has the next generation and meets no lease, exactly when no plan is unfinished; repeats change nothing; active or different prepared plans block; the lease check never fires |
| LaunchLifecycle.Service.Confirm | scripts/canonical_v13_phase9_service.py:988-1056 | Success, exactly from the prepared plan of that digest with a working bootstrap, loads the job of exactly that plan; a failed bootstrap restores the prepared state with no process; repeats change nothing |
| LaunchLifecycle.Service.Activate | scripts/canonical_v13_phase9_service.py:1023-1048 | CONFIRMED is published before the job starts and taken back when it does not |
| LaunchLifecycle.Service.Bootout | scripts/canonical_v13_phase9_service.py:1041 | Ends the job and the supervisor, or does nothing |
| LaunchLifecycle.Service.Bootstrap | scripts/canonical_v13_phase9_service.py:1042-1048 | Loads the job of the current plist, or starts nothing |
| LaunchLifecycle.Service.Release | scripts/canonical_v13_phase9_service.py:341-346 | Only the expected lease is removed, and safely so when the running supervisor does not hold it |
| LaunchLifecycle.Service.ReleaseOrphan | scripts/canonical_v13_phase9_service.py:1177-1201 | A released lease had expired and was still the stored one, and never the one a running supervisor holds; otherwise only supervisor steps happened, and fencing needs a loaded job |
| LaunchLifecycle.Service.Stop | scripts/canonical_v13_phase9_service.py:1154-1240 | Success leaves the plan STOPPED with no job, supervisor or lease; a repeated stop changes nothing; failures keep the plan; once the job, container and database are given up only a held lease can block it |
| LaunchLifecycle.Service.Recover | scripts/canonical_v13_phase9_service.py:1330-1386 | Success leaves an active plan with exactly its own job loaded; an inactive plan is never started; an active one recovers unless the bootstrap fails or the supervisor replaces the orphaned lease first |
| ReaderRotation.Rotation.ReplaceKeychain | scripts/canonical_v13_api_service.py:214-237 | Writes the item, or raises leaving whatever was left |
| ReaderRotation.Rotation.RotateApiReader | scripts/canonical_v13_api_service.py:1056-1234 | Agreeing stores part exactly when the call reaches the rotation of a fresh key and its faults undo the transaction without restoring the item; a recorded key is replayed to the same actor at the same release and refused to any other; a rotation adds the row that names its caller, generation and both verifiers |
| ReaderRotation.Rotation.RotateFresh | scripts/canonical_v13_api_service.py:1135-1220 | A fresh key either commits both stores or leaves the database as it was; the stores part exactly under the faults that lose the item or leave another one behind |
| ReaderRotation.Rotation.Replay | scripts/canonical_v13_api_service.py:1100-1133 | A recorded key with the same request returns the stored generation and receipt, with another request it is refused |
| ReaderRotation.CommitKeepsLedger | scripts/canonical_v13_api_service.py:1139-1201 | A committed rotation adds the next generation, chained to the verifier before it |
| ReaderRotation.ReplayRows | scripts/canonical_v13_api_service.py:1086-1104 | A used key has exactly one sound row |
| ReaderRotation.ReplayMeans | scripts/canonical_v13_api_service.py:1062-1104 | The stored request matches exactly for the recorded actor and release |
| ReaderRotation.RunKeepsAgreement | scripts/canonical_v13_api_service.py:1056-1234 | Between the calls of any run event i has generation i, and the Keychain value matches the role exactly when no call so far has split the stores |
| ReaderRotation.RestoringRunsAgree | scripts/canonical_v13_api_service.py:1206-1209 | With restoring writes that work and a Keychain that never loses its item, the stores always agree |
| ReaderRotation.RunKeepsRows | scripts/canonical_v13_api_service.py:1183-1201 | Audit rows are never removed or changed |
| ReaderRotation.KeyRotatesOnce | scripts/canonical_v13_api_service.py:1086-1133 | Each idempotency key rotates at most once in a run |
| ReaderRotation.ReplayReturnsRecord | scripts/canonical_v13_api_service.py:1105-1133 | A later successful call with a rotated key returns that rotation's generation and receipt |
| SoakWindow.Soak.Prepare | scripts/canonical_v13_continuous_demo_soak.py:205-281 | A fresh prepared plan replaces exactly a missing, finished or failed one; an unfinished plan of the same release and deployment is kept |
| SoakWindow.Soak.Confirm | scripts/canonical_v13_continuous_demo_soak.py:284-329 | Opens the window for 24 hours exactly from a prepared plan of this release with a ready runtime and a working launch; a failed launch takes it back |
| SoakWindow.Soak.Tick | scripts/canonical_v13_continuous_demo_soak.py:332-365 | The operator is called with openings enabled exactly before the plan's end and never on a draining plan; a tick whose operator raises is a tick all the same; the exact conditions for success and for each operator error |
| SoakWindow.Soak.Stop | scripts/canonical_v13_continuous_demo_soak.py:443-448 | Ends the openings now, whatever the status and however often it is repeated |
| SoakWindow.Soak.Finalize | scripts/canonical_v13_continuous_demo_soak.py:451-473 | Retires the plan exactly when the state is STOPPED and the job is gone |
| SoakWindow.Soak.Run | scripts/canonical_v13_continuous_demo_soak.py:368-422 | The worker goes on exactly while its ticks are in order; it exits with 0 only drained, in STOPPED, and otherwise with 1 in BLOCKED, with other commands between its ticks |
| SoakWindow.EnabledTickJustified | scripts/canonical_v13_continuous_demo_soak.py:338-341 | An enabled tick lies within 24 hours after the opening confirm with nothing closing in between |
| SoakWindow.ClosedUntilReopened | scripts/canonical_v13_continuous_demo_soak.py:332-365 | After a stop or an openings-disabled tick an enabled tick needs a later opening confirm, within 24 hours |
| JsonPointer.EscapeRoundTrip | scripts/audit_v13_business_constants.py:632-633 | Decoding undoes token escaping for every text |
| JsonPointer.EscapeByCharacter | scripts/audit_v13_business_constants.py:632 | Character by character a tilde becomes ~0, a slash ~1, and anything else stays |
| JsonPointer.PointerRoundTrip | scripts/audit_v13_business_constants.py:629-633 | Decoding a printed pointer gives back the texts of its parts |
| JsonPointer.PointerExtends | scripts/audit_v13_business_constants.py:629-633 | A further step appends a slash and its escaped text |
| JsonPointer.RootTextExactlyWhen | scripts/audit_v13_business_constants.py:630-631 | The text of the whole document is shared exactly by the member with the empty key at the top |
| JsonPointer.DecimalInjective | scripts/audit_v13_business_constants.py:632 | Different list indexes have different texts |
| JsonPointer.DecimalStandsForIndex | scripts/audit_v13_business_constants.py:632 | The text of an index has digits only, no leading zero, and stands for the index |
| StructuredScan.MemberPointersDiffer | scripts/audit_v13_business_constants.py:649-676 | Different members of one document have different pointers |
| StructuredScan.PathsExact | scripts/audit_v13_business_constants.py:649-674 | The visitor reaches a member exactly when it is reportable and has a category, at any depth |
| StructuredScan.PathsDistinct | scripts/audit_v13_business_constants.py:649-674 | The visitor reaches no member twice |
| StructuredScan.Scanner.Visit | scripts/audit_v13_business_constants.py:649-674 | The recursive visitor appends the findings of the reported paths, one for one |
| StructuredScan.StructuredFindings | scripts/audit_v13_business_constants.py:640-677 | The scan reports exactly one finding per reportable member and the set loses none |
| StructuredScan.FindingsExactly | scripts/audit_v13_business_constants.py:649-672 | A member's finding, with its pointer, line, category and value, is in the result exactly when its key with the scalar itself, or with the items of its all-scalar list, has that category |
| StructuredScan.FindingUnique | scripts/audit_v13_business_constants.py:649-672 | The finding of a member is determined by its path |
| CredentialBackoff.Supervisor.Record | scripts/local_supervisor.py:199-203 | A recorded failure or success keeps every earlier retry at least the cool-down apart |
| CredentialBackoff.Supervisor.ControlledRestart | scripts/local_supervisor.py:187-276 | Only down, up and verify all succeeding commits the generation; a failure is recorded with the cool-down; it raises exactly when a command it reaches times out, and then records nothing; no command follows a failed one |
| CredentialBackoff.Supervisor.VerifyOrRecover | scripts/local_supervisor.py:136-169 | A healthy runtime gets no command but verify; otherwise it is healthy afterwards exactly when down, up and verify all work |
| CredentialBackoff.Supervisor.SuperviseOnce | scripts/local_supervisor.py:279-309 | A call whose generation query times out does nothing else; otherwise it restarts exactly when the generation is new and not held back, adds that attempt with its times and verdict, and commits only after down, up and verify all succeeded; every other outcome leaves generation and back-off unchanged |
| CredentialBackoff.Supervisor.FreezeAndVerify | scripts/local_supervisor.py:283-289 | Without a generation a failed freeze ends the pass; otherwise a healthy runtime is left alone and any other recovers exactly when down, up and verify work |
| CredentialBackoff.Supervisor.ThawAndVerify | scripts/local_supervisor.py:308-309 | With the committed generation the same follows the thaw, whatever the thaw returns |
| CredentialBackoff.AttemptKeepsHeldBack | scripts/local_supervisor.py:291-304 | After a recorded failure the same generation is not attempted for 300 s unless another one was attempted in between |
| CredentialBackoff.Supervisor.SuperviseTwice | scripts/local_supervisor.py:279-335 | Of two passes with one new generation the second restarts again exactly when the first timed out, or failed at least 300 s before |
| ResearchWorker.Worker.TerminateProcessGroup | scripts/formal_strategy_research_worker.py:70-109 | Terminates, waits, kills and waits in that order, going on exactly while the child is not reaped and the group can be signalled; confirmed exactly when the child is reaped, within two grace periods |
| ResearchWorker.Worker.Supervise | scripts/formal_strategy_research_worker.py:298-410 | A deadline-driven termination starts before the deadline plus one heartbeat, and one for a signal within a heartbeat of it; without a raise the last state is truthful |
| ResearchWorker.Worker.EndResearch | scripts/formal_strategy_research_worker.py:312-375 | Ending the child leaves a truthful final state or raises because of the recorder |
| ResearchWorker.Worker.HandleError | scripts/formal_strategy_research_worker.py:413-446 | The error handler leaves a truthful final state; after an unconfirmed termination it terminates again unless the child has ended, and in no other case |
| ResearchWorker.Worker.Execute | scripts/formal_strategy_research_worker.py:184-450 | When it returns the last state is FINISHED, and says cleanup unconfirmed exactly when a started child was not reaped; a child that ended by itself decides reason and status, a forced end names the signal or a deadline that had passed; the first termination starts before the deadline plus one heartbeat and within a heartbeat of a signal, each takes at most two grace periods, and a second one follows an unconfirmed first one and a raising recorder, unless the child has ended, and nothing else |
| AcceptanceServer.Server.RequestStop | scripts/run_local_strategy_lab_acceptance_server.py:131-135 | The handler keeps the first signal and tells a visible running child |
| AcceptanceServer.Server.Interrupts | scripts/run_local_strategy_lab_acceptance_server.py:131-135 | Any number of signals between two steps keep every visible running child told |
| AcceptanceServer.Server.Wait | scripts/run_local_strategy_lab_acceptance_server.py:167 | While the child is waited for, a delivered signal has reached it; the wait ends with its exit status or raises |
| AcceptanceServer.Server.ServeChild | scripts/run_local_strategy_lab_acceptance_server.py:164-170 | A child started under a signal is told before it is waited for; only a raise while telling or waiting can leave it running, and the child is then known to the clean-up |
| AcceptanceServer.Server.Reap | scripts/run_local_strategy_lab_acceptance_server.py:171-177 | The child has ended, killed only after it was told to end, or ending it raised |
| AcceptanceServer.Server.CleanUp | scripts/run_local_strategy_lab_acceptance_server.py:169-185 | No child, no owned root and no registry are left unless reaping or removal raised |
| AcceptanceServer.Server.RunServer | scripts/run_local_strategy_lab_acceptance_server.py:117-191 | After a signal before the last check no child starts, and no signal is lost at any moment of the wait; a run that returns, or that raises while telling or waiting for its child, leaves no child, root or registry unless ending the child or the removal raises too; a return gives 128 plus the signal or the exit status of the child, and a run without faults and signals returns the latter; over a registry that exists already no child starts, and the file is removed unless the clean-up fails |

## Left out

- The `restart` command and the container, worker-heartbeat and authority details of the Phase 9 service: launchd, Podman and database calls appear only as steps that may be refused.
- Corrupt state, lease or receipt files, and state-file writes that raise: the readers and writers are assumed to work.
- Operators racing inside one read-then-write file operation: commands are serialised.
- Asynchronous `KeyboardInterrupt` between two statements of the promotion or of the rotation: exceptions come from the listed steps only.
- Floating-point rounding, NaN and pandas internals: frames are sequences of candles over exact reals.
- `_request_page` retries, response digests and sleeping: a request either yields a page or has failed.
- Trades without a close timestamp: the stress step already rejects them, so both steps see an integer.
- Lookahead analysis, market regimes, the choice of a deployment target and the report text: they add flags and strings, not gates of their own arithmetic.
- Similarity and correlation digests and comparison lists of the evidence: only statuses and maxima decide.
- Finding order and fingerprints, the line table of `_json_lines`, the Python and TypeScript scanners and YAML: the line table is a parameter.
- Starting the acceptance server before both handlers are installed, and the ownership checks of its clean-up: removal either succeeds or raises.
- Redaction, environment filtering, release checks and argument parsing: single-branch checks; they appear as steps that may refuse.
- LaunchLifecycle.Service: the lease file, state file and launchd job are fields of one world record rather than separate objects, so aliasing between ports is not modelled.
- SoakWindow.Soak.Run: the loop is bounded by a number of ticks after which the worker counts as killed, because the script's loop has no bound of its own.
