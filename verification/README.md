# Verified model of ReleaseProof

ReleaseProof decides whether a pull request may ship. It measures what a change touches, looks for evidence, scores risk,
runs generated tests in a sandbox, and lets a bounded investigation argue, while a deterministic policy decides. This
project models the parts of it whose correctness is a matter of algorithms and protocols, and proves what they promise.
Verify everything with `dafny verify dfyconfig.toml`.

## What is modelled

- **Change intelligence.** `ImportGraph` resolves imports to modules. `BlastRadius` is the breadth-first search over
  reverse imports: for every graph, cycles included, each recorded path is the lexicographically least of the shortest
  chains to its module; `truncated` is raised exactly under the stated condition; and its absence means that the whole
  reverse closure was found. `Diffs` normalizes a change list under one shared patch budget, independently of the order
  of the list. `History` shows that nothing from the prediction time on leaks into the statistics.
- **Object storage.** `ObjectStorage` is the atomic store, `FakeStore` the in-memory class that implements it, and
  `S3Protocol` the head / conditional put / head protocol of any number of clients, interleaved step by step with lost
  calls, lost acknowledgements and puts that arrive late. `If-None-Match: *` is the precondition of section 13.1.2 of
  RFC 9110. `S3Guarantees` draws the consequences: every run linearizes to the atomic store. `S3Progress` says what a
  call can be answered and why: errors of contact have their cause among the deliveries to that call.
- **Outbox.** `Outbox` is the state machine of job creation, concurrent relays working from stale lists, crashes between
  sending and committing, and duplicated deliveries. `OutboxService` is the class whose methods are proved to be its
  steps.
- **Investigation.** `AgentContracts` holds the tools and the critic, `AgentGuard` the budget guard as a class with
  mutable counters, `AgentGraph` the seven-node run, `AgentCrash` the runs that end in an error nobody catches.
  `RecommendationPolicy` is the policy the run may never soften.
- **Ranking and risk.** `RankingQuality` (nDCG, recall, reciprocal rank), `Fusion` (reciprocal-rank fusion),
  `RiskMetrics` (average precision and ROC AUC), `RiskScore` and `RiskThresholds` (the rule score, confusion counts and
  threshold choice) work over exact reals. The log discount of nDCG is any positive, strictly decreasing weight.
- **Bytes and text.** `Utf8` follows section 3 of RFC 3629, `Utf8Order` proves the ordering promise of its section 1.
  `TreeDigest` is the length-prefixed framing of the tree digests, `Crlf` the line-ending fold, `Chunking` and
  `MarkdownSections` the evidence chunker, `Patches` the round trip of an add-only patch, `Capture` and `Differential` the
  agreement of the in-container runner with the control plane.
- **Tokens and datasets.** `TokenCache` is the LRU token cache against a plain list, over whole runs. `Labels`, `Splits`
  and `Materialize` are proxy labels, temporal splits and leakage checks, and what a built dataset guarantees.

`Wrappers`, `Order`, `Lines` and `Segments` are shared vocabulary. Functions that are not ghost model the code; ghost ones
specify it and state their limits in numbers. Lemmas named `...Means` say of one function, in terms of its arguments only,
what it decides. A proof that starts with `hide` keeps out the definitions it does not need, and no proof relies on
automatic induction.

## Findings

These are places where the code does less, or something else, than one would expect; each has a member that pins it down.

- `_split_bounded` keeps the size that overflowed when it starts a new block, so after the first overflow every block is a
  single line until a line of more than 4000 characters resets the size (`Chunking.BlockAt`, part of what
  `Chunking.SplitBounded` ensures). Blocks are as long as they could be exactly for the texts of
  `Chunking.FullIffNothingWasted`; `Chunking.ShortLinesWasted` is the smallest other text.
- The two tree digests sort paths differently (by bytes, by path components). They agree on a tree exactly when no two
  paths of it agree up to a place where one has a slash and the other a character below the slash
  (`TreeDigest.OrdersAgree`); `a/b` beside `a-b/x` is such a pair (`TreeDigest.OrdersDiffer`).
- Replacing CRLF once does not remove every CRLF: one survives, and a second replacement changes the text, exactly where
  two carriage returns precede a line feed (`Crlf.PairLeft`, `Crlf.FoldTwice`, with `Crlf.PairSurvives` as the input).
- nDCG exceeds 1 for some judgments exactly when a ranking repeats an item above the cut-off
  (`RankingQuality.BoundedIffNoRepeats`; the smallest case is `RankingQuality.RepeatsExceedOne`).
- A generated test for a one-line path cannot be read back by the runner exactly when one of its lines starts with `++`
  (`Patches.RoundTrip`; `Patches.PlusesLost` is the smallest such test).
- An investigation that nothing stops ends in an uncaught error exactly when a reply cites more than 64 ids, the replies
  make more than 80 claims, or the tools return more than 64 references, all of which the request and the replies fix
  (`AgentGraph.RunInvestigation` with `AgentGraph.Oversized`, and `AgentGraph.Calm` for when nothing stops it). Twenty
  hypotheses from each of five nodes are enough (`AgentCrash.CrashingRun`); requests and replies as in
  `AgentCrash.ModestNeverOversized` never get there. A stop before the crash ends the run with a report.
- The second flush of `_split_bounded`, the input-token check after `reserve_llm`, the final error of `_bounded_utf8` and
  loop detection can never take effect; the proofs show it where they occur.

## Model

| member | source | states |
|---|---|---|
| BlastRadius.ComputeBlastRadius | packages/change_intel/graph.py:205-298 | Fails exactly for a depth outside 1..20. The changed modules are those whose entry is the last one listed under a changed path. The report lists one canonical evidence path per recorded module in name order, splits direct from transitive modules by distance, is complete below the cap, keeps the nearest modules at the cap (no import chain to a module left out is shorter than, or as short as and before, a recorded path), covers the whole reverse closure when not truncated, and raises `truncated` exactly by the cap or by a recorded module at the depth bound that has any dependent |
| BlastRadius.ChangedMeans | packages/change_intel/graph.py:213-222 | A module counts as changed exactly when some entry of the graph gives it a changed path and no later entry has that path |
| BlastRadius.VisitCanonical | packages/change_intel/graph.py:246-274 | The path of every visited module is a chain of imports from a changed module, no chain to it is shorter, and of the shortest ones it is the lexicographically least, whatever cycles the graph has |
| BlastRadius.CanonicalUnique | packages/change_intel/graph.py:246-274 | A module has at most one canonical path, so the search result does not depend on how the search is organized |
| BlastRadius.NearbyFound | packages/change_intel/graph.py:254-274 | A finished search has discovered every module that some chain within the depth bound leads to |
| BlastRadius.AllFound | packages/change_intel/graph.py:253-276 | When nothing was cut off, every chain of any length ends in a discovered module |
| BlastRadius.NearestFirst | packages/change_intel/graph.py:253-274 | Wherever the search stops, no import chain to a module it has not discovered is shorter than, or as short as and before, the chain of one it has |
| BlastRadius.RecordedComplete | packages/change_intel/graph.py:253-276 | A finished search records a module exactly when it is affected within the bound, and, with nothing cut off, exactly when it lies in the reverse closure |
| BlastRadius.CutOffMeaning | packages/change_intel/graph.py:256-260 | What the conservative flag says: some recorded module at the bound has a dependent, whether or not that one is recorded too |
| BlastRadius.Explore | packages/change_intel/graph.py:246-274 | The queue loop ends in a search state whose recorded paths, order and flag satisfy the invariant above |
| BlastRadius.ReverseEdges | packages/change_intel/graph.py:246-249 | The reverse map gives every module exactly its direct dependents |
| ImportGraph.InternalTarget | packages/change_intel/graph.py:59-68 | The result is the longest dotted prefix of the name that is a module, and nothing exactly when no prefix is one |
| ImportGraph.TargetUnique | packages/change_intel/graph.py:59-68 | A name resolves to one target only |
| ImportGraph.ImportTargets | packages/change_intel/graph.py:71-93 | Import names become exactly the modules they resolve to other than the importing one; names outside every module leave exactly their first part |
| History.ComputeHistoricalStatistics | packages/change_intel/history.py:25-117 | The two counting loops, over paths with folded backslashes and their module areas, give the statistics as sums over the whole history, and fail exactly for a bad window or too many records |
| History.OnlyWindowMatters | packages/change_intel/history.py:49-58 | Histories with the same changes inside the window, in any order and with any other entries, give the same statistics except for the count of excluded future changes |
| History.TouchesFilesMeans | packages/change_intel/history.py:70-72 | A change touches the files exactly when one of its paths, with forward slashes, is a target |
| History.TouchesModulesMeans | packages/change_intel/history.py:71-73 | It touches the modules exactly when the area of one of its paths is the area of a target |
| History.AreaMeans | packages/change_intel/history.py:25-32 | The area of a relative path is its directory without a leading src or lib, or the file itself where no directory is left |
| History.RootedAreaMeans | packages/change_intel/history.py:25-32 | The area of an absolute path keeps the root, joined like any other part |
| History.DoubleRootMeans | packages/change_intel/history.py:25-32 | Two leading slashes are a root of their own, three are the same as one |
| History.ChurnAdds | packages/change_intel/history.py:76-80 | Churn adds up over the files of a change, of which only targets count |
| History.ChurnOfOne | packages/change_intel/history.py:76-80 | A file counts its additions and deletions when it is a target, and nothing otherwise |
| History.MissingMeans | packages/change_intel/history.py:90-100 | Which gaps are reported, each once and in their order |
| Diffs.NormalizeDiff | packages/change_intel/diffs.py:137-194 | Succeeds exactly on acceptable lists (count, paths, statuses, counts, previous paths, no two entries for one file); then every entry keeps the longest whole-character prefix its share of the budget allows, folded, with exact truncation flags and totals |
| Diffs.WithinBudget | packages/change_intel/diffs.py:160-164 | Stored patch sizes sum to the reported total, at most 1 MiB, and none exceeds 64 KiB |
| Diffs.OrderIrrelevant | packages/change_intel/diffs.py:144-181 | Any two orders of the same acceptable files give the same result |
| Diffs.UnflaggedComplete | packages/change_intel/diffs.py:160-164 | Without the set-wide flag every stored patch is the whole patch with its line endings folded |
| Diffs.CleanPathSafe | packages/change_intel/diffs.py:65-72 | A normalized path is empty or has exactly the plain segments of the path given, in order: no empty, current or parent ones |
| Diffs.CleanPathMeans | packages/change_intel/diffs.py:65-72 | A path is refused exactly when it is slashes only, longer than 1024 bytes between the slashes around it, or has a parent segment; otherwise it becomes its plain segments |
| Segments.PiecesMean | packages/change_intel/diffs.py:69 | The segments of a path are exactly the stretches between its separators |
| Utf8.DecodeEncoded | packages/change_intel/diffs.py:75-85 | Decoding an encoded text gives the text back |
| Utf8.EncodeDecoded | packages/change_intel/diffs.py:75-85 | Bytes that decode are the encoding of what they decode to, so the strict decoder accepts no second form |
| Utf8.PrefixDecodes | packages/change_intel/diffs.py:79-84 | A byte prefix of an encoding decodes exactly when it ends between two characters, and then to a prefix of the text |
| Utf8.FitCountLongest | packages/change_intel/diffs.py:75-85 | A prefix of a text fits a byte limit exactly when it has no more characters than the one that is kept |
| Utf8.FitCountTight | packages/change_intel/diffs.py:75-85 | When something is cut, at most three bytes of the limit stay unused |
| Utf8.TruncateUtf8 | packages/change_intel/diffs.py:75-85 | Cutting bytes until the rest decodes keeps the longest prefix that fits, line endings folded; the flag tells exactly whether the text was too long |
| Utf8.BoundedUtf8 | packages/dataset_core/semantic.py:254-264 | The same cut at 4096 bytes without folding; something is always kept, so the error at the end is never raised |
| Crlf.PairLeft | packages/change_intel/diffs.py:78-82 | After one replacement a CRLF is left exactly where a carriage return stood before one |
| Crlf.PairSurvives | packages/change_intel/diffs.py:78-82 | The shortest input on which it happens: two carriage returns and a line feed |
| Crlf.FoldTwice | packages/change_intel/diffs.py:78-82 | A second replacement changes something exactly there |
| Utf8Order.SameOrder | packages/execution_contracts/contracts.py:545 | Sorting paths by their UTF-8 bytes is sorting them by characters |
| S3Protocol.RunKeeps | adapters/object_storage/s3.py:148-230 | Every interleaving of client steps, lost calls, lost acknowledgements and puts that arrive after their caller gave up keeps the invariant: the log of effects is legal for the atomic store and explains the bucket |
| S3Guarantees.EveryRunLinearizes | adapters/object_storage/s3.py:148-230 | In every run each call took effect once, as the atomic store would have answered it, between its start and its return; the only exceptions are a call that lost contact and a put that found nothing to compare with, which took effect at most as a successful put and whose causes the next rows name |
| S3Progress.UnavailableHasCause | adapters/object_storage/s3.py:165-230 | A call that returned "unavailable" had a delivery, while it ran, that was not answered |
| S3Progress.MissingPutHasCause | adapters/object_storage/s3.py:179-182 | A put that returned "not found" had been refused for a request still in flight |
| S3Progress.AnsweredPut | adapters/object_storage/s3.py:152-186 | A valid put whose deliveries were all answered returns its own metadata if the bucket holds its object, and a conflict with what the bucket holds otherwise; it never returns an error of contact |
| S3Progress.ThreeDeliveriesReturn | adapters/object_storage/s3.py:148-230 | A call that was made has returned after at most three deliveries, whatever they answered |
| S3Progress.CallsAreAsked | adapters/object_storage/s3.py:148-230 | Every call of a run is for the request it was made with, and is either running or returned |
| S3Progress.AnsweredFirst | adapters/object_storage/s3.py:148-230 | A call answered before another was made takes effect before it in every continuation of the run, stated by the actions alone |
| S3Progress.ReadCompares | adapters/object_storage/s3.py:211-230 | A get returns what it reads exactly when size and checksum are those it saw before, whatever the bucket holds by then |
| S3Progress.SendReaches | adapters/object_storage/s3.py:170-178 | A conditional put stores its object exactly when the key is free and the request reaches the bucket; a lost one may still arrive |
| S3Guarantees.RealTimeOrder | adapters/object_storage/s3.py:148-230 | A call that was answered before another was made takes effect before it |
| S3Guarantees.ObjectsNeverChange | adapters/object_storage/s3.py:165-186 | Once a key holds an object, every later state of the run holds the same object |
| S3Guarantees.PutReturnsItsOwn | adapters/object_storage/s3.py:153-186 | A put that returns metadata returns its own, and the bucket holds exactly its object |
| S3Guarantees.ConflictingPutsNeverBothReturn | adapters/object_storage/s3.py:160-186 | Two puts under one key that both return were puts of the same object |
| S3Guarantees.GetReturnsStoredBytes | adapters/object_storage/s3.py:211-230 | A get that is answered returns the bytes in the bucket, rejects an invalid key, or was answered not found while the key held nothing; the metadata it read first never disagrees |
| S3Progress.LateReaches | adapters/object_storage/s3.py:170-178 | A put that arrives after it was given up stores its object exactly under a free key |
| ObjectStorage.AtomicImmutable | adapters/object_storage/fake.py:47-85 | In the atomic store what was stored stays as it is, and only a put adds anything, under its own key |
| ObjectStorage.PutHolds | adapters/object_storage/fake.py:47-85 | A put that succeeded can be repeated, is described by head and read back by get, and any different put under the key fails |
| ObjectStorage.PutAnswers | adapters/object_storage/fake.py:47-66 | Which error a put reports: invalid input before a wrong checksum before a conflict; otherwise it describes and holds exactly the object asked for |
| ObjectStorage.ReadsAnswer | adapters/object_storage/fake.py:68-85 | How head and get answer, error by error, and that they change nothing |
| ObjectStorage.KeyMeans | packages/domain/object_storage.py:33-42 | A key is valid exactly when it has 1 to 1024 characters, no control character, and no stretch between slashes of either kind that is empty, a dot or two dots |
| ObjectStorage.InputMeans | packages/domain/object_storage.py:45-51 | An input is valid exactly when it has at most 25 MiB, a printable content type of 1 to 255 characters, and 64 lower-case hexadecimal digits |
| FakeStore.FakeObjectStorage.Put | adapters/object_storage/fake.py:47-66 | A put of the in-memory store is the atomic put, and touches nothing while the store cannot be reached |
| FakeStore.FakeObjectStorage.Head | adapters/object_storage/fake.py:68-74 | Head answers as the atomic store does |
| FakeStore.FakeObjectStorage.Get | adapters/object_storage/fake.py:76-85 | Get answers as the atomic store does, checksum included |
| FakeStore.FakeObjectStorage.Delete | adapters/object_storage/fake.py:87-90 | Delete removes the key and nothing else |
| Outbox.RunKeeps | apps/web/analysis/services.py:33-221 | Every run of job creations, relay transactions from stale lists and deliveries keeps the invariant on rows and messages |
| Outbox.TerminalForever | apps/web/analysis/services.py:86-142 | Published and failed events, completed and failed jobs, stay unchanged for the rest of any run |
| Outbox.AttemptsBounded | apps/web/analysis/services.py:112-142 | A pending event has attempts left, no count exceeds its maximum, and only a full count is failed |
| Outbox.PublishedWasSent | apps/web/analysis/services.py:107-142 | A published event was sent, and every message carries the ids of its own committed job |
| Outbox.OneEventPerJob | apps/web/analysis/services.py:51-73 | Every job has exactly one outbox event |
| Outbox.JobsAttemptedOnce | apps/web/analysis/services.py:154-221 | No job is ever committed as running, and its committed attempt count is one exactly once it is no longer pending |
| Outbox.DeliveryCommitsOnce | apps/web/analysis/services.py:154-221 | A delivery changes the state exactly when it is the first to commit for a pending job; redelivery after a terminal state commits nothing |
| Outbox.StepAdvances | apps/web/analysis/services.py:33-221 | One step never changes a terminal row, raises each count by at most one and unsends nothing |
| Outbox.VerdictMeans | apps/web/analysis/services.py:154-221 | When a delivery is not found, a duplicate, done, rejected or rolled back, and that it touches no other job |
| Outbox.WorkedRow | apps/web/analysis/services.py:170-221 | What a processed job looks like: completed with the outcome of its kind, or failed with the error of its cause, one attempt more, all else unchanged |
| Outbox.RelayedRow | apps/web/analysis/services.py:96-142 | What a relay transaction leaves of a waiting event: published, waiting, failed at the last attempt, or untouched by a crash; and what the broker then has |
| Outbox.RelayLeaves | apps/web/analysis/services.py:96-106 | A relay leaves any other event, and those of another organization, alone |
| Outbox.CreatedRows | apps/web/analysis/services.py:33-73 | A new key gets a pending job and a waiting event that carries its ids, with five attempts each; a taken key changes nothing |
| Outbox.RelayPublishes | apps/web/analysis/services.py:107-142 | In any run, relaying a waiting event to a broker that takes the message publishes it |
| OutboxService.Database.CreateJobWithOutbox | apps/web/analysis/services.py:33-73 | Both rows are created together, exactly when the key is new |
| OutboxService.Database.ListWaiting | apps/web/analysis/services.py:86-94 | The list holds the oldest waiting events with attempts left, all of them unless the limit cuts it |
| OutboxService.Database.RelayOne | apps/web/analysis/services.py:96-142 | One transaction of the relay is one relay step, with exact counters |
| OutboxService.Database.RelayOutbox | apps/web/analysis/services.py:76-143 | The relay is its list of steps; its two counts are the numbers of events published and failed, and a crash leaves the steps so far |
| OutboxService.Database.ProcessIngestionJob | apps/web/analysis/services.py:146-221 | The worker is one delivery step: it commits a terminal state or nothing |
| AgentContracts.Read | packages/agent_core/tools.py:58-89 | A tool answers the first references of its category within its limit, says whether more matched, and nothing when it fails |
| AgentContracts.ToolsMean | packages/agent_core/tools.py:15-22 | Which tool finds which category |
| AgentContracts.OfCategoryJoined | packages/agent_core/tools.py:58-89 | Filtering by category keeps the order of the references |
| AgentContracts.CritiqueDraft | packages/agent_core/critic.py:15-57 | The critic reports exactly the deserved findings, accepts exactly when there are none, and counts the supported claims |
| AgentContracts.ClaimFindingMeans | packages/agent_core/critic.py:27-36 | A claim passes exactly when all its citations were returned and their facts cover it; otherwise the finding names which of the two failed |
| AgentContracts.SupportedByReferences | packages/agent_core/critic.py:27-36 | With distinct ids a claim is supported exactly when each of its facts is stated by a reference it cites |
| AgentGuard.BudgetGuard.EnterNode | packages/agent_core/guards.py:52-63 | Entering counts one step within the limit and never admits a node twice in one state. It goes on exactly when its poll said no and the clock is within the wall time, cancellation first; any other stop names its cause |
| AgentGuard.BudgetGuard.FinishNode | packages/agent_core/guards.py:65-70 | Leaving a node compares its time first and then polls: it goes on exactly when within the node timeout, not cancelled and within the wall time, in this order |
| AgentGuard.BudgetGuard.ReserveTool | packages/agent_core/guards.py:72-78 | A reserved tool call is counted and stays within the limit; it is refused exactly when cancelled, out of time or out of calls, in this order |
| AgentGuard.BudgetGuard.RecordToolError | packages/agent_core/guards.py:80-81 | Tool errors never outnumber tool calls |
| AgentGuard.BudgetGuard.ReserveLlm | packages/agent_core/guards.py:83-96 | A model call is reserved exactly when not cancelled, within the wall time and with every remaining budget positive, and the remainders are exact |
| AgentGuard.BudgetGuard.RecordLlm | packages/agent_core/guards.py:98-112 | A response is always added, and stops the run exactly when it exceeds a limit |
| AgentGraph.RunInvestigation | packages/agent_core/graph.py:332-480 | A run crashes exactly when nothing stops it and some reply of its nodes cites more than 64 ids, or their replies make more than 80 claims, or their tools bring together more than 64 references; nothing stops it when the outside is calm, the budgets cover the replies and every reply answers for its node. A run cancelled at the first poll, or overdue by then, ends so with nothing used; it ends as cancelled exactly when some poll it made said so; unless stopped it polls once for each entering, leaving, tool call and model call. An unstopped run ends as the critic finding on the draft and the failed tools decide. Every report shows the final state and keeps all promises (trace numbers 0..n-1, tool events equal to tool calls unless stopped in a provider node, no loop stop, an overshoot only as a budget stop, the policy repeated exactly when completed or already cautious enough, hold exactly when the policy holds, a completed run justified by returned evidence) |
| AgentGraph.LatestProposalMeans | packages/agent_core/graph.py:311-322 | The proposal that counts is that of the last output that makes one |
| AgentGraph.OutcomeShown | packages/agent_core/graph.py:218-308 | An unstopped run ends as critic-rejected exactly when the final draft deserves a finding, else as tool failure exactly when one of its tools failed, else as completed |
| AgentGraph.CalmNeverStops | packages/agent_core/graph.py:332-450 | With a calm outside, budgets that cover the replies and replies for the right nodes, no cause for a stop exists at any node |
| AgentGraph.SizeShown | packages/agent_core/graph.py:225-251 | A size that crashes a node can be read off the setting before the run, and a run that got past the critic had none |
| AgentCrash.CollectedCount | packages/agent_core/graph.py:127-149 | A run brings together exactly the references its tools return one by one, since no two tools return the same one, and never more than the request holds |
| AgentCrash.ModestNeverOversized | packages/agent_core/graph.py:332-480 | With at most 64 references in the request, replies of at most 80 claims in all and at most 64 citations each, no run crashes, whatever happens outside |
| AgentCrash.CrowdedCrashes | packages/agent_core/graph.py:231-236 | One setting that crashes: five nodes, twenty hypotheses in each reply, nothing to stop the run |
| AgentCrash.CrashingRun | packages/agent_core/graph.py:332-480 | Run with it, the investigation ends in the uncaught error |
| AgentGraph.ProviderNode | packages/agent_core/graph.py:115-215 | A provider node appends exactly the reply it was given and the references its tools newly return, and records exactly which tools failed and which categories are missing, with one trace event per tool; it stops only with a cause in what was spent before it, and unless stopped crashes exactly when the reply cites more than 64 ids |
| AgentGraph.CriticNode | packages/agent_core/graph.py:218-271 | The critic node drafts exactly the claims, criticisms and latest proposal of the outputs, records the verdict and ends the run on rejection; unless stopped it crashes exactly on more than 80 claims or more than 64 references |
| AgentGraph.ComposerNode | packages/agent_core/graph.py:274-308 | The composer completes the run exactly when no tool failed |
| AgentGraph.AcceptedIsSupported | packages/agent_core/graph.py:237-269 | An accepted draft has only supported factual claims, proposes what the policy decided, and never ships a failed execution |
| AgentGraph.StoppedIsKept | packages/agent_core/graph.py:89-112 | A stop keeps the promises: the report is the state from before the node with one more trace event, and recommends hold if the policy holds, the policy if that is at least as cautious as unknown, and unknown otherwise |
| AgentGraph.EndedIsKept | packages/agent_core/graph.py:325-329 | A run that ended by itself keeps the promises: a completed one repeats the policy, any other recommends at least unknown, and hold exactly when the policy holds |
| RecommendationPolicy.FusionIsMaximumCaution | packages/recommendation_core/policy.py:217-260 | The policy is the maximum of the cautions of the six components and the mutation score |
| RecommendationPolicy.MoreCautiousEvidence | packages/recommendation_core/policy.py:217-260 | Replacing a component by a more cautious one never lowers the recommendation |
| RecommendationPolicy.SuggestionIgnored | packages/recommendation_core/policy.py:217-266 | The suggestion of the language model changes nothing |
| RecommendationPolicy.ReasonsExact | packages/recommendation_core/policy.py:230-260 | The reasons of a hold or an unknown are exactly the components that caused it, by name; a review is for a score below 50 or else for a fact; and the evidence is that of all components |
| RecommendationPolicy.DecisionConstructs | packages/recommendation_core/policy.py:107-131 | The decision on valid inputs passes the checks of its own constructor: one to sixteen different reasons and at most 192 evidence ids |
| RankingQuality.IdealDcgGreatest | packages/retrieval_core/evaluation.py:33-46 | No ranking without repeats above the cut-off has a larger DCG than the ideal order, with equality exactly when the gains agree at every rank |
| RankingQuality.NdcgBounded | packages/retrieval_core/evaluation.py:40-46 | Without repeats above the cut-off nDCG lies in [0, 1], and is 1 exactly when something is relevant and the gains agree with the ideal ones |
| RankingQuality.IdealScoresOne | packages/retrieval_core/evaluation.py:40-46 | The ideal order scores 1, or 0 when nothing is relevant |
| RankingQuality.BoundedIffNoRepeats | packages/retrieval_core/evaluation.py:33-46 | A ranking stays at or below 1 for all judgments exactly when no item repeats above the cut-off |
| RankingQuality.RepeatsExceedOne | packages/retrieval_core/evaluation.py:33-46 | The smallest case above 1: the one relevant item, twice |
| RankingQuality.NdcgAtK | packages/retrieval_core/evaluation.py:40-46 | The computed value is the nDCG against an ideal order of the judged items |
| RankingQuality.IdealOrder | packages/retrieval_core/evaluation.py:41-44 | The sorted items fall by grade and rise by id within a grade |
| RankingQuality.ReciprocalRank | packages/retrieval_core/evaluation.py:26-30 | The value is one over the rank of the first relevant item, or zero when there is none within the cut-off |
| RankingQuality.RecallBounded | packages/retrieval_core/evaluation.py:21-23 | Recall lies in [0, 1] and is 1 exactly when every relevant item is within the cut-off |
| RankingQuality.MetricsVanishTogether | packages/retrieval_core/evaluation.py:21-46 | Recall and DCG are zero together, exactly when nothing relevant is within the cut-off |
| RankingQuality.DcgStep | packages/retrieval_core/evaluation.py:33-37 | DCG grows by each item within the cut-off by its gain times the weight of its rank, counted from one |
| RankingQuality.GainMeans | packages/retrieval_core/evaluation.py:35 | Grades 0 to 3 gain 0, 1, 3 and 7 |
| RankingQuality.RecallStep | packages/retrieval_core/evaluation.py:21-23 | Recall grows by one over the number of relevant items with each of them found for the first time, and by nothing else |
| RiskMetrics.RankingMetrics | packages/ml_core/baseline.py:323-361 | Both metrics are undefined exactly when a class is missing; otherwise they lie in [0, 1], each is 1 exactly when every positive row outscores every negative one, and AUC is 0 exactly in the inverse case |
| RiskMetrics.AveragePrecision | packages/ml_core/baseline.py:339-352 | The sum over groups of equal scores is the mean, over the positive rows, of the precision at their score |
| RiskMetrics.RocAuc | packages/ml_core/baseline.py:353-361 | The pairwise count is wins plus half the ties over all pairs |
| RiskMetrics.AucNegated | packages/ml_core/baseline.py:353-361 | The AUC of rows and of the same rows with negated scores add up to one, so a tie counts exactly half |
| RiskMetrics.LabelledAll | packages/ml_core/baseline.py:334-335 | Positives and negatives together are the rows, none lost or repeated |
| RiskMetrics.GroupCounts | packages/ml_core/baseline.py:339-348 | A group of equal scores moves the counts by exactly its own rows |
| RiskScore.ScoreFeatures | packages/ml_core/baseline.py:152-266 | The score is the capped sum of exactly the declared rules that fire; it is withheld with the missing features named, and refused exactly for a wrong schema or a value that is no integer |
| RiskScore.ScoreMonotone | packages/ml_core/baseline.py:192-240 | More evidence of risk never lowers the score or the band, nor takes back a positive prediction |
| RiskScore.ScoreMeans | packages/ml_core/baseline.py:191-243 | Score, band and prediction in plain numbers: the points of the nine rules that apply, at most a hundred |
| RiskScore.MissingMeans | packages/ml_core/baseline.py:159-161 | Missing are exactly those of the seven required features that are absent or nothing |
| RiskThresholds.Confuse | packages/ml_core/baseline.py:279-320 | The four counts partition the rows, precision and recall are exact, and F1 is 2TP / (2TP + FP + FN) |
| RiskThresholds.RecallFalls | packages/ml_core/baseline.py:290-307 | Raising the threshold never raises recall |
| RiskThresholds.ThresholdTable | packages/ml_core/baseline.py:364-365 | The table holds the confusion at each candidate threshold in order |
| RiskThresholds.SelectFromValidation | packages/ml_core/baseline.py:368-386 | Fails exactly when no threshold reaches the recall floor; otherwise no eligible entry beats the chosen one in precision, F1 and threshold |
| RiskThresholds.RatioMeans | packages/ml_core/baseline.py:302-306 | A rate times its whole is its part, and zero over nothing |
| RiskThresholds.LowestDecides | packages/ml_core/baseline.py:368-377 | A threshold can be chosen from the table exactly when the lowest candidate reaches the recall floor |
| Fusion.ReciprocalRankFusion | packages/retrieval_core/fusion.py:12-41 | Fails exactly for a limit outside 1..50; otherwise returns the best candidates of both lists by falling total share with ids breaking ties, each with its places and scores, repeats included |
| Fusion.FusionUnique | packages/retrieval_core/fusion.py:36-41 | The result is determined by the two lists and the limit |
| Fusion.FusionSymmetric | packages/retrieval_core/fusion.py:22-41 | Swapping the lists changes neither the ids nor the scores |
| Fusion.DominanceWins | packages/retrieval_core/fusion.py:22-41 | In lists without repeats, a candidate at least as well placed in both and better in one has a higher score |
| Fusion.DominantFirst | packages/retrieval_core/fusion.py:36-41 | Such a candidate comes before the other wherever the other is returned |
| TreeDigest.Feed | packages/execution_contracts/contracts.py:549-553 | The bytes hashed are the frames of the listed files, and the loop fails exactly when a length does not fit its field |
| TreeDigest.StreamInjective | eng/release_manifest.py:50-59 | Equal bytes come from the same paths in the same order with the same folded contents |
| TreeDigest.FrameLayout | packages/execution_contracts/contracts.py:549-553 | One file is hashed as four bytes of length, its path, eight bytes of length and its folded content; it fits exactly below 2 to the 32 and 2 to the 64 |
| TreeDigest.FieldsOrdered | packages/execution_contracts/contracts.py:549-553 | Length fields are big-endian: a smaller number is below a larger one at the first byte that differs |
| TreeDigest.ComputeTree | packages/execution_contracts/contracts.py:533-553 | The bytes hashed for a tree are those of its files in increasing order of their encoded paths |
| TreeDigest.TreesAgree | packages/execution_contracts/contracts.py:533-553 | Two trees hash the same bytes exactly when they have the same paths and contents up to CRLF folding |
| TreeDigest.ReleaseTree | eng/release_manifest.py:50-59 | The bytes the release manifest hashes are those of the files in increasing order of their path components |
| TreeDigest.OrderedDifferently | eng/release_manifest.py:52 | Components and characters order two paths differently exactly when the paths agree up to a place where one has a slash and the other a character below it |
| TreeDigest.OrdersAgree | eng/release_manifest.py:50-59 | The two digests hash the same bytes for a tree exactly when no two of its paths are like that |
| TreeDigest.OrdersDiffer | eng/release_manifest.py:52 | They differ on every tree that holds a/b and a-b/x |
| Chunking.SplitBounded | packages/retrieval_core/chunking.py:18-53 | The pieces rebuild the lines, their ranges tile the lines from the first to the last, and each piece is the next one: a portion of 4000 characters or the rest of a long line, a block of as many lines as fit at the start or after a long line, and a single line after a block |
| Chunking.SplitUnique | packages/retrieval_core/chunking.py:18-53 | These conditions leave no choice: lines, heading and first line number determine the pieces |
| Chunking.FullIffNothingWasted | packages/retrieval_core/chunking.py:26-50 | Every block is as long as it could be exactly when no line beyond the first block of its run would have room for the next line |
| Chunking.ShortLinesWasted | packages/retrieval_core/chunking.py:26-50 | A full line and two short ones make three pieces where two would do |
| Chunking.BufferMore | packages/retrieval_core/chunking.py:26-50 | What the running size means: exact for the first block after the start or a long line, too large for every later one, which is why those hold one line |
| Chunking.SplitJoined | packages/retrieval_core/chunking.py:21 | Joining lines and splitting again loses at most a blank last line |
| MarkdownSections.SplitDocument | packages/retrieval_core/chunking.py:56-74 | The pieces are those of the sections; rebuilt, they give every line once and in order except a blank last line of a section |
| MarkdownSections.GroupedKeeps | packages/retrieval_core/chunking.py:56-74 | The sections are the document cut at its headings and nowhere else, numbered by their first lines |
| Patches.ContentFromPatch | runner/fixture_image/entrypoint.py:68-85 | Accepts exactly three header lines followed by additions, and returns the added lines |
| Lines.BreaksMean | adapters/test_generation/python_fixture.py:106 | The ten characters that break a line |
| Patches.RoundTrip | adapters/test_generation/python_fixture.py:103-108 | The runner reads back a built patch exactly when the path is one line and no content line starts with two plus signs; it then reads the content with every line ended by a line feed |
| Patches.PatchLines | adapters/test_generation/python_fixture.py:103-108 | The built patch, line by line: two file headers, the hunk header, and every content line marked as added |
| Patches.HunkMeans | adapters/test_generation/python_fixture.py:106-108 | The hunk header counts the lines of the content in decimal |
| Patches.KeepsText | adapters/test_generation/python_fixture.py:106 | The lines with their breaks are the whole content |
| Patches.PlusesLost | adapters/test_generation/python_fixture.py:103-108 | The content of two plus signs is never read back |
| Capture.StreamCapture | runner/fixture_image/entrypoint.py:88-102 | For every cutting of the stream into chunks the excerpt and the hashed bytes are those of the one-shot capture, and the whole result is, exactly when the reported file size is the stream length |
| Differential.CompareObservations | packages/execution_contracts/differential.py:329-366 | The control plane gives the expected verdict and the differences in their fixed order |
| Differential.CompareDocuments | runner/fixture_image/differential_entrypoint.py:174-204 | The runner, comparing the documents of the same observations, gives the same verdict and differences |
| Differential.VerdictMeans | packages/execution_contracts/differential.py:334-366 | When each verdict is given, and exactly which differences are listed |
| Differential.CodesMean | packages/execution_contracts/differential.py:341-364 | What each code says in the raw fields: a missing field equals a null one, and two states differ exactly under some key other than the time of update |
| Differential.DifferencesOrdered | packages/execution_contracts/differential.py:334-366 | Differences are listed in the order of the codes, each once |
| Differential.MaskedIrrelevant | packages/execution_contracts/differential.py:341-364 | Anything but the compared facts leaves verdict and differences unchanged |
| Differential.MaskedFields | packages/execution_contracts/differential.py:350-359 | Headers and update times are not among the compared facts |
| TokenCache.InstallationTokenCache.GetOrMint | packages/github_contracts/auth.py:46-73 | The dictionary in its order behaves as the most-recently-used list: a bad request is refused, a cached token that outlives the skew is returned whatever the minter would do, anything else is minted; hits refresh, mints evict, and the cache is unchanged on every failure |
| TokenCache.AnswerMeans | packages/github_contracts/auth.py:46-73 | A valid request for an installation whose cached token outlives the skew gets that token whatever the minter does; only without one does the minter decide |
| TokenCache.TokenReused | packages/github_contracts/auth.py:61-72 | Over any run, a token that was returned is returned again to later requests of its installation while it outlives the skew, nobody revokes or clears it, and fewer than the maximum number of others are asked for |
| TokenCache.RevokedForgotten | packages/github_contracts/auth.py:61-79 | After a revocation an installation is only given tokens minted since |
| TokenCache.InstallationTokenCache.Revoke | packages/github_contracts/auth.py:75-76 | Revoking removes that entry only |
| TokenCache.InstallationTokenCache.Clear | packages/github_contracts/auth.py:78-79 | Clearing removes all entries |
| TokenCache.NewCache | packages/github_contracts/auth.py:39-44 | A cache is made exactly for sizes from 1 to 1024; an absent or zero skew becomes one minute |
| TokenCache.RunProper | packages/github_contracts/auth.py:46-79 | After any calls the ids are distinct and at most the maximum number |
| TokenCache.OnlyOldestDropped | packages/github_contracts/auth.py:69-72 | Using a token drops the oldest entry exactly when the list is full of other ids, and nothing else |
| TokenCache.TokensNeverCross | packages/github_contracts/auth.py:46-73 | Over any run every cached or returned token was minted for that installation, and every returned one outlives the skew |
| TokenCache.KeptWhileRecent | packages/github_contracts/auth.py:61-72 | An installation stays cached while fewer than the maximum number of others are asked for and nobody revokes or clears it |
| Labels.LabelMeans | packages/dataset_core/labels.py:33-119 | Exactly which outcomes are positive, negative or refused, and what a label records of them |
| Labels.UnknownMeans | packages/dataset_core/labels.py:38-90 | Which reason an unknown label carries: exactly the first that applies |
| Splits.RunLeakageChecks | packages/dataset_core/splits.py:96-164 | Passes exactly on clean rows; otherwise the violations are exactly those of single rows and of fingerprints shared across splits |
| Splits.CrossSplitDuplicates | packages/dataset_core/splits.py:80-93 | The values found are exactly those carried by included rows of two splits |
| Splits.CrossesExactly | packages/dataset_core/splits.py:80-93 | A value crosses exactly when two included rows of different splits share it as head, diff, near-duplicate or row hash |
| Splits.MentionsMeans | packages/dataset_core/splits.py:114-122 | A text is banned exactly when one of the six tokens stands in it |
| Splits.AssignMeans | packages/dataset_core/splits.py:52-62 | Which split a row is in: known rows by the window their time lies in, all others in none |
| Materialize.BuildDataset | packages/dataset_core/materialize.py:115-129 | Rejects exactly bad versions, commits or records; otherwise materializes every record and is built exactly when the rows are clean |
| Materialize.RowMeans | packages/dataset_core/materialize.py:58-112 | Every value of a row is that of its own record, the analysis of that record, or its label and split |
| Materialize.SplitsChronological | packages/dataset_core/materialize.py:73-74 | Rows of an earlier split are earlier in time |
| Materialize.IncludedObserved | packages/dataset_core/materialize.py:73-74 | An included row has an outcome seen inside a window that had closed by the cutoff |
| Materialize.NothingCrosses | packages/dataset_core/materialize.py:129 | Included rows of different splits share no head, diff, near-duplicate or row hash |
| Materialize.OnlyCrossingsFail | packages/dataset_core/materialize.py:125-129 | A dataset built with schema-conforming features fails the checks exactly when two splits share a head, diff or near-duplicate hash |

## Left out

- Docker, subprocesses, cgroups, sockets, Django views and queries, Celery, scikit-learn, MLflow and the model adapters:
  effects and libraries outside the repository's own logic.
- SHA-256, JSON encoding and HMAC: hashes are injective functions or the byte stream fed to them; result hashes that only
  cover modelled fields are not repeated.
- Clocks, cancellation, the model provider, the change analysis, row hashes, Markdown heading and binary-path recognition:
  parameters of the members that use them.
- Rounding and floating point: metrics and fusion scores are exact reals before `round`; `SelectFromValidation` takes the
  rounding as a parameter.
- BlastRadius.ComputeBlastRadius: does not list impacted tests, missing changed paths or sensitive tags, which are filters
  over the recorded modules.
- ImportGraph.ImportTargets: takes the import names as given; parsing Python and building the edge list around it are not
  modelled.
- Diffs.NormalizeDiff: does not classify languages, file types and tags, which depend on the path alone, and does not tell
  the error messages apart; lone surrogates, which cannot be encoded, are not among its characters.
- TreeDigest.ComputeTree: takes the tree after the filter on file names.
- TreeDigest.ReleaseTree: takes the files by their relative paths; collecting them, and path objects that ignore case, are
  not modelled.
- MarkdownSections.SplitDocument: the Python-source sections, the limit of 128 chunks and text normalization are not
  modelled.
- Capture.StreamCapture: decoding the excerpt with replacement characters is not modelled, nor the bound on its length.
- Differential.CompareDocuments: is about documents of parsed observations; documents the control plane rejects are not
  compared with anything.
- S3Guarantees.EveryRunLinearizes: covers runs without deletions, for an injective checksum; bucket bootstrap and deletion
  are left to `FakeStore`.
- Outbox.RunKeeps: quotas, correlation ids, timestamps and the audit trail are not modelled; each database transaction is
  one step.
- OutboxService.Database.ListWaiting: orders by row id; the time from which an event is available is set at its creation
  and never changed, and is not modelled.
- OutboxService.Database.RelayOutbox: runs alone on the database; concurrent relays are interleaved in `Outbox`.
- AgentGraph.RunInvestigation: takes requests that satisfy the request contract (distinct evidence ids, positive limits)
  and tools over the evidence and limits of that request, which the program passes as a separate argument;
  safe summaries, elapsed times and hashes of the report are not modelled.
- AgentContracts.CritiqueDraft: the authority check on a draft is left out, since a draft with authority cannot be built.
- RiskScore.ScoreFeatures: the two optional features are checked before the first rule instead of between the last ones,
  which cannot be observed.
- Splits.RunLeakageChecks: the order of the violations in the error is not modelled.
- Materialize.BuildDataset: counts, lineage and the manifest are not modelled.
- TokenCache.InstallationTokenCache.GetOrMint: the minter is the answer it gives; a minter that calls the cache is not
  covered.
- `rerank_candidates`, the semantic dataset, drift monitoring, governance gates and promotion rules: one branch or one sort
  each.
