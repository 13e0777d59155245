# Evidence accounting of the review gate

ub-review decides whether the evidence about a pull request is complete, consistent and used exactly once. This
project models the parts of the repository that take those decisions, and proves what the decisions guarantee.

- **Pre-merge admission** (`NativeRecords`, `AdmissionPolicy`, `AdmissionEnvironment`, `AdmissionSafety`,
  `AdmissionRetries`, `AdmissionWitness`, `AdmissionRetryWitness`, `AdmissionAdapter`, `AdmissionGuarantees`,
  `AdmissionHistories`, `AdmissionSettlement`). Webhook runs read an append-only history of label edges, reviews,
  dismissals and workflow runs, each at its own moments, and each decides alone. `AdmissionEnvironment` is a step system
  of that history; an `Execution` records where in a trace it made each read. The theorems are about all traces and all
  executions. `AdmissionAdapter` is the imperative adapter, proved equal to the decision functions, and
  `AdmissionGuarantees` says of each decision, in the fields of what was read, exactly when it is taken.
- **Claim-graph adjudication** (`ClaimGraph`, `ClaimConfluence`, `ClaimOutcomes`). Batches of conflict pairs, in any
  order and orientation, on any graph; and what becomes of each claim and topic.
- **Publication boundaries** (`Json`, `RevisionIdentity`, `DeliveryMatching`, `Publication`, `PublicationWitness`,
  `PublicationGuarantees`). The canonical revision identity, the matching of planned deliveries against prepared
  comments, the whole reconciler, and what a coherent packet looks like, document by document.
- **Task projections** (`ProofResults`, `TaskPacket`, `TaskLedger`, `TaskHistories`, `TaskProjections`, `TaskWitness`,
  `TaskGuarantees`). The bounded packet reader and issue set, the replay of the task ledger with its digest chain, the
  life each task of a stream lived, the result-consistency rule, the reconciler of the task ledger against receipts,
  leases, routes and the gate, and what a coherent packet guarantees of each of them.
- **Final-compiler accounting** (`ReviewSurfaces`, `SurfaceIdentity`, `CompilerReconciliation`, `CompilerSources`).
  Conservation of the public surfaces between what came in, what is kept and what is removed, traced back to the comments
  and findings they stand for.
- **CI audit** (`CiJobStats`, `CiJobTable`, `CiJobMeaning`, `YamlComments`, `YamlLines`, `MatrixSize`, `WorkflowScan`,
  `WorkflowMeaning`, `Base64`). The independent-failure credit, the line scanner of workflow files, and the base64
  encoder.
- **Config sanitizer** (`TomlDocuments`, `ConfigSanitizer`, `ConfigPass`, `ConfigSurvivors`). The strip-and-receipt pass,
  and which keys survive it.
- **Quality bootstrap** (`QualityBootstrap`). Bounded collection and promotion by renames, where every file operation
  may succeed, fail or be the last one before a crash.
- **Candidates** (`Candidates`, `CandidateFates`). The candidate queue, what becomes of a finding, and the evidence groups
  of the plan.

`Collections`, `Sorting`, `Strings`, `Text` and `Decimal` hold what several models share.

SHA-256 and JSON decoding are function parameters; where a result needs digests to differ, it says so
(`CollisionFree`, or an injective digest). Replies, clocks and file-operation outcomes are parameters too.

Four results say where a promise stops. The documentation of the delivery transaction says that every prepared inline
item is represented exactly once, but two identical prepared comments can never be confirmed:
`DeliveryMatching.IdenticalCommentsAreNeverConfirmed` exhibits it and `DeliveryMatching.CompleteIsBijection` gives the
exact condition. A material transition stops executions whose rows reach it (`AdmissionSafety.TransitionRefuses`), and
`AdmissionWitness.StoppingShortAdmits` shows a read that stops short. Retirement is about a label
and the runs that follow it: `AdmissionSafety.AskedAndRetiredNeverReturns` says for which runs, and
`AdmissionWitness.EarlierRunOutlivesALabel` shows an earlier run that is admitted after another label of the same
request was withdrawn. And the permanence of retirement rests on the order in which the adapter reads reviews and
events: `AdmissionSafety.ReadOrderMatters`.

## Model

| member | source | states |
|---|---|---|
| AdmissionPolicy.RequestFor | scripts/premerge-admission.py:148-177 | the request a label names is well formed: bounded retry, ascending review ids, owner of an admitted association |
| AdmissionPolicy.LabelDeterminesRequest | scripts/premerge-admission.py:61-70 | without digest collisions a label names one request, whichever comments carry it, however its bytes are encoded, and whoever reads it |
| AdmissionAdapter.TableDecidesBlocking | scripts/premerge-admission.py:232-243 | a table of all decisive submissions by reviewer blocks exactly when some reviewer's latest submissions include a change request |
| AdmissionAdapter.ReviewsStand | scripts/premerge-admission.py:232-243 | the loop over reviews accepts exactly those whose states are known, whose decisions have a time and none of which blocks |
| AdmissionAdapter.Api.Pages | scripts/premerge-admission.py:105-115 | bounded paging returns all rows in order, and fails at the fifth full page or when the calls are spent |
| AdmissionAdapter.Api.History | scripts/premerge-admission.py:274-309 | the paged, filtered and de-duplicated read equals the gap-free rows function and caches its result per lane |
| AdmissionAdapter.Api.ElectRun | scripts/premerge-admission.py:312-357 | the loop over rows decides as the election function does |
| AdmissionAdapter.Api.SettledRun | scripts/premerge-admission.py:395-425 | the predecessor named in one lane is found exactly when it is the earliest that asked for the prior request, completed in its first attempt |
| AdmissionAdapter.Api.ValidateRetry | scripts/premerge-admission.py:375-456 | the loop over ancestors accepts exactly the retry chains and terminates because generations decrease |
| AdmissionAdapter.Api.ReadCurrent | scripts/premerge-admission.py:180-271 | the sequence of reads and checks returns what the decision function returns on the records read |
| AdmissionAdapter.Api.Execute | scripts/premerge-admission.py:479-514 | the adapter's verdict is the decision function of its inputs and its reads |
| AdmissionEnvironment.StepKeepsInv | scripts/premerge-admission.py:255-270 | every step of the environment keeps its invariant, in particular that a dismissed review has a dismissal event no earlier than its submission |
| AdmissionEnvironment.TraceGrows | scripts/premerge-admission.py:274-309 | over any trace the records only grow, reviews keep their verdict and submission time, runs keep their facts |
| AdmissionSafety.ElectedExactlyWhenFirst | scripts/premerge-admission.py:312-357 | a run is elected exactly when it is a candidate, no row refuses it and no candidate comes before it |
| AdmissionSafety.CandidateCarriesOver | scripts/premerge-admission.py:319-346 | a run that counted as a candidate for a request in one reading counts as one, or refuses, in every other reading by a run that is not earlier |
| AdmissionSafety.EarlierWins | scripts/premerge-admission.py:301-309 | two winners of a lane and request are the same run, since a gap-free history shows the earlier one to both |
| AdmissionSafety.OneAdmittedRun | scripts/premerge-admission.py:312-357 | over every trace, at most one run of a lane, in its first attempt, is ever admitted for a request, whatever the order of the executions and the encoding of the request |
| AdmissionSafety.WithdrawalRefuses | scripts/premerge-admission.py:250-253 | once the label was removed by anyone, no later execution finds its request current |
| AdmissionSafety.ObjectionRefuses | scripts/premerge-admission.py:255-270 | once a change request was submitted at or after the first label edge, no later execution finds the request current, even after dismissal, edit or approval |
| AdmissionSafety.ReadOrderMatters | scripts/premerge-admission.py:224-270 | reading events before reviews would lose that: a concrete history in which the retiring review shows in neither read |
| AdmissionSafety.TransitionRefuses | scripts/premerge-admission.py:347-355 | a later run that records a material transition refuses the request in every execution whose accepted rows reach that run, whenever it started |
| AdmissionSafety.ReachedExactlyWhenListed | scripts/premerge-admission.py:301-305 | accepted rows list a run of the lane exactly when they contain one numbered at or after it |
| AdmissionWitness.StoppingShortAdmits | scripts/premerge-admission.py:347-355 | the condition is needed: a history closed by a later run, read by rows that stop short of it, and admitted |
| AdmissionSafety.RetirementIsPermanent | scripts/premerge-admission.py:249-270 | over all traces: once its label was withdrawn, or a change request was submitted while it was applied, no later execution is admitted through the label; nor is any execution whose rows reach a later run that records a material transition |
| AdmissionSafety.RetiredRequestNeverReturns | scripts/premerge-admission.py:249-270 | the same for a request that an execution had admitted: another label or spelling does not bring it back in the lane |
| AdmissionSafety.AskedAndRetiredNeverReturns | scripts/premerge-admission.py:249-270 | without any admission: once a run asked for a request and its label is retired, neither that run nor a later run of the lane is admitted for the request, through any label |
| AdmissionWitness.EarlierRunOutlivesALabel | scripts/premerge-admission.py:249-253 | that stops at earlier runs: a history in which a second label for the same request was withdrawn and the earlier run is admitted |
| AdmissionRetries.LinkIsSettled | scripts/premerge-admission.py:393-455 | a retry names, in both lanes, the earliest run that asked for its parent, settled before every comment and label edge that states the retry |
| AdmissionRetries.AcceptedChain | scripts/premerge-admission.py:375-456 | an accepted request has as many ancestors as its generation, at most three, ending in a request without a retry; all agree on every field but the retry, and each link is settled |
| AdmissionRetries.SuccessorIsUnique | scripts/premerge-admission.py:393-456 | neither cause nor runs nor bytes leave a choice: two accepted retries of one request are equal, whenever they were read |
| AdmissionRetries.GenerationDeterminesRequest | scripts/premerge-admission.py:375-456 | two accepted requests of one subject and generation are equal |
| AdmissionRetries.OneRunPerGeneration | scripts/premerge-admission.py:479-514 | two admitted runs of one lane, subject and generation are the same run |
| AdmissionRetries.AtMostFourAdmissions | scripts/premerge-admission.py:169-176 | a subject is admitted by at most four runs of a lane, over all traces |
| AdmissionRetryWitness.FourAdmissions | scripts/premerge-admission.py:375-456 | the bound is reached: a trace with four admitted runs of one lane and subject, three of them for accepted retries |
| AdmissionWitness.AdmissionHappens | scripts/premerge-admission.py:479-514 | the safety theorems are not empty: a concrete trace, codec without collisions and execution that is admitted |
| AdmissionGuarantees.LabelExactlyWhen | scripts/premerge-admission.py:26 | a request label is `ci:` and forty-three URL-safe characters |
| AdmissionGuarantees.ShapedExactlyWhenWellFormed | scripts/premerge-admission.py:159-177 | a request is well formed exactly when its identities are full and lower case, its reviews ascend, its objective names an issue of the repository, and it is at most a third retry |
| AdmissionGuarantees.ResolvedExactlyWhenNamed | scripts/premerge-admission.py:148-177 | a label resolves exactly to what the oldest comment that carries it says, when that is a well-formed request of its eligible author |
| AdmissionGuarantees.UnblockedExactlyWhenAnswered | scripts/premerge-admission.py:232-243 | with readable reviews, nothing blocks exactly when the author of every change request approved strictly later |
| AdmissionGuarantees.CurrentExactlyWhenItStands | scripts/premerge-admission.py:180-271 | a request is current exactly when, in the fields read: it is the live head, base, owner, policy and merge; its label alone is active; each selected review stands; no change request is unanswered; and its label was applied by the owner and nothing retired it since |
| AdmissionGuarantees.AdmittedExactlyWhen | scripts/premerge-admission.py:479-514 | a job is admitted exactly when its webhook applied a label, the request stands, attempt, checkout, cancellation and packet fit, its run is the elected one, and every ancestor is settled |
| AdmissionGuarantees.StandingObjectionRefuses | scripts/premerge-admission.py:232-243 | over all traces: an admitted execution had read, for every change request then on record, a strictly later approval by its author |
| AdmissionGuarantees.InvalidatedExactlyWhen | scripts/premerge-admission.py:459-498 | a job reports an invalidation exactly for a material webhook, or one that touches a review a live request of an assignee selected |
| AdmissionGuarantees.ObservedExactlyWhen | scripts/premerge-admission.py:126-145 | a job observes exactly a webhook that neither asks for nor takes back anything, or a changed review that no live request selected |
| AdmissionGuarantees.CarriedExactlyWhen | scripts/premerge-admission.py:481-485 | a final job carries the outcome on exactly when it was an observation, a duplicate or a replay |
| AdmissionGuarantees.ReplayedExactlyWhen | scripts/premerge-admission.py:479-505 | a later attempt of a labelled run is a replay, and nothing else is |
| AdmissionGuarantees.DuplicateExactlyWhen | scripts/premerge-admission.py:499-508 | a job is a duplicate exactly when another run was elected for the standing request |
| AdmissionGuarantees.CandidateExactlyWhenItAsks | scripts/premerge-admission.py:319-346 | a row is a candidate exactly when it is not later, of the same event, and asks for the request with title, label and pull request in agreement |
| AdmissionGuarantees.LaterRowRefusesExactlyWhen | scripts/premerge-admission.py:319-355 | a later row refuses exactly when it is forged, records a material transition, or hides its pull request |
| AdmissionGuarantees.EarlierRowRefusesExactlyWhen | scripts/premerge-admission.py:319-346 | an earlier row refuses exactly when it is forged, or is a request of the owner that event, label or pull request contradict |
| AdmissionGuarantees.OtherRows | scripts/premerge-admission.py:319-329 | rows with garbled or legacy titles, and dispatched runs |
| AdmissionGuarantees.WinsExactlyWhenFirstToAsk | scripts/premerge-admission.py:312-357 | the elected run is the first of its complete history to ask for the request, provided no row refuses |
| AdmissionHistories.CompleteExactlyWhenRead | scripts/premerge-admission.py:274-309 | a history is accepted exactly when its anchor is unchanged, the pages up to the one that shows it are whole and at most twelve, and the run numbers are consecutive from the floor |
| AdmissionHistories.GapFreeExactlyWhenConsecutive | scripts/premerge-admission.py:301-309 | the count and range checks mean: each number from the floor to the highest is on exactly one row |
| AdmissionSettlement.PredecessorExactlyWhen | scripts/premerge-admission.py:395-420 | which rows count as a predecessor and which spoil the lane, in the fields of the row |
| AdmissionSettlement.SettledExactlyWhen | scripts/premerge-admission.py:395-425 | the predecessor of a lane is the first of its history to ask for the parent, ended in its first attempt |
| AdmissionSettlement.RetiredExactlyWhen | scripts/premerge-admission.py:426-439 | when a settled pair is retired: at the later ending, or at the later first removal of its labels after both succeeded |
| AdmissionSettlement.StatedExactlyWhen | scripts/premerge-admission.py:440-455 | a retry counts as stated only by comments and label edges strictly after the retirement |
| AdmissionSettlement.SucceedsExactlyWhen | scripts/premerge-admission.py:381-455 | a retry is accepted after its parent exactly when it changes nothing but the retry, is the next generation, and follows the settlement in both lanes |
| AdmissionSettlement.ParentIsFirstStated | scripts/premerge-admission.py:360-372 | the parent is what the owner's first comment with its digest states |
| ClaimGraph.BestClass | src/claim_graph.rs:629-634 | the best class is listed and no listed class precedes it |
| ClaimGraph.BestVote | src/claim_graph.rs:697-719 | the loop over retained conflicts finds the highest priority any of them gives the claim |
| ClaimGraph.Store.AdjudicateConflicts | src/claim_graph.rs:649-737 | recording a batch and reducing in place gives the adjudicated graph |
| ClaimGraph.Store.ReduceInPlace | src/claim_graph.rs:693-737 | states and topics are settled from all retained conflicts, in place |
| ClaimConfluence.RecordGrows | src/claim_graph.rs:653-691 | recorded conflicts are a preserved prefix, so their indices are stable |
| ClaimConfluence.AppendedRecords | src/claim_graph.rs:670-691 | a batch appends each new unordered pair once, and nothing else |
| ClaimConfluence.BatchesCompose | src/claim_graph.rs:649-737 | adjudicating two batches in turn gives exactly the graph of adjudicating their concatenation |
| ClaimConfluence.RepeatingIsIdentity | src/claim_graph.rs:670-678 | adjudicating a batch again changes nothing |
| ClaimConfluence.OrderDoesNotMatter | src/claim_graph.rs:693-695 | permuting, flipping or repeating pairs changes neither claims nor topics, and leaves the same conflicts as unordered records |
| ClaimConfluence.TallyGrows | src/claim_graph.rs:693-695 | more conflicts never lower a claim's tally |
| ClaimConfluence.StateIsDecidedByOpponents | src/claim_graph.rs:534-626 | a contested claim is refuted iff an opponent is strictly stronger, else conflicted iff one ties, else inconclusive iff none has evidence, else confirmed |
| ClaimConfluence.OpponentsAreNotBothConfirmed | src/claim_graph.rs:534-626 | two conflicting claims are never both confirmed |
| ClaimConfluence.StrongestIsNeverRefuted | src/claim_graph.rs:696-723 | a strongest claim of its conflict component is not refuted |
| ClaimConfluence.SomebodyStands | src/claim_graph.rs:696-723 | from every contested claim a path of opponents leads to a claim that is not refuted |
| ClaimConfluence.RefutationIsFinal | src/claim_graph.rs:693-695 | a claim with a recorded loss is refuted after every later batch |
| ClaimOutcomes.RulingMeans | src/claim_graph.rs:534-642 | the side with evidence higher on the ladder of the five classes wins, by proof exactly when it has a proof receipt; otherwise nobody does, and the conflict is to be verified when both came without evidence and unresolved else |
| ClaimOutcomes.ConflictsOfABatch | src/claim_graph.rs:649-691 | a batch adds conflicts only for its own pairs of existing distinct claims, ruled by their evidence, and every such pair is on record afterwards |
| ClaimOutcomes.ClaimOutcome | src/claim_graph.rs:693-723 | a claim ends refuted if it lost some conflict on record, else conflicted if one is unresolved, else inconclusive if one is to be verified, else confirmed if it won one, else as it was; nothing else of it changes |
| ClaimOutcomes.TopicOutcome | src/claim_graph.rs:724-737 | a topic takes the written name of its claim's final state, has no human surface once its claim lost a conflict, and changes in nothing else |
| ClaimOutcomes.TopicIsSuppressed | src/claim_graph.rs:724-737 | where nothing was on record, a topic loses its surface exactly when an opponent's evidence outranks its claim's |
| RevisionIdentity.ParsePrint | scripts/reconcile-publication-boundaries-core.py:232-297 | a text is accepted as an identity exactly when the identity is valid and the text is its print |
| RevisionIdentity.PrintedIsAccepted | scripts/reconcile-publication-boundaries-core.py:232-274 | printing a valid identity is accepted and gives the same fields |
| RevisionIdentity.ComparisonNeverFails | scripts/reconcile-publication-boundaries-core.py:276-288 | once the field checks pass, the final comparison with the normal form cannot fail |
| RevisionIdentity.ValidExactlyWhenConsistent | scripts/reconcile-publication-boundaries-core.py:217-274 | an identity is valid exactly when all its object ids are lower-case, not zero and of one width, its digests full, a candidate head reviewed as it is and a merge result as merged |
| RevisionIdentity.PrintedText | scripts/reconcile-publication-boundaries-core.py:276-288 | the eight lines of the printed form, written out |
| RevisionIdentity.ParsePairMeans | scripts/reconcile-publication-boundaries-core.py:225-229 | a pair parses exactly when it is two object ids and one space |
| RevisionIdentity.ParseCanonical | scripts/reconcile-publication-boundaries-core.py:232-297 | the parser that fills a table line by line equals the parse function |
| DeliveryMatching.ScanMatches | scripts/reconcile-publication-boundaries-core.py:624-630 | the scan finds the open comments with the planned key |
| DeliveryMatching.MatchPlan | scripts/reconcile-publication-boundaries-core.py:597-638 | the loop with its consumed set accepts exactly the plans that consume one open comment a row |
| DeliveryMatching.CoreAccepts | scripts/reconcile-publication-boundaries-core.py:597-638 | the core accepts a plan exactly when its keys are distinct and each is the key of exactly one prepared comment |
| DeliveryMatching.CoreAcceptsSubsets | scripts/reconcile-publication-boundaries-core.py:597-638 | without the length check a plan that leaves comments out is accepted |
| DeliveryMatching.CompleteIsBijection | scripts/reconcile-publication-boundaries.py:27-51 | with it, a plan is accepted exactly when planned and prepared keys are the same multiset and no two comments share a key |
| DeliveryMatching.IdenticalCommentsAreNeverConfirmed | scripts/reconcile-publication-boundaries-core.py:624-638 | two identical prepared comments are never confirmed, although a plan listing each once accounts for both |
| Publication.Checker.RaiseIssue | scripts/reconcile-publication-boundaries-core.py:132-139 | the issue set is bounded, and an issue is kept or marked as truncated |
| Publication.Checker.Unavailable | scripts/reconcile-publication-boundaries-core.py:150-152 | unavailable input always leaves an issue |
| Publication.Checker.CheckTransaction | scripts/reconcile-publication-boundaries-core.py:565-638 | the transaction is accepted exactly when it is settled and its plan is a bijection, and stays silent only then |
| Publication.Checker.CheckPostResult | scripts/reconcile-publication-boundaries-core.py:641-714 | the delivery state of a post receipt, and no issue exactly when receipt, transaction and response head are right |
| Publication.SidesVerdict | scripts/reconcile-publication-boundaries-core.py:757-806 | with clean projections, silent sides that are ready and agree with the projected publication are exactly the coherent ones |
| Publication.ReviewVerdict | scripts/reconcile-publication-boundaries-core.py:776-790 | the same for the side of a prepared review |
| Publication.Checker.Reconcile | scripts/reconcile-publication-boundaries-core.py:740-847 | the verdict is coherent exactly when every boundary agrees; unavailable input is never coherent and is always reported |
| PublicationGuarantees.BoundExactlyWhenAdmitted | scripts/reconcile-publication-boundaries-core.py:300-333 | a packet is bound to a revision exactly when its admission restates a canonical identity, digest and fields alike, and then to that one |
| PublicationGuarantees.PreparedExactlyWhen | scripts/reconcile-publication-boundaries-core.py:464-522 | a review is prepared exactly when its documents are publishable; the payload is its body and each comment's place and public body, in order |
| PublicationGuarantees.TransactionExactlyWhen | scripts/reconcile-publication-boundaries-core.py:565-638 | a transaction is accepted exactly when it ended cleanly at the admitted head, every planned row is inline, for a claim and at that head, and rows and comments correspond one to one by place and digest |
| PublicationGuarantees.EndedExactlyWhen | scripts/reconcile-publication-boundaries-core.py:359-399 | which combinations of status, payload and reviewer value a terminal state may have |
| PublicationGuarantees.ReceiptExactlyWhen | scripts/reconcile-publication-boundaries-core.py:641-714 | what a post receipt must say for a delivery to be confirmed |
| PublicationGuarantees.FailureExactlyWhen | scripts/reconcile-publication-boundaries-core.py:717-729 | what the record of a failed post must say |
| PublicationGuarantees.SkipExactlyWhen | scripts/reconcile-publication-boundaries-core.py:525-555 | what a skip receipt must say, and that it says nothing else |
| PublicationGuarantees.CoherentExactlyWhen | scripts/reconcile-publication-boundaries-core.py:740-847 | a packet is coherent exactly when it was posted as prepared at the admitted head, or prepared and not posted, or skipped; each case in the fields of the documents |
| PublicationGuarantees.PostedMeansDelivered | scripts/reconcile-publication-boundaries-core.py:808-834 | coherent and `posted`: each planned row is inline, for a claim, at the admitted head; rows and comments of the review correspond one to one on path, line, side and digest of the public body; receipt, payload and response are those of that review and head |
| PublicationWitness.PostingHappens | scripts/reconcile-publication-boundaries-core.py:740-847 | a concrete coherent packet that says `posted`, so the theorem is not empty |
| Publication.PostedExactlyWhenConfirmed | scripts/reconcile-publication-boundaries-core.py:808-834 | in a coherent packet the gate says `posted` exactly when the delivery state is confirmed |
| Publication.NotPostedMeansNotConfirmed | scripts/reconcile-publication-boundaries-core.py:808-818 | coherent and not posted: the delivery state is not confirmed, no prepared review has a post result, and without a review there is a valid skip receipt |
| ProofResults.PassingIsEarned | scripts/reconcile-task-projections.py:78-113 | a consistent passing result has a head command that passed, a discriminating one also a base command that failed, and every command of the receipt ran |
| ProofResults.TableIsExact | scripts/reconcile-task-projections.py:78-91 | the table of sides holds every command, so no repeated side hides one |
| TaskPacket.Packet.RaiseIssue | scripts/reconcile-task-projections.py:135-142 | bounding the issue set never hides a failure: an issue stays or sets the overflow mark |
| TaskPacket.Packet.Read | scripts/reconcile-task-projections.py:165-195 | the bytes read exceed the budget by at most the probe byte, files stay counted and bounded |
| TaskPacket.Packet.Load | scripts/reconcile-task-projections.py:197-213 | an input that cannot be used leaves an issue or the overflow mark |
| TaskPacket.Packet.Index | scripts/reconcile-task-projections.py:271-281 | silent exactly when the identifiers are present and pairwise distinct |
| TaskLedger.ReplayStream | scripts/verify-bun-review-artifacts.py:2446-2492 | the loop over the lines, with its digest chain, replays exactly what the replay function says |
| TaskLedger.Verify | scripts/verify-bun-review-artifacts.py:2446-2516 | a stream and snapshot are verified exactly when the stream replays, every task ends and the snapshot is the replayed tasks in order |
| TaskLedger.ApplyKeepsSound | scripts/verify-bun-review-artifacts.py:2330-2443 | every event keeps the life-cycle invariant: which fields are set in which state, and recorded starts in time |
| TaskLedger.DurationsNeverFail | scripts/verify-bun-review-artifacts.py:2324-2327 | once events are in time the state alone decides what a task accepts; no duration check can fail |
| TaskLedger.VerifiedLedgerIsClosed | scripts/verify-bun-review-artifacts.py:2446-2516 | a verified ledger is never empty, its identifiers are canonical and distinct, and every executed task has a disposition, a receipt or its recorded failure, and no resources left |
| TaskLedger.ChainFixesStream | scripts/verify-bun-review-artifacts.py:2473-2488 | with an injective digest, two accepted streams that end in the same digest are equal line by line |
| TaskLedger.EventTakenExactlyWhen | scripts/verify-bun-review-artifacts.py:2330-2443 | the replay takes an event exactly when it proposes an unknown task, or, for a known one, is no proposal, is in time, contradicts no consumer, and its state accepts it |
| TaskHistories.ReplayTells | scripts/verify-bun-review-artifacts.py:2446-2492 | every replayed task lived exactly the life its own events tell, and no event speaks of another |
| TaskHistories.LedgerTellsTheStream | scripts/verify-bun-review-artifacts.py:2446-2516 | in a verified ledger the rows are the tasks of the stream; each lived, from one proposal to a terminal state and in time, the life its events tell, and carries the source, reservations, consumers and receipts they gave it |
| TaskProjections.CheckCredit | scripts/reconcile-task-projections.py:505-557 | the crediting loop is silent exactly when every task's receipt reference is right and claimed once, and records who claimed what |
| TaskProjections.CheckRequired | scripts/reconcile-task-projections.py:778-802 | silent exactly when the gate's counts match the required requests and, with `pass`, each has one satisfying receipt |
| TaskProjections.CheckReservations | scripts/reconcile-task-projections.py:731-764 | silent exactly when every credited command reserves what its one granted lease grants |
| TaskProjections.CheckRoutes | scripts/reconcile-task-projections.py:839-864 | silent exactly when routes and receipts correspond and each route lists exactly its leases |
| TaskProjections.Reconcile | scripts/reconcile-task-projections.py:911-912 | the verdict is coherent exactly when the ledger replays against an admitted revision and every comparison agrees; missing input is contradictory |
| TaskProjections.LoadLedger | scripts/reconcile-task-projections.py:365-383 | silent exactly when both ledger documents are there and a replay that was tried succeeded; a verified ledger loses no task when it is indexed |
| TaskProjections.CoherentHasALedger | scripts/reconcile-task-projections.py:371-376 | a coherent packet has a ledger that is not empty, with closed tasks |
| TaskProjections.ClosedTasksAreNotBlamed | scripts/reconcile-task-projections.py:549-552 | on a replayed ledger the checks of terminal receipt, release and reservation shape never fire |
| TaskProjections.ExactlyOnce | scripts/reconcile-task-projections.py:505-588 | for every coherent packet: a row has at most one owning task, every owned row exists, and every command that ran has an owner with the derived id |
| TaskProjections.PassIsProven | scripts/reconcile-task-projections.py:785-799 | with `pass`, every required policy request has exactly one receipt, revision-bound, consistent, its head side passed and all its commands ran and are owned |
| TaskProjections.PassCountsAgree | scripts/reconcile-task-projections.py:781-802 | with `pass`, the classified counts say that every required request passed |
| TaskGuarantees.SilentExactlyWhenEntitled | scripts/reconcile-task-projections.py:731-764 | the check of one command is silent exactly when its task holds what the lease entitles it to: `Cpu`, `Memory` and `Disk` by the lease's quantities, one `Build` or `Test`, `Worktree` and `Network` in their cases, and nothing else |
| TaskGuarantees.CommandsHoldTheirLease | scripts/reconcile-task-projections.py:731-764 | for every coherent packet: the owner of a command reserves exactly that of the one lease granted to its receipt, each class once |
| TaskGuarantees.LeasesAreSpentOnce | scripts/reconcile-task-projections.py:630-635 | for every coherent packet: a receipt whose head ran has exactly one granted lease, and the command's owner holds exactly what it entitles to |
| TaskGuarantees.OwnerReportsTheCommand | scripts/reconcile-task-projections.py:521-539 | the owner of a command is named after receipt and side and reports the outcome of the command |
| TaskGuarantees.OwnerReportsTheSensor | scripts/reconcile-task-projections.py:540-546 | the owner of a sensor is named after it and reports its status |
| TaskGuarantees.WhatRanIsVisible | scripts/reconcile-task-projections.py:549-614 | whatever ran has an owner, is queued, no longer planned, and a candidate; what is reused is owned |
| TaskGuarantees.PassIsEarned | scripts/reconcile-task-projections.py:785-799 | with `pass`, every request the policy requires has exactly one receipt; it is bound to the admitted revision, its result passes, its head passed, a discriminating one failed on the base, and each command ran and is owned |
| TaskGuarantees.GateCountsAreTrue | scripts/reconcile-task-projections.py:778-802 | the gate's counts are the numbers of required requests with a passing receipt, a failing one, and the rest |
| TaskGuarantees.ReceiptsAreSound | scripts/reconcile-task-projections.py:434-476 | the receipts of a coherent packet: distinct, at the admitted revision, no side twice, durations measured, and a result one of ten outcomes allows |
| TaskGuarantees.GrantsAreConsumed | scripts/reconcile-task-projections.py:616-629 | the leases of a coherent packet: distinct, within their widths, each granted one consumed by a receipt |
| TaskGuarantees.RoutesRepeatTheReceipts | scripts/reconcile-task-projections.py:839-864 | the routes of a coherent packet: one for each receipt, with its result and exactly its leases |
| ProofResults.ConsistentExactlyWhenShown | scripts/reconcile-task-projections.py:78-113 | a result is consistent exactly when its commands show one of ten outcomes |
| TaskProjections.RoutesMatchReceipts | scripts/reconcile-task-projections.py:839-864 | routes and receipts correspond one to one |
| TaskWitness.ProvenPassHappens | scripts/reconcile-task-projections.py:785-799 | a concrete coherent packet with an event stream that replays, the conclusion `pass` and a required request, so the theorems about those are not empty |
| SurfaceIdentity.EscapeIsInjective | src/compiler_reconciliation.rs:395-414 | escaping the public text loses nothing |
| SurfaceIdentity.IdentityIsInjective | src/compiler_reconciliation.rs:395-414 | two surfaces have the same identity text exactly when all identified fields agree, although the lane is not escaped |
| CompilerReconciliation.InlineIdsCollide | src/compiler_reconciliation.rs:352-362 | with an injective digest, comments share a surface id exactly when they agree publicly, up to an empty suggestion |
| CompilerReconciliation.CollectInputs | src/compiler_reconciliation.rs:160-205 | the three loops list the unresolved inline, summary and follow-up surfaces in order |
| CompilerReconciliation.RetentionSplits | src/compiler_reconciliation.rs:77-89 | the surfaces of each key are a retained prefix, the earliest sources, followed by what is left |
| CompilerReconciliation.RetentionConserves | src/compiler_reconciliation.rs:77-89 | retained and left over together are the inputs, as a multiset |
| CompilerReconciliation.RetainedKeys | src/compiler_reconciliation.rs:77-89 | retained surfaces carry the final keys, in order |
| CompilerReconciliation.RetentionSucceeds | src/compiler_reconciliation.rs:79-89 | retention succeeds exactly when no key is wanted more often than it came in |
| CompilerReconciliation.ExplainedIsWitnessed | src/compiler_reconciliation.rs:222-330 | a removal is explained exactly when it has a witness: an adjudicated loser, a current-head thread, a unique retained inline match or a retained duplicate |
| CompilerReconciliation.RefutationCitesAConflict | src/compiler_reconciliation.rs:228-252 | a refuted removal cites a recorded conflict that one of its claims lost |
| CompilerReconciliation.BuildReceipt | src/compiler_reconciliation.rs:62-117 | the loops that take from `available` build exactly the receipt function |
| CompilerReconciliation.SurfacesAreConserved | src/compiler_reconciliation.rs:62-117 | on success inputs are retained plus removed, retained keys are the final ones in order, duplicates keep the earliest source, and every removal has a true witness |
| CompilerReconciliation.AccountingSucceedsExactlyWhen | src/compiler_reconciliation.rs:62-117 | it succeeds exactly when no key is wanted too often and everything left over has a witness |
| CompilerReconciliation.Outbox.Finalize | src/compiler_reconciliation.rs:121-143 | a failed accounting empties both surfaces and reports one issue; a good one changes nothing |
| CompilerReconciliation.Publish | src/compiler_reconciliation.rs:62-143 | whatever is still published has a conserving receipt |
| CompilerSources.InputsAreTheSources | src/compiler_reconciliation.rs:160-205 | the input surfaces stand, in order, for exactly the comments and findings that no resolved candidate repeats, and the follow-up findings |
| CompilerSources.EveryFindingIsAccountedOnce | src/compiler_reconciliation.rs:62-117 | on success each unresolved comment or finding has exactly one surface, retained or removed, with its own place, text and lane; a resolved one has none; and there are no others |
| CompilerSources.PublishedComment | src/compiler_reconciliation.rs:62-117 | each published comment stands for an unresolved comment that reads the same, in order |
| CompilerSources.PublishedFinding | src/compiler_reconciliation.rs:62-117 | so does each published finding |
| CompilerSources.RemovalIsJustified | src/compiler_reconciliation.rs:222-330 | each removed surface carries the first reason that holds of it, and cites exactly what makes it hold |
| Sorting.SortMeans | src/ci_audit.rs:1526-1530 | sorting orders the elements and keeps each as often as it came |
| CiJobStats.PercentileMeans | src/ci_audit.rs:1453-1460 | the percentile is the one duration that at least that percentage do not exceed and a smaller part lies below |
| CiJobStats.CountJobs | src/ci_audit.rs:1494-1525 | the five count maps hold, for every job, its runs, failures, cancellations, hung cancellations and durations in pull-request runs |
| CiJobStats.CheaperIsTotal | src/ci_audit.rs:1531-1538 | of two jobs exactly one is cheaper, or they are the same in the order |
| CiJobStats.CreditGoesToTheLeastBlocker | src/ci_audit.rs:1561-1574 | a job is credited for a run exactly when it failed and is the least blocking job of that unambiguous run |
| CiJobStats.SomeLeastBlocker | src/ci_audit.rs:1566-1570 | a run with a blocking job has a least one |
| CiJobStats.CreditHasOneOwner | src/ci_audit.rs:1561-1574 | a run credits at most one job |
| CiJobStats.CreditIsConserved | src/ci_audit.rs:1543-1582 | summed over distinct jobs, the credit counts each run that credits one of them once |
| CiJobTable.HasDistinctNames | src/ci_audit.rs:1550-1556 | comparing the number of names with the number of jobs detects repeated names exactly |
| CiJobTable.JudgeFailure | src/ci_audit.rs:1561-1580 | one failed job: blocked exactly when it is not credited, and the jobs it failed together with |
| CiJobTable.CorrelateRuns | src/ci_audit.rs:1539-1582 | the second pass counts credit, passing reruns and ambiguous workflows, and collects co-failing jobs, for every job |
| CiJobTable.ComputeJobStats | src/ci_audit.rs:1481-1634 | one line for each job of the history, with what the history determines, in the order of path and job |
| CiJobTable.TableConservesCredit | src/ci_audit.rs:1543-1634 | all credits of the table sum to the number of unambiguous pull-request runs whose least blocking job failed |
| CiJobTable.WorkflowConservesCredit | src/ci_audit.rs:1543-1582 | so do, for each workflow, the credits of its jobs over its runs |
| CiJobTable.PathConservesCredit | src/ci_audit.rs:1543-1634 | and, in the published table, the credits of the lines of each path |
| CiJobTable.LineIsConsistent | src/ci_audit.rs:1604-1621 | credit at most failures, failures and cancellations at most runs, and the count of missing durations never underflows |
| CiJobTable.CoFailingIsSymmetric | src/ci_audit.rs:1575-1580 | jobs list each other as failing together or not at all, and never themselves |
| CiJobTable.OneIsCheaper | src/ci_audit.rs:1594-1603 | of two jobs of a workflow exactly one is listed as cheaper than the other |
| CiJobMeaning.PercentileExactlyWhen | src/ci_audit.rs:1453-1460 | a percentile of the table is the duration, in whole seconds, that enough of the job's timed runs do not exceed and fewer stay below |
| CiJobMeaning.CreditedExactlyWhenDecided | src/ci_audit.rs:1557-1574 | a run credits a job exactly when its names are distinct, the job failed in it, and every job with a lower median ended in success, skipped or neutral |
| CiJobMeaning.TableSaysTheHistory | src/ci_audit.rs:1481-1634 | one line for each job that ran in a pull request, by path and job; its counts, percentiles, decided runs, companions, cheaper jobs and reruns are those counted over the runs themselves |
| YamlLines.ListAt | src/ci_audit.rs:612-647 | items and cursor of a list value; the cursor is past the key and within the key's block |
| YamlLines.SkipNestedBlock | src/ci_audit.rs:649-659 | the cursor passes exactly the lines indented deeper than the parent |
| YamlLines.PermissionsAt | src/ci_audit.rs:497-546 | permissions of a key, inline or over exactly its block |
| MatrixSize.CappedProduct | src/ci_audit.rs:714-739 | saturating at every step is capping the product once |
| MatrixSize.MatrixSizeAt | src/ci_audit.rs:661-740 | the size is the product of the literal dimensions of the whole block, capped once and at least one; the cursor is the block's end |
| MatrixSize.StrategySizeAt | src/ci_audit.rs:742-782 | the last matrix of the block decides the size, at least one; the cursor is the block's end |
| WorkflowScan.ScanJob | src/ci_audit.rs:907-974 | a job is what the read lines under its head say, in order; which lines are read is stated without a cursor |
| WorkflowScan.FrontierMoves | src/ci_audit.rs:916-963 | a cursor past all blocks stands on a read line, the lines its block takes are not read, and the next cursor is past all blocks again |
| WorkflowScan.UnreadLiesInABlock | src/ci_audit.rs:920-948 | a body line that is not read is deeper than a read runs-on, strategy or permissions line that takes it along |
| WorkflowScan.ScanLines | src/ci_audit.rs:790-979 | the cursors terminate and find each job head, each trigger name, the last top-level permissions and the secret references of the top level, all characterised without cursors |
| WorkflowScan.ScanWorkflow | src/ci_audit.rs:790-991 | for every text, the scan of its prepared lines and whether a line cancels runs in progress |
| YamlComments.StripComment | src/ci_audit.rs:422-439 | a line is cut at its first `#` outside quotes that starts it or follows white space |
| YamlComments.StrippingIsStable | src/ci_audit.rs:422-439 | a cut line has no comment left |
| YamlComments.PrepareLines | src/ci_audit.rs:791-802 | the lines of a text with their indents, without comments and blanks |
| WorkflowScan.BodiesDoNotOverlap | src/ci_audit.rs:891-977 | no line is read into two jobs |
| WorkflowScan.NestedBlocks | src/ci_audit.rs:915-963 | the block of a line inside a block ends inside it, so a cursor never leaves the job it is in |
| WorkflowMeaning.LineSays | src/ci_audit.rs:915-963 | each key of a job line acts on its own field and on no other |
| WorkflowMeaning.JobSaysItsLines | src/ci_audit.rs:907-974 | a job is, of the lines read: the last timeout that is a number, the last permissions, the last strategy's size, the first name that is not blank, and every runner, action, gap and secret, in order |
| WorkflowMeaning.BranchesSayTheirLines | src/ci_audit.rs:833-872 | the branches and paths of a trigger are those under its three keys |
| WorkflowMeaning.TriggerIsNamed | src/ci_audit.rs:833-888 | a trigger is named once for each branch, or alone when it has none |
| WorkflowMeaning.JobsAreTheHeads | src/ci_audit.rs:891-977 | the jobs of a file are those of the lines that head one, in order |
| Base64.DecodeEncode | src/ci_audit.rs:3092-3114 | a decoder that knows only the alphabet recovers every byte sequence |
| Base64.Shape | src/ci_audit.rs:3094-3111 | four characters for each three bytes begun, and padding only at the end, as the length modulo three decides |
| Base64.EncodeStandard | src/ci_audit.rs:3092-3114 | the loop over chunks produces that encoding |
| TomlDocuments.CleanEntriesSound | src/config.rs:1283-1297 | stripping a table by sound rules leaves a stable sub-document and reports exactly its changes |
| TomlDocuments.ItemsSound | src/config.rs:1522-1528 | keeping the valid items of an array is a sound rule |
| TomlDocuments.SectionSound | src/config.rs:1306-1344 | so is validating a section key by key, also when an emptied table is dropped |
| ConfigSanitizer.SanitizedIsStable | src/config.rs:1061-1088 | the result is a sub-document whose surviving values are unchanged, and a second pass changes and reports nothing |
| ConfigSanitizer.NoReceiptsExactlyWhenUnchanged | src/config.rs:1061-1088 | receipts are empty exactly when nothing was removed |
| ConfigSanitizer.UnreportedSurvives | src/config.rs:1052-1060 | whatever no receipt concerns, above or below it, keeps its value: valid siblings of a stripped key survive |
| ConfigSanitizer.NoReceiptsExactlyWhenValid | src/config.rs:1093-1576 | nothing is reported exactly when every section passes its own validation |
| ConfigSanitizer.SanitizedIsValid | src/config.rs:1061-1576 | what is left passes it, tool-gate siblings included |
| ConfigSurvivors.SectionsThatSurvive | src/config.rs:1061-1088 | which sections survive, and that those without a policy stay unchanged |
| ConfigSurvivors.GateKeysThatSurvive | src/config.rs:1306-1344 | a gate key survives unchanged exactly when the gate policy reads it by itself and it is not the removed mode |
| ConfigSurvivors.ImpactKeysThatSurvive | src/config.rs:1093-1139 | only an impact mode of `shadow` or `active` survives |
| ConfigSurvivors.ToolKeysThatSurvive | src/config.rs:1352-1422 | which keys of a tool survive |
| ConfigSurvivors.ToolGateThatSurvives | src/config.rs:1424-1471 | a tool gate survives exactly when it was empty or keeps a key, and keeps exactly the keys that pass |
| ConfigSurvivors.ProofsThatSurvive | src/config.rs:1478-1576 | the entries of required proofs that survive: those that read, name a command and select known classes and languages, in any case and spelling |
| ConfigSurvivors.ProvidersThatSurvive | src/config.rs:1160-1260 | which providers and policies survive |
| ConfigSurvivors.ProviderKeysThatSurvive | src/config.rs:1160-1260 | of a provider every key survives but a concurrency that is not positive and a cache mode that is not its own |
| ConfigSurvivors.ReceiptsNameLosses | src/config.rs:1052-1060 | every receipt names a place the document had and no longer has, or an item of an array |
| ConfigPass.Pass.SanitizePolicySections | src/config.rs:1061-1088 | the pass over the document in place gives that result and pushes each of those receipts once |
| ConfigPass.Pass.SanitizeToolGate | src/config.rs:1424-1471 | a tool gate keeps its valid keys, loses an unknown scope, and is dropped when it had keys and loses them all |
| ConfigPass.Pass.SanitizeTools | src/config.rs:1352-1422 | every tool table keeps exactly its valid keys |
| ConfigPass.Pass.SanitizeProof | src/config.rs:1478-1529 | only the array of required policies stays, with its valid entries in order and a receipt for each other by its place |
| ConfigPass.Pass.SanitizeProviders | src/config.rs:1160-1260 | provider policy, concurrency and cache keys that fail are stripped, everything else stays |
| QualityBootstrap.RetriesAreTransient | scripts/quality-bootstrap.py:173-193 | attempts on one query stand together, are numbered without a gap, and every one but the last failed transiently |
| QualityBootstrap.AtMostFourAttempts | scripts/quality-bootstrap.py:174-189 | no query is tried more than four times |
| QualityBootstrap.Collector.ReadQuery | scripts/quality-bootstrap.py:173-193 | reads are asked for inside the budget and, when the client honours its timeouts, answered inside it; pauses end inside the budget; without failures the query is answered |
| QualityBootstrap.Collector.Promote | scripts/quality-bootstrap.py:134-158 | under any outcomes of the file operations, a crash included, the destination is the old entry, the complete new snapshot, or absent with the old one as newest backup; success only for the new one |
| QualityBootstrap.Collector.Collect | scripts/quality-bootstrap.py:161-212 | when the client honours its timeouts reading ends inside the budget; promotion starts strictly inside it, of the complete reply to each query under that query's name and the numbers of the second, and no other file; a success receipt is in place only when the destination is the complete new snapshot; and a collection without failures succeeds |
| QualityBootstrap.SteadyClient | scripts/quality-bootstrap.py:179-183 | a client that honours its timeouts and never fails exists |
| QualityBootstrap.CompletedCollection | scripts/quality-bootstrap.py:161-212 | with it a collection completes, with calls made and all answered inside the budget |
| Decimal.PaddedDiffer | src/candidate.rs:201-205 | zero-padded numerals differ exactly when the numbers do |
| Candidates.BuildCandidates | src/candidate.rs:180-249 | comments, then findings, numbered throughout |
| Candidates.IdsDiffer | src/candidate.rs:201-205 | candidate ids are pairwise distinct by their index alone, whatever the digests |
| Candidates.CandidateReviewSurfaces | src/candidate.rs:329-417 | reading the queue stops at the first candidate it cannot accept |
| Candidates.QueueRoundTrip | src/candidate.rs:180-417 | reading back what was built succeeds exactly when every comment is on the RIGHT side, and then returns the comments with only suggestions normalized and the findings |
| CandidateFates.DispositionExactlyWhen | src/candidate.rs:251-285 | a finding is parked, else refuted, else dropped as merged or trifling, else stays, by the words its reason and evidence mention in any case |
| CandidateFates.ReadExactlyWhen | src/candidate.rs:329-417 | a candidate reads back as a comment, as a finding, or not at all, exactly by its schema, source, status, disposition and place |
| CandidateFates.GroupsHoldTheirMembers | src/candidate.rs:426-478 | each group lists in queue order exactly the candidates of its disposition and need, and their lanes; groups are in strict order |
| CandidateFates.NeedExactlyWhen | src/follow_up_routing.rs:73-92 | the evidence a candidate needs is decided by its disposition, and for a summary by the first it mentions of proof, route and test |
| Candidates.BuildGroups | src/candidate.rs:426-478 | one group for each disposition and evidence need that occurs, in order, with its members in order |
| Candidates.GroupsPartition | src/candidate.rs:426-478 | the groups count every candidate once: duplicates plus one sum to their number |
| Candidates.ListedInOneGroup | src/candidate.rs:426-478 | each candidate of a queue is listed by its id in exactly one group, that of its disposition and evidence need |

## Left out

- Refusal, issue and receipt texts: what was refused or reported is modelled, its wording is not; codes that only choose a wording are merged.
- Run titles and labels are kept parsed; the spelling of the two regular expressions in `scripts/premerge-admission.py` is not modelled.
- HTTP, paging transport, `prepare`, signal deadlines and report files of the Python scripts: input and output.
- Comments may be edited or deleted between reads of an execution; the admission theorems do not depend on comments staying.
- AdmissionSafety.TransitionRefuses: speaks of executions whose rows reach the transition; a listing may lack the newest runs (`ListsRuns` allows missing rows), and then the code admits, as `AdmissionWitness.StoppingShortAdmits` shows.
- Publication: Python's equality of `True` and `1` inside nested objects, JSON numbers that are not integers (Python accepts `1.0` for `1`), the rendering of a public comment body (a parameter), and the byte budget of its packet reader, which is the one of `TaskPacket.Packet.Read`.
- TaskProjections.Reconcile: the comparisons with queue order, portfolio, calibration, metrics, fill ledger and scheduler, the revision joins of gate, leases and routes, and the schema checks of gate and leases enter as the list of issues they raised; worker and legacy packets, sensor reservations and the overflow of the duration sum are not modelled.
- TaskLedger: task limits, the text of reasons, measured durations and the decoding of a line are not modelled; receipt references are parsed.
- Text tests for blanks use ASCII white space; the sources use Unicode white space.
- CompilerReconciliation: subject overlap, public-claim comparison and structural claim ids are parameters; the receipt's artifact file is not modelled.
- CiJobStats.PercentileMeans: exact rationals instead of floating point; rates and cost estimates are not modelled.
- CiJobTable.ComputeJobStats: durations add up without a 64-bit bound, and co-failing jobs are a set, not a sorted list.
- WorkflowScan.ScanWorkflow: the search for secret references in a line is a parameter; evidence gaps are data, not text.
- ConfigPass: receipts of one pass come in some order, since a table's key order is not part of the model; which single-key tables deserialize is a parameter.
- QualityBootstrap: replies come already validated and classified; symbolic links count as entries that are no directory; the receipt's other fields are not modelled.
- Candidates: routed evidence, follow-up tasks and reasons of groups, and the lanes of a group as a sorted list.
- `should_continue_convergence`, `build_claim_graph_from_inputs` and `check_causal_relevance` of `src/claim_graph.rs`, cost artifacts, calibration and analyzer selection: conjunctions or counters that one branch settles.
