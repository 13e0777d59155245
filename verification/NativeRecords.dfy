/** The GitHub records the pre-merge admission adapter reads, and the webhook that starts one run of it
    (`scripts/premerge-admission.py`). Identifiers and times are integers; commit ids, logins and labels are strings.
    The record a run title spells out is kept parsed (`Title`), because every decision depends on its fields and never
    on its spelling. */
module NativeRecords {
  import opened Collections

  datatype Lane = Gate | Baseline

  // ---------------------------------------------------------------- requests

  datatype Cause = Terminal | Withdrawal

  datatype Retry = Retry(generation: int, priorRequest: string, gateRun: int, baselineRun: int, cause: Cause) {
    function Run(lane: Lane): int { if lane.Gate? then gateRun else baselineRun }
  }

  /** Every request field except `retry`. */
  datatype Subject = Subject(
    repository: string, pr: int, headRepository: string, headSha: string,
    baseRef: string, baseSha: string, mergeSha: string, mergeTree: string,
    policySha256: string, ownerId: int, objective: string,
    reviewIds: seq<int>, reviewGeneration: string)

  datatype Request = Request(subject: Subject, retry: Option<Retry>) {
    function Generation(): int { if retry.Some? then retry.value.generation else 0 }
  }

  datatype Comment = Comment(id: int, userId: int, isUser: bool, association: string, body: string, createdAt: int)

  /** `label` is the `ci:` label of some comment bytes, `decode` the strict JSON
      reader (`None` for anything that is not one object with exactly the request
      fields and types), `digest` the SHA-256 of a request's canonical form, and
      `generation` the digest of the selected reviews. */
  datatype Codec = Codec(
    labelOf: string -> string,
    decode: string -> Option<Request>,
    digest: Request -> string,
    generation: seq<Review> -> string)

  /** Two different comment bodies never carry the same label: SHA-256 has no collision here. */
  ghost predicate CollisionFree(c: Codec) {
    forall a, b :: c.labelOf(a) == c.labelOf(b) ==> a == b
  }

  // ----------------------------------------------------- reviews and events

  datatype ReviewState = Pending | Commented | Approved | ChangesRequested | Dismissed | UnknownState

  datatype Review = Review(
    id: int, userId: int, state: ReviewState, commitId: string,
    submittedAt: Option<int>, body: string, association: string)

  datatype EdgeKind = Labeled | Unlabeled

  datatype NativeEvent =
    | LabelEdge(kind: EdgeKind, labelName: string, actorId: int, createdAt: int)
    | ReviewDismissal(reviewId: int, state: ReviewState, createdAt: int)
    | OtherEvent(createdAt: int)

  // ------------------------------------------------------------ workflow runs

  datatype Trigger = PullRequest | PullRequestTarget | PullRequestReview | WorkflowDispatch | OtherTrigger

  datatype Tag = Ci(labelName: string) | ReviewTag(reviewId: int, state: string) | OtherTag

  /** `Legacy` titles lack the protocol prefix. `Garbled` ones have it but do not
      parse; their pull-request number may still be readable. */
  datatype Title =
    | Legacy
    | Garbled(number: Option<int>)
    | Titled(pr: int, head: string, base: string, baseRef: string, action: string, actor: int, tag: Tag)

  datatype Source = Source(workflowId: int, path: string, repository: string)

  datatype PullRef = PullRef(number: int, headSha: string, baseSha: string, baseRef: string)

  datatype Conclusion = Success | Failure | Cancelled | TimedOut | OtherConclusion

  datatype Progress = Progress(attempt: int, completed: bool, conclusion: Conclusion, updatedAt: int)

  /** What never changes about a run. */
  datatype RunFacts = RunFacts(
    id: int, number: int, source: Source, trigger: Trigger, title: Title, headSha: string, actorId: int)

  datatype Row = Row(facts: RunFacts, pulls: seq<PullRef>, progress: Progress)

  datatype Anchor = Anchor(source: Source, id: int, floor: int)

  const REPO := "EffortlessMetrics/ub-review"

  function AnchorOf(lane: Lane): Anchor {
    match lane
    case Gate => Anchor(Source(289600864, ".github/workflows/ub-review-gate.yml", REPO), 39015965204, 1858)
    case Baseline => Anchor(Source(342497115, ".github/workflows/independent-baseline.yml", REPO), 39015965202, 678)
  }

  function RequestTrigger(lane: Lane): Trigger {
    if lane.Baseline? then PullRequestTarget else PullRequest
  }

  // ---------------------------------------------- pull request and webhook

  datatype Assignee = Assignee(id: int, login: string)

  datatype Live = Live(
    open: bool, draft: bool, mergeable: bool, headRepository: string, headSha: string,
    baseRef: string, baseSha: string, baseRepository: string,
    assignees: seq<Assignee>, labels: seq<string>, mergeCommitSha: string)

  datatype Permission = Permission(userId: int, level: string)

  datatype Objective = Objective(open: bool, isPullRequest: bool)

  datatype Commit = Commit(sha: string, tree: string, parents: seq<string>)

  datatype Artifact = Artifact(name: string, expired: bool, size: int, digestOk: bool, runId: int, headSha: string)

  datatype Webhook = Webhook(
    name: string, action: string, labelName: string, baseChanged: bool, reviewId: int, reviewState: string,
    repository: string, isPrivate: bool, senderId: int, senderIsUser: bool,
    number: int, headRepository: string, headSha: string, baseRef: string, baseSha: string, baseRepository: string)

  /** Every API answer one execution may read. */
  datatype Snapshot = Snapshot(
    live: Live, comments: seq<Comment>, permission: Permission, objective: Objective,
    reviews: seq<Review>, merge: Commit, events: seq<NativeEvent>,
    gateAnchor: Anchor, gatePages: seq<seq<Row>>, baselineAnchor: Anchor, baselinePages: seq<seq<Row>>,
    artifacts: seq<Artifact>)
  {
    function Pages(lane: Lane): seq<seq<Row>> { if lane.Gate? then gatePages else baselinePages }
    function AnchorRun(lane: Lane): Anchor { if lane.Gate? then gateAnchor else baselineAnchor }
  }
}
