/** The pre-merge admission rules of `scripts/premerge-admission.py` as functions of one snapshot. Every refusal of
    the adapter, whatever its reason text, is `None` or `Refused`: the adapter publishes the same rejected result for
    all of them. */
module AdmissionPolicy {
  import opened Collections
  import opened NativeRecords

  // ------------------------------------------------------------ request bytes

  predicate AllIn(s: string, alphabet: string) { forall ch :: ch in s ==> ch in alphabet }

  const HEX := "0123456789abcdef"
  const DIGITS := "0123456789"
  const LETTERS := UPPER + LOWER
  const UPPER := "ABCDEFGHIJKLMNOPQRSTUVWXYZ"
  const LOWER := "abcdefghijklmnopqrstuvwxyz"
  const BASE64URL := LETTERS + DIGITS + "_-"
  const LOGIN := LETTERS + DIGITS + "-"
  const ISSUES := "https://github.com/EffortlessMetrics/ub-review/issues/"

  predicate Hex(s: string, n: nat) { |s| == n && AllIn(s, HEX) }

  predicate IsCiLabel(s: string) { |s| == 46 && s[..3] == "ci:" && AllIn(s[3..], BASE64URL) }

  predicate IssueUrl(s: string) {
    && |ISSUES| < |s| && s[..|ISSUES|] == ISSUES
    && s[|ISSUES|] != '0' && AllIn(s[|ISSUES|..], DIGITS)
  }

  predicate StrictlyAscending(s: seq<int>) { forall i, j :: 0 <= i < j < |s| ==> s[i] < s[j] }

  predicate BoundedRetry(r: Option<Retry>) {
    r.Some? ==>
      && 1 <= r.value.generation <= 3 && Hex(r.value.priorRequest, 64)
      && r.value.gateRun > 0 && r.value.baselineRun > 0
  }

  predicate MayRequest(association: string) { association in {"OWNER", "MEMBER", "COLLABORATOR"} }

  /** The field checks `request_for` makes on decoded bytes. */
  predicate WellFormed(q: Request) {
    var u := q.subject;
    && Hex(u.headSha, 40) && Hex(u.baseSha, 40) && Hex(u.mergeSha, 40) && Hex(u.mergeTree, 40)
    && Hex(u.policySha256, 64) && Hex(u.reviewGeneration, 64)
    && u.pr > 0
    && u.reviewIds != [] && (forall i :: i in u.reviewIds ==> i > 0) && StrictlyAscending(u.reviewIds)
    && IssueUrl(u.objective)
    && BoundedRetry(q.retry)
  }

  function FirstPosted(comments: seq<Comment>): (r: Comment)
    requires comments != []
    ensures r in comments && forall m :: m in comments ==> r.id <= m.id
  {
    if |comments| == 1 then comments[0]
    else
      var rest := FirstPosted(comments[1..]);
      if comments[0].id <= rest.id then comments[0] else rest
  }

  function LabelMatches(c: Codec, comments: seq<Comment>, labelName: string, owner: Option<int>): seq<Comment> {
    Filter((m: Comment) => c.labelOf(m.body) == labelName && (owner.None? || m.userId == owner.value), comments)
  }

  function RequestFor(c: Codec, comments: seq<Comment>, labelName: string, owner: Option<int>): (r: Option<Request>)
    ensures r.Some? ==> WellFormed(r.value)
    ensures r.Some? && owner.Some? ==> r.value.subject.ownerId == owner.value
  {
    var matches := LabelMatches(c, comments, labelName, owner);
    if matches == [] then None
    else
      var first := FirstPosted(matches);
      match c.decode(first.body)
      case None => None
      case Some(q) =>
        if first.isUser && MayRequest(first.association) && q.subject.ownerId == first.userId && WellFormed(q)
        then Some(q) else None
  }

  /** A label resolves only to what its one preimage decodes to, for its owner. */
  lemma RequestForReads(c: Codec, comments: seq<Comment>, labelName: string, owner: Option<int>) returns (body: string)
    requires RequestFor(c, comments, labelName, owner).Some?
    ensures c.labelOf(body) == labelName && c.decode(body) == RequestFor(c, comments, labelName, owner)
  {
    body := FirstPosted(LabelMatches(c, comments, labelName, owner)).body;
  }

  /** However the comments changed in between, one label never resolves to two requests. */
  lemma LabelDeterminesRequest(
    c: Codec, before: seq<Comment>, after: seq<Comment>, labelName: string, o: Option<int>, p: Option<int>)
    requires CollisionFree(c)
    requires RequestFor(c, before, labelName, o).Some? && RequestFor(c, after, labelName, p).Some?
    ensures RequestFor(c, before, labelName, o) == RequestFor(c, after, labelName, p)
  {
    var a := RequestForReads(c, before, labelName, o);
    var b := RequestForReads(c, after, labelName, p);
  }

  // ---------------------------------------------------------------- `current`

  /** Five pages of one hundred; a full fifth page refuses. */
  predicate Paged(n: nat) { n < 500 }

  predicate SubjectIsLive(u: Subject, e: Webhook, live: Live) {
    && u.repository == REPO && u.pr == e.number
    && u.headRepository == e.headRepository == live.headRepository
    && u.headSha == e.headSha == live.headSha
    && u.baseRef == e.baseRef == live.baseRef == "main"
    && e.baseRepository == live.baseRepository == REPO
    && u.baseSha == e.baseSha == live.baseSha
  }

  predicate OwnerMayAdmit(u: Subject, live: Live, p: Permission) {
    && |live.assignees| == 1 && live.assignees[0].id == u.ownerId
    && 1 <= |live.assignees[0].login| <= 39 && AllIn(live.assignees[0].login, LOGIN)
    && p.userId == u.ownerId && p.level in {"write", "admin"}
  }

  function ActiveLabels(c: Codec, comments: seq<Comment>, labels: seq<string>, u: Subject): seq<string> {
    Filter((name: string) =>
      && IsCiLabel(name)
      && var r := RequestFor(c, comments, name, Some(u.ownerId));
         r.Some? && r.value.subject.headSha == u.headSha && r.value.subject.baseSha == u.baseSha, labels)
  }

  predicate SelectedReviewsStand(u: Subject, reviews: seq<Review>) {
    forall id :: id in u.reviewIds ==> SelectedReviewStands(u, reviews, id)
  }

  predicate SelectedReviewStands(u: Subject, reviews: seq<Review>, id: int) {
    exists r :: r in reviews && r.id == id && r.commitId == u.headSha && r.state in {Approved, Commented}
                && NotBlank(r.body) && MayRequest(r.association)
  }

  predicate NotBlank(s: string) { exists ch :: ch in s && ch !in {' ', '\t', '\n', '\r'} }

  predicate Decisive(r: Review) { r.state in {Approved, ChangesRequested} }

  /** Some reviewer's latest decisive submissions include a change request. */
  predicate Blocked(reviews: seq<Review>) {
    exists r :: r in reviews && r.state == ChangesRequested && r.submittedAt.Some? &&
      forall o :: o in reviews && Decisive(o) && o.userId == r.userId && o.submittedAt.Some?
                  ==> o.submittedAt.value <= r.submittedAt.value
  }

  predicate ReviewStatesKnown(reviews: seq<Review>) {
    forall r :: r in reviews ==> r.state != UnknownState && (Decisive(r) ==> r.submittedAt.Some?)
  }

  predicate Integrates(u: Subject, live: Live, m: Commit) {
    && live.mergeCommitSha == u.mergeSha && m.sha == u.mergeSha && m.tree == u.mergeTree
    && m.parents == [u.baseSha, u.headSha]
  }

  function EdgesOf(events: seq<NativeEvent>, labelName: string): seq<NativeEvent> {
    Filter((e: NativeEvent) => e.LabelEdge? && e.labelName == labelName, events)
  }

  predicate EdgesStand(events: seq<NativeEvent>, labelName: string, owner: int) {
    var edges := EdgesOf(events, labelName);
    edges != [] && forall e :: e in edges ==> e.kind == Labeled && e.actorId == owner
  }

  function FirstTime(events: seq<NativeEvent>): (t: int)
    requires events != []
    ensures exists e :: e in events && e.createdAt == t
    ensures forall e :: e in events ==> t <= e.createdAt
  {
    if |events| == 1 then events[0].createdAt
    else
      var rest := FirstTime(events[1..]);
      assert forall e :: e in events ==> e == events[0] || e in events[1..];
      if events[0].createdAt <= rest then events[0].createdAt else rest
  }

  /** A change request submitted at or after `at` is on record, or was dismissed since. */
  predicate ReviewRetires(reviews: seq<Review>, events: seq<NativeEvent>, at: int) {
    || (exists r :: r in reviews && r.state == ChangesRequested && r.submittedAt.Some? && r.submittedAt.value >= at)
    || (exists e :: e in events && e.ReviewDismissal? && DismissalRetires(reviews, e, at))
  }

  predicate DismissalRetires(reviews: seq<Review>, e: NativeEvent, at: int)
    requires e.ReviewDismissal?
  {
    || e.reviewId <= 0
    || e.state !in {Commented, Approved, ChangesRequested}
    || (e.state == ChangesRequested && e.createdAt >= at &&
        !exists r :: r in reviews && r.id == e.reviewId && r.submittedAt.Some? && r.submittedAt.value < at)
  }

  /** `current`: the request the event's label names, if everything about it still stands. */
  function Current(c: Codec, s: Snapshot, e: Webhook, policy: string): (r: Option<Request>)
    ensures r.Some? ==> WellFormed(r.value)
  {
    match RequestFor(c, s.comments, e.labelName, Some(e.senderId))
    case None => None
    case Some(q) =>
      var u := q.subject;
      if && e.repository == REPO && !e.isPrivate && e.senderIsUser
         && Paged(|s.comments|) && Paged(|s.reviews|) && Paged(|s.events|)
         && s.live.open && !s.live.draft && s.live.mergeable
         && SubjectIsLive(u, e, s.live) && OwnerMayAdmit(u, s.live, s.permission)
         && u.policySha256 == policy
         && e.labelName in s.live.labels && ActiveLabels(c, s.comments, s.live.labels, u) == [e.labelName]
         && s.objective.open && !s.objective.isPullRequest
         && c.generation(Filter((r: Review) => r.id in u.reviewIds, s.reviews)) == u.reviewGeneration
         && SelectedReviewsStand(u, s.reviews) && ReviewStatesKnown(s.reviews) && !Blocked(s.reviews)
         && Integrates(u, s.live, s.merge)
         && EdgesStand(s.events, e.labelName, u.ownerId)
         && !ReviewRetires(s.reviews, s.events, FirstTime(EdgesOf(s.events, e.labelName)))
      then Some(q) else None
  }

  // ---------------------------------------------------------------- `history`

  function Numbers(rows: seq<Row>): (r: set<int>) { set row | row in rows :: row.facts.number }

  predicate HasId(rows: seq<Row>, id: int) { exists row :: row in rows && row.facts.id == id }

  predicate Authentic(batch: seq<Row>, source: Source, seen: set<int>) {
    && (forall row :: row in batch ==> row.facts.source == source && row.facts.id !in seen)
    && (forall i, j :: 0 <= i < j < |batch| ==> batch[i].facts.id != batch[j].facts.id)
  }

  function Ids(batch: seq<Row>): set<int> { set row | row in batch :: row.facts.id }

  function PageAt(pages: seq<seq<Row>>, k: nat): seq<Row> { if k < |pages| then pages[k] else [] }

  function AboveFloor(batch: seq<Row>, floor: int): seq<Row> {
    Filter((row: Row) => row.facts.number >= floor, batch)
  }

  /** Pages are read until the anchor row turns up; twelve without it refuse. */
  function Gather(pages: seq<seq<Row>>, a: Anchor, k: nat, rows: seq<Row>, seen: set<int>): Option<seq<Row>>
    decreases 12 - k
  {
    if k >= 12 then None
    else
      var batch := PageAt(pages, k);
      if !(0 < |batch| <= 100) || !Authentic(batch, a.source, seen) then None
      else
        var grown := rows + AboveFloor(batch, a.floor);
        if HasId(grown, a.id) then Some(grown)
        else Gather(pages, a, k + 1, grown, seen + Ids(batch))
  }

  /** The run numbers are exactly `floor`, `floor + 1`, ... up to the largest, each once. */
  predicate GapFree(rows: seq<Row>, floor: int) {
    && rows != []
    && (forall row :: row in rows ==> floor <= row.facts.number < floor + 1200)
    && (forall i, j :: 0 <= i < j < |rows| ==> rows[i].facts.number != rows[j].facts.number)
    && (forall row, n :: row in rows && floor <= n < row.facts.number ==> n in Numbers(rows))
  }

  function CompleteRows(s: Snapshot, lane: Lane): Option<seq<Row>> {
    var a := AnchorOf(lane);
    if s.AnchorRun(lane) != a then None
    else match Gather(s.Pages(lane), a, 0, [], {})
         case None => None
         case Some(rows) => if GapFree(rows, a.floor) then Some(rows) else None
  }

  function OwnRow(rows: seq<Row>, runId: int): Option<Row> {
    var own := Filter((row: Row) => row.facts.id == runId, rows);
    if |own| == 1 then Some(own[0]) else None
  }

  // ------------------------------------------------------------------ `elect`

  datatype Verdict = Skip | Candidate | Refuse

  predicate Associated(row: Row, pr: int) { exists p :: p in row.pulls && p.number == pr }

  predicate AssociatedExactly(row: Row, number: int, head: string, base: string, baseRef: string) {
    PullRef(number, head, base, baseRef) in row.pulls
  }

  /** A later run whose event retires the request of `label`. */
  predicate Material(row: Row, q: Request, labelName: string)
    requires row.facts.title.Titled?
  {
    var t := row.facts.title;
    || (row.facts.trigger == PullRequestReview && t.tag.ReviewTag? &&
        (|| (t.action == "submitted" && t.tag.state == "changes_requested")
         || (t.action in {"edited", "dismissed"} && t.tag.reviewId in q.subject.reviewIds)))
    || t.action in {"synchronize", "converted_to_draft", "closed"}
    || (t.action == "edited" && (t.head != q.subject.headSha || t.base != q.subject.baseSha || t.baseRef != "main"))
    || (t.action == "unlabeled" && t.tag == Ci(labelName))
  }

  predicate Requests(row: Row, owner: int)
    requires row.facts.title.Titled?
  {
    row.facts.title.action == "labeled" && row.facts.title.tag.Ci? && row.facts.title.actor == owner
  }

  /** What one history row says about the run `own` asking for `q` through `label`. */
  function Judge(c: Codec, comments: seq<Comment>, q: Request, labelName: string, own: Row, row: Row): Verdict {
    if row.facts.trigger == WorkflowDispatch then Skip
    else match row.facts.title
      case Legacy => Skip
      case Garbled(number) =>
        if number.Some? && number.value != q.subject.pr && !Associated(row, q.subject.pr) then Skip else Refuse
      case Titled(pr, head, base, baseRef, action, actor, tag) =>
        if pr != q.subject.pr then (if Associated(row, q.subject.pr) then Refuse else Skip)
        else if row.facts.headSha != head || row.facts.actorId != actor then Refuse
        else if row.facts.number <= own.facts.number then
          if !Requests(row, q.subject.ownerId) then Skip
          else if row.facts.trigger != own.facts.trigger then Refuse
          else match RequestFor(c, comments, tag.labelName, Some(actor))
            case None => Refuse
            case Some(p) =>
              if || p.subject.pr != pr || p.subject.headSha != head || p.subject.baseSha != base
                 || p.subject.baseRef != baseRef || !AssociatedExactly(row, pr, head, base, baseRef)
              then Refuse
              else if p == q then Candidate else Skip
        else if Material(row, q, labelName) then Refuse
        else Skip
  }

  function Earliest(rows: seq<Row>): (r: Row)
    requires rows != []
    ensures r in rows && forall row :: row in rows ==> r.facts.number <= row.facts.number
  {
    if |rows| == 1 then rows[0]
    else
      var rest := Earliest(rows[1..]);
      if rows[0].facts.number <= rest.facts.number then rows[0] else rest
  }

  function Candidates(c: Codec, comments: seq<Comment>, q: Request, labelName: string, own: Row, rows: seq<Row>): seq<Row> {
    Filter((row: Row) => Judge(c, comments, q, labelName, own, row) == Candidate, rows)
  }

  /** The elected run of a request: the earliest native run that asked for the same one. */
  function Elect(c: Codec, s: Snapshot, labelName: string, lane: Lane, runId: int, q: Request): Option<Row> {
    match CompleteRows(s, lane)
    case None => None
    case Some(rows) =>
      match OwnRow(rows, runId)
      case None => None
      case Some(own) =>
        if || own.facts.trigger != RequestTrigger(lane) || own.facts.headSha != q.subject.headSha
           || own.facts.actorId != q.subject.ownerId
           || (exists row :: row in rows && Judge(c, s.comments, q, labelName, own, row) == Refuse)
        then None
        else
          var candidates := Candidates(c, s.comments, q, labelName, own, rows);
          if HasId(candidates, runId) then Some(Earliest(candidates)) else None
  }

  // ---------------------------------------------------------- `validate_retry`

  function PriorMatches(c: Codec, comments: seq<Comment>, all: seq<Comment>, identity: string, owner: int): (r: seq<Request>)
    ensures forall q :: q in r ==> WellFormed(q) && c.digest(q) == identity && q.subject.ownerId == owner
  {
    if comments == [] then []
    else
      var m := comments[0];
      var rest := PriorMatches(c, comments[1..], all, identity, owner);
      if m.userId != owner then rest
      else match RequestFor(c, all, c.labelOf(m.body), Some(owner))
        case None => rest
        case Some(q) =>
          if c.digest(q) == identity then [q] + rest else rest
  }

  /** `prior_request`: the owner's first comment that digests to `identity`. */
  function PriorRequest(c: Codec, comments: seq<Comment>, identity: string, owner: int): (r: Option<Request>)
    ensures r.Some? ==> WellFormed(r.value) && c.digest(r.value) == identity && r.value.subject.ownerId == owner
  {
    var found := PriorMatches(c, comments, comments, identity, owner);
    if found == [] then None else Some(found[0])
  }

  /** How one history row bears on the settled predecessor `parent`. */
  function JudgePredecessor(c: Codec, comments: seq<Comment>, parent: Request, lane: Lane, row: Row): Verdict {
    match row.facts.title
    case Legacy => Skip
    case Garbled(_) => Refuse
    case Titled(pr, head, base, baseRef, action, actor, tag) =>
      var u := parent.subject;
      if pr != u.pr || !Requests(row, u.ownerId) then Skip
      else match RequestFor(c, comments, tag.labelName, Some(u.ownerId))
        case None => Refuse
        case Some(p) =>
          if p != parent then Skip
          else if && row.facts.trigger == RequestTrigger(lane) && row.facts.actorId == u.ownerId
                  && row.facts.headSha == head == u.headSha && base == u.baseSha && baseRef == u.baseRef
                  && AssociatedExactly(row, u.pr, head, base, baseRef)
          then Candidate else Refuse
  }

  function Predecessors(c: Codec, comments: seq<Comment>, parent: Request, lane: Lane, rows: seq<Row>): seq<Row> {
    Filter((row: Row) => JudgePredecessor(c, comments, parent, lane, row) == Candidate, rows)
  }

  predicate Terminated(p: Progress) { p.attempt == 1 && p.completed && p.conclusion != OtherConclusion }

  /** The settled run a retry names in one lane, provided it is the elected one. */
  function Settled(c: Codec, s: Snapshot, parent: Request, lane: Lane, runId: int): (r: Option<Row>)
    ensures r.Some? ==> r.value.facts.id == runId && Terminated(r.value.progress)
    ensures r.Some? ==> r.value.facts.title.Titled? && r.value.facts.title.tag.Ci?
  {
    match CompleteRows(s, lane)
    case None => None
    case Some(rows) =>
      match OwnRow(rows, runId)
      case None => None
      case Some(_) =>
        var candidates := Predecessors(c, s.comments, parent, lane, rows);
        if (exists row :: row in rows && JudgePredecessor(c, s.comments, parent, lane, row) == Refuse) || candidates == []
        then None
        else
          var winner := Earliest(candidates);
          if winner.facts.id == runId && Terminated(winner.progress) then Some(winner) else None
  }

  function Later(a: int, b: int): int { if a < b then b else a }

  function Withdrawals(events: seq<NativeEvent>, labelName: string, owner: int, after: int): seq<NativeEvent> {
    Filter((e: NativeEvent) => e.LabelEdge? && e.labelName == labelName && e.kind == Unlabeled && e.actorId == owner
                               && e.createdAt > after, events)
  }

  /** When a settled pair of runs is retired, or `None` when the named cause does not fit them. */
  function RetiredAt(s: Snapshot, cause: Cause, owner: int, gate: Row, baseline: Row): Option<int>
    requires gate.facts.title.Titled? && gate.facts.title.tag.Ci?
    requires baseline.facts.title.Titled? && baseline.facts.title.tag.Ci?
  {
    var settled := Later(gate.progress.updatedAt, baseline.progress.updatedAt);
    var allSucceeded := gate.progress.conclusion == Success && baseline.progress.conclusion == Success;
    if cause.Terminal? then (if allSucceeded then None else Some(settled))
    else if !allSucceeded then None
    else
      var g := Withdrawals(s.events, gate.facts.title.tag.labelName, owner, settled);
      var b := Withdrawals(s.events, baseline.facts.title.tag.labelName, owner, settled);
      if g == [] || b == [] then None else Some(Later(FirstTime(g), FirstTime(b)))
  }

  /** The owner's comments that spell the request `child`, in any encoding. */
  function Spellings(c: Codec, comments: seq<Comment>, child: Request): seq<Comment> {
    var owner := child.subject.ownerId;
    Filter((m: Comment) =>
      && m.userId == owner
      && var r := RequestFor(c, comments, c.labelOf(m.body), Some(owner));
         r.Some? && c.digest(r.value) == c.digest(child), comments)
  }

  function Applications(c: Codec, events: seq<NativeEvent>, spellings: seq<Comment>): seq<NativeEvent> {
    Filter((e: NativeEvent) => e.LabelEdge? && e.kind == Labeled && exists m :: m in spellings && e.labelName == c.labelOf(m.body), events)
  }

  predicate StatedAfter(c: Codec, s: Snapshot, child: Request, retiredAt: int) {
    var spellings := Spellings(c, s.comments, child);
    var edges := Applications(c, s.events, spellings);
    && spellings != [] && edges != []
    && (forall e :: e in edges ==> e.actorId == child.subject.ownerId && e.createdAt > retiredAt)
    && (forall m :: m in spellings ==> m.createdAt > retiredAt)
  }

  /** One link of the retry chain: `parent` is settled, and `child` was stated after it. */
  predicate Succeeds(c: Codec, s: Snapshot, parent: Request, child: Request) {
    && child.retry.Some?
    && parent.subject == child.subject
    && child.retry.value.generation == parent.Generation() + 1
    && var gate := Settled(c, s, parent, Gate, child.retry.value.gateRun);
       var baseline := Settled(c, s, parent, Baseline, child.retry.value.baselineRun);
       gate.Some? && baseline.Some?
       && var retired := RetiredAt(s, child.retry.value.cause, parent.subject.ownerId, gate.value, baseline.value);
          retired.Some? && StatedAfter(c, s, child, retired.value)
  }

  /** `validate_retry`: every ancestor settled before its successor was stated. */
  predicate RetryChain(c: Codec, s: Snapshot, q: Request)
    requires BoundedRetry(q.retry)
    decreases q.Generation()
  {
    q.retry.None? ||
    match PriorRequest(c, s.comments, q.retry.value.priorRequest, q.subject.ownerId)
    case None => false
    case Some(parent) => Succeeds(c, s, parent, q) && RetryChain(c, s, parent)
  }

  // ---------------------------------------------------------------- `execute`

  datatype Route = RequestRoute | InvalidateRoute | ReviewRoute | ObservationRoute | UnknownRoute

  function Classify(e: Webhook): Route {
    if e.name in {"pull_request", "pull_request_target"} then
      if e.action == "labeled" && IsCiLabel(e.labelName) then RequestRoute
      else if e.action in {"synchronize", "converted_to_draft", "closed"} then InvalidateRoute
      else if e.action == "unlabeled" && IsCiLabel(e.labelName) then InvalidateRoute
      else if e.action == "edited" && e.baseChanged then InvalidateRoute
      else ObservationRoute
    else if e.name == "pull_request_review" then
      if e.action == "submitted" then
        if e.reviewState == "changes_requested" then InvalidateRoute
        else if e.reviewState in {"approved", "commented"} then ObservationRoute
        else UnknownRoute
      else if e.action in {"dismissed", "edited"} then ReviewRoute
      else ObservationRoute
    else ObservationRoute
  }

  datatype Phase = Admit | Recheck | Finalize

  /** What one job passes to the adapter besides the webhook. */
  datatype Call = Call(
    lane: Lane, runId: int, attempt: int, phase: Phase, policy: string, mode: string, product: string,
    cancelled: bool, admissionResult: string, nativeSha: string)

  datatype Decision =
    | Observation
    | Carried(mode: string)
    | Invalidated
    | Replay(run: int)
    | Duplicate(winner: int)
    | Admitted(request: Request)
    | Refused

  /** A review edit or dismissal matters only if a live request selected that review. */
  predicate TouchesSelection(c: Codec, s: Snapshot, e: Webhook) {
    exists name :: name in s.live.labels && IsCiLabel(name) &&
      var r := RequestFor(c, s.comments, name, None);
      r.Some? && (exists a :: a in s.live.assignees && a.id == r.value.subject.ownerId)
      && r.value.subject.headSha == s.live.headSha && r.value.subject.baseSha == s.live.baseSha
      && r.value.subject.baseRef == s.live.baseRef && e.reviewId in r.value.subject.reviewIds
  }

  predicate PacketBound(s: Snapshot, runId: int, q: Request) {
    var packets := Filter((a: Artifact) => a.name == "ub-review-gate", s.artifacts);
    && Paged(|s.artifacts|) && |packets| == 1 && !packets[0].expired && packets[0].size > 0 && packets[0].digestOk
    && packets[0].runId == runId && packets[0].headSha == q.subject.headSha
  }

  /** `execute`: the decision one job takes on one snapshot. */
  function Decide(c: Codec, s: Snapshot, e: Webhook, k: Call): Decision {
    var route := Classify(e);
    if route.UnknownRoute? then Refused
    else if route.ObservationRoute? then Observation
    else if k.phase.Finalize? && k.mode in {"observation", "duplicate", "replay"} then Carried(k.mode)
    else if route.ReviewRoute? then
      (if !Paged(|s.comments|) then Refused else if TouchesSelection(c, s, e) then Invalidated else Observation)
    else if route.InvalidateRoute? then Invalidated
    else if k.attempt != 1 then Replay(k.runId)
    else match Current(c, s, e, k.policy)
      case None => Refused
      case Some(q) =>
        if k.lane.Gate? && k.nativeSha != q.subject.mergeSha then Refused
        else match Elect(c, s, e.labelName, k.lane, k.runId, q)
          case None => Refused
          case Some(winner) =>
            if winner.facts.id != k.runId then Duplicate(winner.facts.id)
            else if !RetryChain(c, s, q) then Refused
            else if k.cancelled then Refused
            else if k.phase.Finalize? && !(k.admissionResult == "success" && k.mode == "admitted" && k.product == "success") then Refused
            else if k.phase.Finalize? && k.lane.Gate? && !PacketBound(s, k.runId, q) then Refused
            else Admitted(q)
  }
}
