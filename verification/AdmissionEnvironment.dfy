/** The repository the admission adapter observes: two workflow run histories, the pull request's native events and
    its reviews, all of which only grow while time never runs backwards. Comments, labels, assignees, merge state and
    everything else a snapshot holds may change arbitrarily between reads, so they are not part of the world. */
module AdmissionEnvironment {
  import opened Collections
  import opened NativeRecords
  import opened AdmissionPolicy

  /** A run keeps the webhook that started it. */
  datatype StartedRun = StartedRun(facts: RunFacts, payload: Webhook)

  /** `verdict` is the state the review was submitted with. */
  datatype PostedReview = PostedReview(review: Review, verdict: ReviewState)

  datatype World = World(
    now: int, gate: seq<StartedRun>, baseline: seq<StartedRun>, progress: map<int, Progress>,
    events: seq<NativeEvent>, reviews: map<int, PostedReview>)
  {
    function Runs(lane: Lane): seq<StartedRun> { if lane.Gate? then gate else baseline }
  }

  datatype Action =
    | StartRun(lane: Lane, run: StartedRun)
    | AdvanceRun(id: int, progress: Progress)
    | EditLabel(kind: EdgeKind, name: string, actorId: int)
    | OtherActivity
    | SubmitReview(review: Review)
    | EditReview(id: int, body: string)
    | DismissReview(id: int)
    | Elapse(duration: nat)

  /** A rerun raises the attempt; within one attempt a completed run stays as it ended. */
  predicate Advances(p: Progress, next: Progress) {
    || p.attempt < next.attempt
    || (p.attempt == next.attempt && (p.completed ==> next.completed && next.conclusion == p.conclusion))
  }

  predicate Enabled(w: World, a: Action) {
    match a
    case StartRun(lane, run) =>
      && run.facts.id !in w.progress
      && forall prior :: prior in w.Runs(lane) ==> prior.facts.number < run.facts.number
    case AdvanceRun(id, progress) => id in w.progress && Advances(w.progress[id], progress)
    case SubmitReview(r) =>
      r.id !in w.reviews && r.state in {Commented, Approved, ChangesRequested} && r.submittedAt == Some(w.now)
    case EditReview(id, _) => id in w.reviews
    case DismissReview(id) => id in w.reviews && id > 0 && w.reviews[id].review.state != Dismissed
    case _ => true
  }

  function Apply(w: World, a: Action): World
    requires Enabled(w, a)
  {
    match a
    case StartRun(lane, run) =>
      var w' := w.(progress := w.progress[run.facts.id := Progress(1, false, OtherConclusion, w.now)]);
      if lane.Gate? then w'.(gate := w.gate + [run]) else w'.(baseline := w.baseline + [run])
    case AdvanceRun(id, progress) => w.(progress := w.progress[id := progress])
    case EditLabel(kind, name, actorId) => w.(events := w.events + [LabelEdge(kind, name, actorId, w.now)])
    case OtherActivity => w.(events := w.events + [OtherEvent(w.now)])
    case SubmitReview(r) => w.(reviews := w.reviews[r.id := PostedReview(r, r.state)])
    case EditReview(id, body) =>
      var p := w.reviews[id];
      w.(reviews := w.reviews[id := p.(review := p.review.(body := body))])
    case DismissReview(id) =>
      var p := w.reviews[id];
      w.(reviews := w.reviews[id := p.(review := p.review.(state := Dismissed))],
         events := w.events + [ReviewDismissal(id, p.verdict, w.now)])
    case Elapse(duration) => w.(now := w.now + duration)
  }

  ghost predicate Next(w: World, w': World) { exists a :: Enabled(w, a) && w' == Apply(w, a) }

  // --------------------------------------------------------------- invariant

  predicate NumberedRuns(runs: seq<StartedRun>) {
    forall i, j :: 0 <= i < j < |runs| ==>
      runs[i].facts.number < runs[j].facts.number && runs[i].facts.id != runs[j].facts.id
  }

  predicate Tracked(runs: seq<StartedRun>, progress: map<int, Progress>) {
    forall run :: run in runs ==> run.facts.id in progress
  }

  predicate Chronological(events: seq<NativeEvent>, now: int) {
    && (forall e :: e in events ==> e.createdAt <= now)
    && (forall i, j :: 0 <= i < j < |events| ==> events[i].createdAt <= events[j].createdAt)
  }

  /** Every dismissed review has a dismissal event that names its verdict and follows its submission. */
  predicate Dismissable(p: PostedReview, id: int, events: seq<NativeEvent>, now: int) {
    && p.review.id == id && p.verdict in {Commented, Approved, ChangesRequested}
    && p.review.submittedAt.Some? && p.review.submittedAt.value <= now
    && (p.review.state == p.verdict ||
        (p.review.state == Dismissed && exists e :: e in events && DismissalOf(e, p)))
  }

  predicate DismissalOf(e: NativeEvent, p: PostedReview) {
    && e.ReviewDismissal? && e.reviewId == p.review.id && e.state == p.verdict
    && p.review.submittedAt.Some? && p.review.submittedAt.value <= e.createdAt
  }

  ghost predicate Inv(w: World) {
    && NumberedRuns(w.gate) && NumberedRuns(w.baseline)
    && Tracked(w.gate, w.progress) && Tracked(w.baseline, w.progress)
    && Chronological(w.events, w.now)
    && (forall id :: id in w.reviews ==> Dismissable(w.reviews[id], id, w.events, w.now))
  }

  lemma StepKeepsInv(w: World, a: Action)
    requires Inv(w) && Enabled(w, a)
    ensures Inv(Apply(w, a))
  {
    var w' := Apply(w, a);
    assert w.events <= w'.events;
    forall id | id in w'.reviews
      ensures Dismissable(w'.reviews[id], id, w'.events, w'.now)
    {
      var p := w'.reviews[id];
      if id in w.reviews && w.reviews[id].review.state == Dismissed {
        var e :| e in w.events && DismissalOf(e, w.reviews[id]);
        assert e in w'.events && DismissalOf(e, p);
      } else if a.DismissReview? && a.id == id {
        var e := w'.events[|w.events|];
        assert e in w'.events && DismissalOf(e, p);
      }
    }
  }

  // ---------------------------------------------------------- what survives

  predicate ReviewSurvives(p: PostedReview, p': PostedReview) {
    && p'.verdict == p.verdict && p'.review.id == p.review.id && p'.review.submittedAt == p.review.submittedAt
  }

  predicate ProgressSurvives(p: Progress, p': Progress) {
    && p.attempt <= p'.attempt
    && (p.attempt == p'.attempt && p.completed ==> p'.completed && p'.conclusion == p.conclusion)
  }

  ghost predicate Extends(w: World, w': World) {
    && w.now <= w'.now
    && w.gate <= w'.gate && w.baseline <= w'.baseline && w.events <= w'.events
    && (forall id :: id in w.progress ==> id in w'.progress && ProgressSurvives(w.progress[id], w'.progress[id]))
    && (forall id :: id in w.reviews ==> id in w'.reviews && ReviewSurvives(w.reviews[id], w'.reviews[id]))
  }

  lemma StepExtends(w: World, a: Action)
    requires Enabled(w, a)
    ensures Extends(w, Apply(w, a))
  {
  }

  // ------------------------------------------------------------------ traces

  ghost predicate Follows(ws: seq<World>, i: int)
    requires 0 <= i < |ws| - 1
  {
    Next(ws[i], ws[i + 1])
  }

  ghost predicate Trace(ws: seq<World>) {
    && ws != [] && Inv(ws[0])
    && forall i :: 0 <= i < |ws| - 1 ==> Follows(ws, i)
  }

  lemma ExtendsTransitive(u: World, v: World, w: World)
    requires Extends(u, v) && Extends(v, w)
    ensures Extends(u, w)
  {
  }

  /** Along every run of the environment the invariant holds and nothing recorded is lost. */
  lemma {:induction false} TraceGrows(ws: seq<World>, i: nat, j: nat)
    requires Trace(ws) && i <= j < |ws|
    ensures Inv(ws[j]) && Extends(ws[i], ws[j])
    decreases j
  {
    if j > 0 {
      var u, v := ws[j - 1], ws[j];
      assert Follows(ws, j - 1);
      var a :| Enabled(u, a) && v == Apply(u, a);
      TraceGrows(ws, if i < j then i else j - 1, j - 1);
      StepKeepsInv(u, a);
      StepExtends(u, a);
      if i < j { ExtendsTransitive(ws[i], u, v); }
    }
  }

  // -------------------------------------------------------------- executions

  /** One execution of the adapter: its inputs, what it read, and where in the trace
      it started and made each read. */
  datatype Execution = Execution(
    call: Call, webhook: Webhook, snapshot: Snapshot,
    start: nat, reviewsAt: nat, eventsAt: nat, gateAt: nat, baselineAt: nat)
  {
    function RunsAt(lane: Lane): nat { if lane.Gate? then gateAt else baselineAt }
  }

  /** Every submitted review is listed as it stands; only unsubmitted drafts are extra. */
  ghost predicate ListsReviews(reviews: seq<Review>, w: World) {
    && (forall id :: id in w.reviews ==> w.reviews[id].review in reviews)
    && (forall r :: r in reviews && r.id in w.reviews ==> r == w.reviews[r.id].review)
  }

  /** A listed row is a run of that lane, with its progress at the time of the read. */
  ghost predicate Native(row: Row, lane: Lane, w: World) {
    && (exists run :: run in w.Runs(lane) && run.facts == row.facts)
    && row.facts.id in w.progress && row.progress == w.progress[row.facts.id]
  }

  ghost predicate ListsRuns(pages: seq<seq<Row>>, lane: Lane, w: World) {
    forall page, row :: page in pages && row in page ==> Native(row, lane, w)
  }

  /** The execution belongs to the run its call names, carries that run's webhook, and
      read the reviews no later than the events. Rows may be missing from the pages. */
  ghost predicate Plays(ws: seq<World>, x: Execution) {
    && x.start <= x.reviewsAt <= x.eventsAt < |ws| && x.start <= x.gateAt < |ws| && x.start <= x.baselineAt < |ws|
    && ListsReviews(x.snapshot.reviews, ws[x.reviewsAt])
    && x.snapshot.events == ws[x.eventsAt].events
    && ListsRuns(x.snapshot.gatePages, Gate, ws[x.gateAt])
    && ListsRuns(x.snapshot.baselinePages, Baseline, ws[x.baselineAt])
    && exists run :: run in ws[x.start].Runs(x.call.lane) && run.facts.id == x.call.runId && run.payload == x.webhook
  }

  ghost function Outcome(c: Codec, x: Execution): Decision { Decide(c, x.snapshot, x.webhook, x.call) }
}
