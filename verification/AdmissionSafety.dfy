/** What the admission protocol guarantees over every run of its environment: one admitted run per request and lane,
    and permanent retirement. */
module AdmissionSafety {
  import opened Collections
  import opened NativeRecords
  import opened AdmissionPolicy
  import opened AdmissionEnvironment

  // --------------------------------------------------------- history rows

  ghost predicate Known(facts: RunFacts, lane: Lane, w: World) {
    exists run :: run in w.Runs(lane) && run.facts == facts
  }

  lemma {:induction false} GatheredRowsAreListed(
    pages: seq<seq<Row>>, a: Anchor, k: nat, rows: seq<Row>, seen: set<int>, lane: Lane, w: World)
    requires ListsRuns(pages, lane, w)
    requires forall row :: row in rows ==> Native(row, lane, w)
    ensures var r := Gather(pages, a, k, rows, seen);
            r.Some? ==> forall row :: row in r.value ==> Native(row, lane, w)
    decreases 12 - k
  {
    if k < 12 && k < |pages| {
      var batch := PageAt(pages, k);
      assert batch in pages;
      GatheredRowsAreListed(pages, a, k + 1, rows + AboveFloor(batch, a.floor), seen + Ids(batch), lane, w);
    }
  }

  /** Two runs of one lane known by the end of a trace agree on everything if they agree on number or id. */
  lemma RunsAreTold(w: World, lane: Lane, f: RunFacts, g: RunFacts)
    requires NumberedRuns(w.Runs(lane)) && Known(f, lane, w) && Known(g, lane, w)
    requires f.number == g.number || f.id == g.id
    ensures f == g
  {
  }

  lemma KnownLater(ws: seq<World>, i: nat, lane: Lane, row: Row)
    requires Trace(ws) && i < |ws| && Native(row, lane, ws[i])
    ensures Known(row.facts, lane, ws[|ws| - 1])
  {
    TraceGrows(ws, i, |ws| - 1);
  }

  /** What a complete history read by an execution tells about the lane. */
  lemma ReadHistory(ws: seq<World>, x: Execution, lane: Lane)
    requires Trace(ws) && Plays(ws, x) && CompleteRows(x.snapshot, lane).Some?
    ensures forall row :: row in CompleteRows(x.snapshot, lane).value ==>
      Native(row, lane, ws[x.RunsAt(lane)]) && Known(row.facts, lane, ws[|ws| - 1])
    ensures GapFree(CompleteRows(x.snapshot, lane).value, AnchorOf(lane).floor)
    ensures NumberedRuns(ws[|ws| - 1].Runs(lane))
  {
    hide Gather, GapFree;
    GatheredRowsAreListed(x.snapshot.Pages(lane), AnchorOf(lane), 0, [], {}, lane, ws[x.RunsAt(lane)]);
    TraceGrows(ws, 0, |ws| - 1);
    forall row | row in CompleteRows(x.snapshot, lane).value ensures Known(row.facts, lane, ws[|ws| - 1]) {
      hide Native, Known;
      KnownLater(ws, x.RunsAt(lane), lane, row);
    }
  }

  /** A gap-free history that reaches past `n` contains a row numbered `n`. */
  lemma RowAt(rows: seq<Row>, floor: int, high: Row, n: int) returns (row: Row)
    requires GapFree(rows, floor) && high in rows && floor <= n <= high.facts.number
    ensures row in rows && row.facts.number == n
  {
    if n == high.facts.number { row := high; } else { assert n in Numbers(rows); row :| row in rows && row.facts.number == n; }
  }

  /** Who is elected: the run itself exactly when it asked for the request, nothing in its history
      refuses, and no earlier run asked for the same one. */
  lemma ElectedExactlyWhenFirst(c: Codec, s: Snapshot, name: string, lane: Lane, q: Request, rows: seq<Row>, own: Row)
    requires CompleteRows(s, lane) == Some(rows) && OwnRow(rows, own.facts.id) == Some(own)
    requires own.facts.trigger == RequestTrigger(lane) && own.facts.headSha == q.subject.headSha
    requires own.facts.actorId == q.subject.ownerId
    ensures Elect(c, s, name, lane, own.facts.id, q) == Some(own) <==>
      && Judge(c, s.comments, q, name, own, own) == Candidate
      && forall row :: row in rows ==>
           && Judge(c, s.comments, q, name, own, row) != Refuse
           && (Judge(c, s.comments, q, name, own, row) == Candidate ==> own.facts.number <= row.facts.number)
  {
    hide Judge, CompleteRows, Gather;
    assert GapFree(rows, AnchorOf(lane).floor) by { CompleteIsGapFree(s, lane); }
    assert own in Filter((row: Row) => row.facts.id == own.facts.id, rows);
    var candidates := Candidates(c, s.comments, q, name, own, rows);
    if own in candidates { SameNumberSameRow(rows, own, Earliest(candidates)); }
  }

  lemma CompleteIsGapFree(s: Snapshot, lane: Lane)
    ensures CompleteRows(s, lane).Some? ==> GapFree(CompleteRows(s, lane).value, AnchorOf(lane).floor)
  {
    hide Gather, GapFree;
  }

  lemma SameNumberSameRow(rows: seq<Row>, a: Row, b: Row)
    requires forall i, j :: 0 <= i < j < |rows| ==> rows[i].facts.number != rows[j].facts.number
    requires a in rows && b in rows
    ensures a.facts.number == b.facts.number ==> a == b
  {
  }

  // ------------------------------------------------------------- uniqueness

  /** `own` is the run of `x` in the history `rows` it read: it asked for `q`, no row
      refuses it, and no earlier row asked for `q`. */
  ghost predicate Won(c: Codec, x: Execution, q: Request, rows: seq<Row>, own: Row) {
    var comments, name := x.snapshot.comments, x.webhook.labelName;
    && own in rows && own.facts.id == x.call.runId
    && Judge(c, comments, q, name, own, own) == Candidate
    && forall row :: row in rows ==>
         && Judge(c, comments, q, name, own, row) != Refuse
         && (Judge(c, comments, q, name, own, row) == Candidate ==> own.facts.number <= row.facts.number)
  }

  /** What the lane's history looks like to an execution that read it completely. */
  ghost predicate ReadIn(w: World, lane: Lane, rows: seq<Row>) {
    && NumberedRuns(w.Runs(lane)) && GapFree(rows, AnchorOf(lane).floor)
    && forall row :: row in rows ==> Known(row.facts, lane, w)
  }

  lemma AdmittedIsElected(c: Codec, x: Execution, q: Request)
    requires Outcome(c, x) == Admitted(q)
    ensures x.call.attempt == 1 && WellFormed(q) && RetryChain(c, x.snapshot, q)
    ensures Current(c, x.snapshot, x.webhook, x.call.policy) == Some(q)
    ensures var winner := Elect(c, x.snapshot, x.webhook.labelName, x.call.lane, x.call.runId, q);
            winner.Some? && winner.value.facts.id == x.call.runId
  {
    hide Current, Elect, RetryChain;
  }

  lemma ElectedIsCandidate(c: Codec, s: Snapshot, name: string, lane: Lane, runId: int, q: Request)
    returns (rows: seq<Row>, own: Row, winner: Row)
    requires Elect(c, s, name, lane, runId, q).Some?
    ensures CompleteRows(s, lane) == Some(rows) && own in rows && own.facts.id == runId
    ensures own.facts.trigger == RequestTrigger(lane)
    ensures Elect(c, s, name, lane, runId, q) == Some(winner) && winner in rows
    ensures Judge(c, s.comments, q, name, own, winner) == Candidate
    ensures forall row :: row in rows ==>
      && Judge(c, s.comments, q, name, own, row) != Refuse
      && (Judge(c, s.comments, q, name, own, row) == Candidate ==> winner.facts.number <= row.facts.number)
  {
    hide Judge, CompleteRows;
    rows := CompleteRows(s, lane).value;
    own := OwnRow(rows, runId).value;
    assert own in Filter((row: Row) => row.facts.id == runId, rows);
    winner := Earliest(Candidates(c, s.comments, q, name, own, rows));
  }

  lemma AdmittedRow(c: Codec, ws: seq<World>, x: Execution, q: Request) returns (rows: seq<Row>, own: Row)
    requires Trace(ws) && Plays(ws, x) && Outcome(c, x) == Admitted(q)
    ensures CompleteRows(x.snapshot, x.call.lane) == Some(rows)
    ensures Won(c, x, q, rows, own) && ReadIn(ws[|ws| - 1], x.call.lane, rows)
  {
    hide Plays, CompleteRows, Judge, Outcome, Elect;
    AdmittedIsElected(c, x, q);
    var winner;
    rows, own, winner := ElectedIsCandidate(c, x.snapshot, x.webhook.labelName, x.call.lane, x.call.runId, q);
    ReadHistory(ws, x, x.call.lane);
    RunsAreTold(ws[|ws| - 1], x.call.lane, own.facts, winner.facts);
    SameNumberSameRow(rows, own, winner);
  }

  /** A run that asked for `q` in one snapshot asks for `q`, or is refused, in every other. */
  lemma CandidateCarriesOver(
    c: Codec, q: Request, x: seq<Comment>, nameX: string, ownX: Row, rowX: Row,
    y: seq<Comment>, nameY: string, ownY: Row, rowY: Row)
    requires CollisionFree(c) && rowX.facts == rowY.facts && rowY.facts.number <= ownY.facts.number
    requires Judge(c, x, q, nameX, ownX, rowX) == Candidate
    ensures Judge(c, y, q, nameY, ownY, rowY) != Skip
  {
    var t := rowX.facts.title;
    if RequestFor(c, y, t.tag.labelName, Some(t.actor)).Some? {
      LabelDeterminesRequest(c, x, y, t.tag.labelName, Some(t.actor), Some(t.actor));
    }
  }

  /** The later of two winners is no later: its gap-free history shows it the earlier one. */
  lemma EarlierWins(
    c: Codec, w: World, lane: Lane, q: Request, x: Execution, rowsX: seq<Row>, ownX: Row,
    y: Execution, rowsY: seq<Row>, ownY: Row)
    requires CollisionFree(c) && ReadIn(w, lane, rowsX) && ReadIn(w, lane, rowsY)
    requires Won(c, x, q, rowsX, ownX) && Won(c, y, q, rowsY, ownY)
    requires ownX.facts.number <= ownY.facts.number
    ensures ownX.facts == ownY.facts
  {
    hide Judge, CollisionFree;
    var row := RowAt(rowsY, AnchorOf(lane).floor, ownY, ownX.facts.number);
    RunsAreTold(w, lane, row.facts, ownX.facts);
    CandidateCarriesOver(c, q, x.snapshot.comments, x.webhook.labelName, ownX, ownX,
                         y.snapshot.comments, y.webhook.labelName, ownY, row);
    RunsAreTold(w, lane, ownX.facts, ownY.facts);
  }

  /** At most one run attempt per lane is ever admitted for a request: whatever order the
      executions take, whichever encoding of the request each one carries, and however far
      the histories each one read had grown. */
  lemma OneAdmittedRun(c: Codec, ws: seq<World>, x: Execution, y: Execution, q: Request)
    requires Trace(ws) && CollisionFree(c) && Plays(ws, x) && Plays(ws, y) && x.call.lane == y.call.lane
    requires Outcome(c, x) == Admitted(q) && Outcome(c, y) == Admitted(q)
    ensures x.call.runId == y.call.runId && x.call.attempt == 1 == y.call.attempt
    ensures x.webhook == y.webhook
  {
    hide Plays, CompleteRows, Decide, Won, ReadIn, CollisionFree;
    var w := ws[|ws| - 1];
    var rowsX, ownX := AdmittedRow(c, ws, x, q);
    var rowsY, ownY := AdmittedRow(c, ws, y, q);
    WonIds(c, x, q, rowsX, ownX);
    WonIds(c, y, q, rowsY, ownY);
    AdmittedIsElected(c, x, q);
    AdmittedIsElected(c, y, q);
    if ownX.facts.number <= ownY.facts.number {
      EarlierWins(c, w, x.call.lane, q, x, rowsX, ownX, y, rowsY, ownY);
    } else {
      EarlierWins(c, w, x.call.lane, q, y, rowsY, ownY, x, rowsX, ownX);
    }
    SamePayload(ws, x, y);
  }

  lemma WonIds(c: Codec, x: Execution, q: Request, rows: seq<Row>, own: Row)
    requires Won(c, x, q, rows, own)
    ensures own.facts.id == x.call.runId
  {
  }

  /** Two executions of one run carry the same webhook. */
  lemma SamePayload(ws: seq<World>, x: Execution, y: Execution)
    requires Trace(ws) && Plays(ws, x) && Plays(ws, y)
    requires x.call.lane == y.call.lane && x.call.runId == y.call.runId
    ensures x.webhook == y.webhook
  {
    hide Plays;
    var lane := x.call.lane;
    var r := PayloadRun(ws, x);
    var t := PayloadRun(ws, y);
    assert NumberedRuns(ws[|ws| - 1].Runs(lane)) by { TraceGrows(ws, 0, |ws| - 1); }
  }

  lemma PayloadRun(ws: seq<World>, x: Execution) returns (run: StartedRun)
    requires Trace(ws) && Plays(ws, x)
    ensures run in ws[|ws| - 1].Runs(x.call.lane) && run.facts.id == x.call.runId && run.payload == x.webhook
  {
    hide ListsReviews, ListsRuns;
    run :| run in ws[x.start].Runs(x.call.lane) && run.facts.id == x.call.runId && run.payload == x.webhook;
    TraceGrows(ws, x.start, |ws| - 1);
  }

  // -------------------------------------------------------------- retirement

  /** What retires the request behind a label: its withdrawal by anyone, or a change
      request submitted once it had been applied. */
  ghost predicate Withdrawn(w: World, name: string) {
    exists e :: e in w.events && e.LabelEdge? && e.labelName == name && e.kind == Unlabeled
  }

  ghost predicate ObjectedTo(w: World, name: string) {
    exists e, id :: e in w.events && id in w.reviews && Objects(w.reviews[id], e, name)
  }

  /** `e` applied the label, and `p` was a change request submitted no earlier. */
  predicate Objects(p: PostedReview, e: NativeEvent, name: string) {
    && e.LabelEdge? && e.labelName == name && e.kind == Labeled
    && p.verdict == ChangesRequested && p.review.submittedAt.Some? && p.review.submittedAt.value >= e.createdAt
  }

  lemma WithdrawalRefuses(c: Codec, ws: seq<World>, k: nat, x: Execution)
    requires Trace(ws) && Plays(ws, x) && k <= x.start && Withdrawn(ws[k], x.webhook.labelName)
    ensures Current(c, x.snapshot, x.webhook, x.call.policy).None?
  {
    TraceGrows(ws, k, x.eventsAt);
    var name := x.webhook.labelName;
    var e :| e in ws[k].events && e.LabelEdge? && e.labelName == name && e.kind == Unlabeled;
    assert e in x.snapshot.events;
    assert e in EdgesOf(x.snapshot.events, name);
  }

  lemma RetiredIsRefused(c: Codec, s: Snapshot, e: Webhook, policy: string)
    requires EdgesOf(s.events, e.labelName) != []
    requires ReviewRetires(s.reviews, s.events, FirstTime(EdgesOf(s.events, e.labelName)))
    ensures Current(c, s, e, policy).None?
  {
    hide ReviewRetires, EdgesOf;
  }

  /** What the reviews of one moment show of a change request, with every dismissal up to that moment at hand. */
  lemma ObjectionShows(w: World, reviews: seq<Review>, events: seq<NativeEvent>, id: int, at: int)
    requires Inv(w) && ListsReviews(reviews, w) && w.events <= events && id in w.reviews
    requires w.reviews[id].verdict == ChangesRequested
    requires w.reviews[id].review.submittedAt.Some? && w.reviews[id].review.submittedAt.value >= at
    ensures ReviewRetires(reviews, events, at)
  {
    var p := w.reviews[id];
    assert Dismissable(p, id, w.events, w.now);
    assert p.review in reviews;
    if p.review.state == Dismissed {
      var d :| d in w.events && DismissalOf(d, p);
      assert d in events;
      assert forall r :: r in reviews && r.id == d.reviewId ==> r == p.review;
      assert DismissalRetires(reviews, d, at);
    }
  }

  /** A change request still blocks after it is dismissed, because its dismissal is an event
      the adapter reads after the reviews. */
  lemma ObjectionRefuses(c: Codec, ws: seq<World>, k: nat, x: Execution)
    requires Trace(ws) && Plays(ws, x) && k <= x.start && ObjectedTo(ws[k], x.webhook.labelName)
    ensures Current(c, x.snapshot, x.webhook, x.call.policy).None?
  {
    hide Current, Follows, ReviewRetires, Inv;
    var name := x.webhook.labelName;
    var e, id :| e in ws[k].events && id in ws[k].reviews && Objects(ws[k].reviews[id], e, name);
    TraceGrows(ws, k, x.reviewsAt);
    TraceGrows(ws, x.reviewsAt, x.eventsAt);
    var edges := EdgesOf(x.snapshot.events, name);
    assert e in x.snapshot.events && e in edges;
    ObjectionShows(ws[x.reviewsAt], x.snapshot.reviews, x.snapshot.events, id, FirstTime(edges));
    RetiredIsRefused(c, x.snapshot, x.webhook, x.call.policy);
  }

  /** The order of the two reads carries that argument. Reviews read after a dismissal, next to
      events read before it, show no trace of a change request that had retired the label. */
  lemma ReadOrderMatters() returns (ws: seq<World>, reviews: seq<Review>, name: string, at: int)
    ensures Trace(ws) && |ws| == 3 && ObjectedTo(ws[1], name) && ListsReviews(reviews, ws[2])
    ensures EdgesOf(ws[1].events, name) == EdgesOf(ws[2].events, name) != []
    ensures at == FirstTime(EdgesOf(ws[2].events, name))
    ensures ReviewRetires(reviews, ws[2].events, at) && !ReviewRetires(reviews, ws[1].events, at)
  {
    hide ReviewRetires;
    name, at := "ci:request", 5;
    var applied := LabelEdge(Labeled, name, 1, at);
    var objection := Review(7, 2, ChangesRequested, "head", Some(at), "no", "MEMBER");
    var dismissal := ReviewDismissal(7, ChangesRequested, at);
    var w0 := World(at, [], [], map[], [applied], map[]);
    var w1 := w0.(reviews := map[7 := PostedReview(objection, ChangesRequested)]);
    var gone := objection.(state := Dismissed);
    var w2 := w1.(reviews := map[7 := PostedReview(gone, ChangesRequested)], events := [applied, dismissal]);
    ws, reviews := [w0, w1, w2], [gone];
    ObjectionIsRaised(w0, w1, objection);
    ObjectionIsDismissed(w1, w2, 7, dismissal);
    assert Follows(ws, 0) && Follows(ws, 1);
    assert Objects(w1.reviews[7], applied, name);
    DismissalIsTheTrace(applied, gone, dismissal, name);
  }

  lemma DismissalIsTheTrace(applied: NativeEvent, gone: Review, dismissal: NativeEvent, name: string)
    requires applied == LabelEdge(Labeled, name, 1, 5) && dismissal == ReviewDismissal(7, ChangesRequested, 5)
    requires gone == Review(7, 2, Dismissed, "head", Some(5), "no", "MEMBER")
    ensures EdgesOf([applied], name) == EdgesOf([applied, dismissal], name) == [applied]
    ensures ReviewRetires([gone], [applied, dismissal], 5) && !ReviewRetires([gone], [applied], 5)
  {
    FilterAppend((e: NativeEvent) => e.LabelEdge? && e.labelName == name, [applied], [dismissal]);
    assert [applied] + [dismissal] == [applied, dismissal];
    assert DismissalRetires([gone], dismissal, 5) && dismissal in [applied, dismissal];
  }

  lemma ObjectionIsRaised(w: World, w': World, r: Review)
    requires Enabled(w, SubmitReview(r)) && w' == Apply(w, SubmitReview(r))
    ensures Next(w, w')
  {
  }

  lemma ObjectionIsDismissed(w: World, w': World, id: int, dismissal: NativeEvent)
    requires Enabled(w, DismissReview(id)) && w' == Apply(w, DismissReview(id))
    ensures Next(w, w')
  {
  }

  /** A run of the lane, later than `runId`, whose event retires `q` asked through `name`. */
  ghost predicate Overtaken(w: World, lane: Lane, runId: int, q: Request, name: string) {
    exists run, own :: run in w.Runs(lane) && own in w.Runs(lane) && Overtakes(run, own, runId, q, name)
  }

  /** The rows that the execution accepted include one numbered at or after the given run. */
  ghost predicate Reaches(x: Execution, run: StartedRun) {
    var rows := CompleteRows(x.snapshot, x.call.lane);
    rows.Some? && exists row :: row in rows.value && row.facts.number >= run.facts.number
  }

  /** The run of the execution is overtaken, and the rows it read reach the overtaking run. */
  ghost predicate OvertakenInReach(w: World, x: Execution, q: Request, name: string) {
    exists run, own ::
      run in w.Runs(x.call.lane) && own in w.Runs(x.call.lane) && Overtakes(run, own, x.call.runId, q, name) && Reaches(x, run)
  }

  /** Later runs that retire a request, by what their title says: the candidate moved, went back to draft or was closed; its
      head, base or target was edited; its label was removed; changes were requested; or a selected review was edited or
      dismissed. */
  predicate Retires(f: RunFacts, q: Request, labelName: string)
    requires f.title.Titled?
  {
    var t := f.title;
    var selected := f.trigger == PullRequestReview && t.tag.ReviewTag? && t.tag.reviewId in q.subject.reviewIds;
    || t.action == "synchronize" || t.action == "converted_to_draft" || t.action == "closed"
    || (t.action == "edited" && (selected || t.head != q.subject.headSha || t.base != q.subject.baseSha || t.baseRef != "main"))
    || (t.action == "dismissed" && selected)
    || (t.action == "submitted" && f.trigger == PullRequestReview && t.tag.ReviewTag? && t.tag.state == "changes_requested")
    || (t.action == "unlabeled" && t.tag.Ci? && t.tag.labelName == labelName)
  }

  predicate Overtakes(run: StartedRun, own: StartedRun, runId: int, q: Request, name: string) {
    && own.facts.id == runId && own.facts.number < run.facts.number
    && run.facts.title.Titled? && run.facts.title.pr == q.subject.pr && run.facts.trigger != WorkflowDispatch
    && Retires(run.facts, q, name)
  }

  /** The gap check makes the two the same: rows that reach a run of the lane list it. */
  lemma ReachedExactlyWhenListed(ws: seq<World>, x: Execution, run: StartedRun)
    requires Trace(ws) && Plays(ws, x) && CompleteRows(x.snapshot, x.call.lane).Some?
    requires run in ws[|ws| - 1].Runs(x.call.lane) && run.facts.number >= AnchorOf(x.call.lane).floor
    ensures Reaches(x, run) <==> exists row :: row in CompleteRows(x.snapshot, x.call.lane).value && row.facts == run.facts
  {
    hide Plays, CompleteRows, Known, GapFree, NumberedRuns;
    var w, lane := ws[|ws| - 1], x.call.lane;
    ReadHistory(ws, x, lane);
    ItselfKnown(run, lane, w);
    if Reaches(x, run) {
      var rows := CompleteRows(x.snapshot, lane).value;
      var high :| high in rows && high.facts.number >= run.facts.number;
      var row := RowAt(rows, AnchorOf(lane).floor, high, run.facts.number);
      RunsAreTold(w, lane, row.facts, run.facts);
    }
  }

  lemma ItselfKnown(run: StartedRun, lane: Lane, w: World)
    requires run in w.Runs(lane)
    ensures Known(run.facts, lane, w)
  {
  }

  lemma OvertakingRowRefuses(
    c: Codec, comments: seq<Comment>, q: Request, name: string, own: Row, row: Row, run: StartedRun)
    requires Overtakes(run, StartedRun(own.facts, run.payload), own.facts.id, q, name) && row.facts == run.facts
    ensures Judge(c, comments, q, name, own, row) == Refuse
  {
  }

  /** A later run that records a material transition refuses every execution whose rows reach it, whenever that
      execution started. */
  lemma TransitionRefuses(c: Codec, ws: seq<World>, x: Execution, q: Request)
    requires Trace(ws) && Plays(ws, x) && OvertakenInReach(ws[|ws| - 1], x, q, x.webhook.labelName)
    ensures Outcome(c, x) != Admitted(q)
  {
    hide Plays, CompleteRows, Decide, ReadIn, Overtakes, Judge, Known, Reaches;
    if Outcome(c, x) == Admitted(q) {
      var w, lane := ws[|ws| - 1], x.call.lane;
      var run, mine :|
        run in w.Runs(lane) && mine in w.Runs(lane) && Overtakes(run, mine, x.call.runId, q, x.webhook.labelName) && Reaches(x, run);
      var rows, own := AdmittedRow(c, ws, x, q);
      OvertakenIsOwn(w, lane, rows, own, run, mine, x, q);
      ReachedExactlyWhenListed(ws, x, run);
      var row :| row in rows && row.facts == run.facts;
      OvertakingRowRefuses(c, x.snapshot.comments, q, x.webhook.labelName, own, row, run);
    }
  }

  lemma OvertakenIsOwn(w: World, lane: Lane, rows: seq<Row>, own: Row, run: StartedRun, mine: StartedRun, x: Execution, q: Request)
    requires ReadIn(w, lane, rows) && own in rows && own.facts.id == x.call.runId && mine in w.Runs(lane)
    requires Overtakes(run, mine, x.call.runId, q, x.webhook.labelName)
    ensures run.facts.number >= AnchorOf(lane).floor
    ensures Overtakes(run, StartedRun(own.facts, run.payload), own.facts.id, q, x.webhook.labelName)
  {
    hide Retires;
    ItselfKnown(mine, lane, w);
    RunsAreTold(w, lane, own.facts, mine.facts);
  }

  /** Retirement is permanent for the label: once it has been withdrawn, or a change request was
      submitted while it was applied, no later execution admits anything through it, even
      if that review is dismissed, edited or followed by an approval; nor does any execution
      whose rows reach a later run that records a material transition. */
  lemma RetirementIsPermanent(c: Codec, ws: seq<World>, k: nat, x: Execution, q: Request)
    requires Trace(ws) && Plays(ws, x)
    requires || (k <= x.start && (Withdrawn(ws[k], x.webhook.labelName) || ObjectedTo(ws[k], x.webhook.labelName)))
             || OvertakenInReach(ws[|ws| - 1], x, q, x.webhook.labelName)
    ensures Outcome(c, x) != Admitted(q)
  {
    if OvertakenInReach(ws[|ws| - 1], x, q, x.webhook.labelName) {
      TransitionRefuses(c, ws, x, q);
    } else if Withdrawn(ws[k], x.webhook.labelName) {
      WithdrawalRefuses(c, ws, k, x);
    } else {
      ObjectionRefuses(c, ws, k, x);
    }
  }

  /** Retirement is permanent for the request too: once the label of its admitted run is
      retired, no execution in that lane admits the request again, through any encoding. */
  lemma RetiredRequestNeverReturns(c: Codec, ws: seq<World>, x: Execution, k: nat, y: Execution, q: Request)
    requires Trace(ws) && CollisionFree(c) && Plays(ws, x) && Plays(ws, y) && x.call.lane == y.call.lane
    requires Outcome(c, x) == Admitted(q)
    requires || (k <= y.start && (Withdrawn(ws[k], x.webhook.labelName) || ObjectedTo(ws[k], x.webhook.labelName)))
             || OvertakenInReach(ws[|ws| - 1], y, q, x.webhook.labelName)
    ensures Outcome(c, y) != Admitted(q)
  {
    if Outcome(c, y) == Admitted(q) {
      OneAdmittedRun(c, ws, x, y, q);
      RetirementIsPermanent(c, ws, k, y, q);
    }
  }

  /** `first` counts as a candidate for `q` in some reading: it asked for that request. */
  ghost predicate Asked(c: Codec, q: Request, first: StartedRun) {
    exists comments: seq<Comment>, row: Row ::
      row.facts == first.facts && Judge(c, comments, q, first.payload.labelName, row, row) == Candidate
  }

  /** The run of the execution is the given one or a later one. */
  ghost predicate NotBefore(w: World, x: Execution, first: StartedRun) {
    forall own :: own in w.Runs(x.call.lane) && own.facts.id == x.call.runId ==> first.facts.number <= own.facts.number
  }

  /** It needs no earlier admission: once a run asked for the request and its label is retired, neither that run nor
      any later run of the lane is admitted for the request, whatever label or spelling the later one uses. */
  lemma AskedAndRetiredNeverReturns(c: Codec, ws: seq<World>, k: nat, x: Execution, q: Request, first: StartedRun)
    requires Trace(ws) && CollisionFree(c) && Plays(ws, x)
    requires first in ws[|ws| - 1].Runs(x.call.lane) && Asked(c, q, first)
    requires first.facts.number >= AnchorOf(x.call.lane).floor && NotBefore(ws[|ws| - 1], x, first)
    requires || (k <= x.start && (Withdrawn(ws[k], first.payload.labelName) || ObjectedTo(ws[k], first.payload.labelName)))
             || OvertakenInReach(ws[|ws| - 1], x, q, first.payload.labelName)
    ensures Outcome(c, x) != Admitted(q)
  {
    hide Plays, CompleteRows, Decide, Judge, CollisionFree, Withdrawn, ObjectedTo, OvertakenInReach, Won, Asked;
    if Outcome(c, x) == Admitted(q) {
      StartIsInTrace(ws, x);
      var rows, own := AdmittedRow(c, ws, x, q);
      WonIds(c, x, q, rows, own);
      AdmittedIsFirst(c, ws[|ws| - 1], x, q, rows, own, first);
      var mine := PayloadRun(ws, x);
      RunsAreOne(ws[|ws| - 1].Runs(x.call.lane), mine, first);
      RetirementIsPermanent(c, ws, k, x, q);
    }
  }

  lemma StartIsInTrace(ws: seq<World>, x: Execution)
    requires Plays(ws, x)
    ensures x.start < |ws|
  {
  }

  /** The admitted run is the one that asked first. */
  lemma AdmittedIsFirst(c: Codec, w: World, x: Execution, q: Request, rows: seq<Row>, own: Row, first: StartedRun)
    requires CollisionFree(c) && ReadIn(w, x.call.lane, rows) && Won(c, x, q, rows, own)
    requires first in w.Runs(x.call.lane) && Asked(c, q, first)
    requires first.facts.number >= AnchorOf(x.call.lane).floor && NotBefore(w, x, first)
    ensures own.facts == first.facts
  {
    hide Judge, CollisionFree;
    var lane := x.call.lane;
    ItselfKnown(first, lane, w);
    var comments: seq<Comment>, asked: Row :| asked.facts == first.facts && Judge(c, comments, q, first.payload.labelName, asked, asked) == Candidate;
    var row := RowAt(rows, AnchorOf(lane).floor, own, first.facts.number);
    RunsAreTold(w, lane, row.facts, first.facts);
    CandidateCarriesOver(c, q, comments, first.payload.labelName, asked, asked,
                         x.snapshot.comments, x.webhook.labelName, own, row);
    RunsAreTold(w, lane, own.facts, first.facts);
  }

  lemma RunsAreOne(runs: seq<StartedRun>, a: StartedRun, b: StartedRun)
    requires NumberedRuns(runs) && a in runs && b in runs && a.facts.id == b.facts.id
    ensures a == b
  {
  }
}
