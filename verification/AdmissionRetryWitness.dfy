/** One subject that is admitted four times in its lane: the request, and three retries, each after the runs of its
    predecessor failed in both lanes. The bound on admissions is reached, and retries are accepted. */
module AdmissionRetryWitness {
  import opened Collections
  import opened Strings
  import opened NativeRecords
  import opened AdmissionPolicy
  import opened AdmissionEnvironment
  import opened AdmissionSafety
  import opened AdmissionRetries
  import opened AdmissionWitness

  // The four generations are numbered from zero.

  function Mark(g: nat): char { if g == 0 then '-' else if g == 1 then '_' else if g == 2 then '9' else '8' }
  function Label(g: nat): string { "ci:" + Repeat(Mark(g), 43) }
  function Body(g: nat): string { Repeat('x', g + 1) }
  function DigestOf(g: int): string { Repeat(if g == 0 then '0' else if g == 1 then '1' else if g == 2 then '2' else '3', 64) }

  function RunId(lane: Lane, g: nat): int { AnchorOf(lane).id + 10 * g }

  function Stated(g: nat): Request {
    Request(TheSubject(), if g == 0 then None else Some(Retry(g, DigestOf(g - 1), RunId(Gate, g - 1), RunId(Baseline, g - 1), Terminal)))
  }

  /** Labels and bodies change places. */
  function Swapped(s: string): string {
    if s == Body(0) then Label(0) else if s == Label(0) then Body(0)
    else if s == Body(1) then Label(1) else if s == Label(1) then Body(1)
    else if s == Body(2) then Label(2) else if s == Label(2) then Body(2)
    else if s == Body(3) then Label(3) else if s == Label(3) then Body(3) else s
  }

  function Spelled(s: string): Option<Request> {
    if s == Body(0) then Some(Stated(0)) else if s == Body(1) then Some(Stated(1))
    else if s == Body(2) then Some(Stated(2)) else if s == Body(3) then Some(Stated(3)) else None
  }

  function RetryCodec(): Codec { Codec(Swapped, Spelled, (q: Request) => DigestOf(q.Generation()), _ => Sum()) }

  function CommentOf(g: nat): Comment { Comment(g, OWNER, true, "OWNER", Body(g), 10 * g + 4) }
  function EdgeOf(g: nat): NativeEvent { LabelEdge(Labeled, Label(g), OWNER, 10 * g + 5) }
  function ProgressOf(g: nat): Progress { Progress(1, true, Failure, 10 * g + 8) }

  function EventName(lane: Lane): string { if lane.Gate? then "pull_request" else "pull_request_target" }
  function PayloadOf(lane: Lane, g: nat): Webhook { WebhookOf(Label(g)).(name := EventName(lane)) }
  function FactsAt(lane: Lane, g: nat): RunFacts {
    RunFacts(RunId(lane, g), AnchorOf(lane).floor + g, AnchorOf(lane).source, RequestTrigger(lane),
      Titled(7, Head(), Base(), "main", "labeled", OWNER, Ci(Label(g))), Head(), OWNER)
  }
  function RowAtPlace(lane: Lane, g: nat): Row { Row(FactsAt(lane, g), [PullRef(7, Head(), Base(), "main")], ProgressOf(g)) }

  function Four<T>(f: nat -> T): (s: seq<T>)
    ensures |s| == 4 && forall g :: 0 <= g < 4 ==> s[g] == f(g)
  {
    seq(4, g requires 0 <= g < 4 => f(g))
  }

  function Comments(): seq<Comment> { Four(g => CommentOf(g)) }
  function Edges(): seq<NativeEvent> { Four(g => EdgeOf(g)) }
  function RowsOf(lane: Lane): seq<Row> { Four(g => RowAtPlace(lane, g)) }
  function RunsOf(lane: Lane): seq<StartedRun> { Four(g => StartedRun(FactsAt(lane, g), PayloadOf(lane, g))) }

  function ProgressMap(): map<int, Progress> {
    map[RunId(Gate, 0) := ProgressOf(0), RunId(Gate, 1) := ProgressOf(1), RunId(Gate, 2) := ProgressOf(2), RunId(Gate, 3) := ProgressOf(3),
        RunId(Baseline, 0) := ProgressOf(0), RunId(Baseline, 1) := ProgressOf(1), RunId(Baseline, 2) := ProgressOf(2),
        RunId(Baseline, 3) := ProgressOf(3)]
  }

  function RetryWorld(): World {
    World(100, RunsOf(Gate), RunsOf(Baseline), ProgressMap(), Edges(), map[1 := PostedReview(TheReview(), Approved)])
  }

  /** What the execution for generation `g` reads. */
  function SnapshotOf(g: nat): Snapshot {
    Snapshot(
      Live(true, false, true, "owner/fork", Head(), "main", Base(), REPO, [Assignee(OWNER, "9")], [Label(g)], Merged()),
      Comments(), Permission(OWNER, "write"), Objective(true, false), [TheReview()], Commit(Merged(), Base(), [Base(), Head()]),
      Edges(), AnchorOf(Gate), [RowsOf(Gate)], AnchorOf(Baseline), [RowsOf(Baseline)], [])
  }

  function ExecutionOf(g: nat): Execution {
    Execution(Call(Gate, RunId(Gate, g), 1, Admit, Sum(), "", "", false, "", Merged()), PayloadOf(Gate, g), SnapshotOf(g), 0, 0, 0, 0, 0)
  }

  // ------------------------------------------------------------------ spellings

  lemma MarksAreLetters(g: nat)
    requires g < 4
    ensures Mark(g) in BASE64URL
  {
    assert BASE64URL[63] == '-' && BASE64URL[62] == '_' && BASE64URL[61] == '9' && BASE64URL[60] == '8';
  }

  lemma LabelsAreLabels(g: nat)
    requires g < 4
    ensures IsCiLabel(Label(g)) && |Label(g)| == 46 && Label(g)[3] == Mark(g)
  {
    hide Repeat;
    MarksAreLetters(g);
    assert Label(g)[..3] == "ci:" && Label(g)[3..] == Repeat(Mark(g), 43);
    assert Label(g)[3] in Repeat(Mark(g), 43);
  }

  lemma SpellingsDiffer(g: nat, h: nat)
    requires g < 4 && h < 4
    ensures Label(g) != Body(h)
    ensures Label(g) == Label(h) <==> g == h
    ensures Body(g) == Body(h) <==> g == h
  {
    hide Repeat;
    LabelsAreLabels(g);
    LabelsAreLabels(h);
    assert |Body(g)| == g + 1 && |Body(h)| == h + 1;
  }

  lemma SwapIsInvolution(s: string)
    ensures Swapped(Swapped(s)) == s
  {
    hide Label, Body;
    forall g: nat, h: nat | g < 4 && h < 4
      ensures Label(g) != Body(h) && (Label(g) == Label(h) <==> g == h) && (Body(g) == Body(h) <==> g == h)
    {
      SpellingsDiffer(g, h);
    }
  }

  lemma RetryLabelsDiffer()
    ensures CollisionFree(RetryCodec())
  {
    hide Swapped;
    forall a: string, b: string | Swapped(a) == Swapped(b) ensures a == b {
      SwapIsInvolution(a);
      SwapIsInvolution(b);
    }
  }

  lemma BodySpells(g: nat, h: nat)
    requires g < 4 && h < 4
    ensures Swapped(Body(g)) == Label(g) && Spelled(Body(g)) == Some(Stated(g))
    ensures Swapped(Body(g)) == Label(h) <==> g == h
  {
    hide Label, Body;
    forall i: nat, j: nat | i < 4 && j < 4
      ensures Label(i) != Body(j) && (Label(i) == Label(j) <==> i == j) && (Body(i) == Body(j) <==> i == j)
    {
      SpellingsDiffer(i, j);
    }
  }

  lemma DigestsDiffer(g: nat, h: nat)
    requires g < 4 && h < 4
    ensures DigestOf(g) == DigestOf(h) <==> g == h
    ensures Hex(DigestOf(g), 64)
  {
    hide Repeat;
    assert DigestOf(g)[0] in DigestOf(g) && DigestOf(h)[0] in DigestOf(h);
    assert HEX[0] == '0' && HEX[1] == '1' && HEX[2] == '2' && HEX[3] == '3';
  }

  lemma StatedIsWellFormed(g: nat)
    requires g < 4
    ensures WellFormed(Stated(g)) && Stated(g).Generation() == g
  {
    hide Repeat, Hex, IssueUrl, DigestOf;
    LabelsAndDigests();
    if g > 0 { DigestsDiffer(g - 1, 0); }
  }

  /** The label of each generation is read as its request. */
  lemma LabelIsRead(g: nat)
    requires g < 4
    ensures RequestFor(RetryCodec(), Comments(), Label(g), Some(OWNER)) == Some(Stated(g))
  {
    hide Repeat, Label, Body, WellFormed, Stated, Spelled, Swapped;
    var ms := Comments();
    MatchesAre(ms, g);
    BodySpells(g, g);
    StatedIsWellFormed(g);
    StatedIsOwned(g);
  }

  lemma MatchesAre(ms: seq<Comment>, g: nat)
    requires ms == Comments() && g < 4
    ensures LabelMatches(RetryCodec(), ms, Label(g), Some(OWNER)) == [ms[g]]
  {
    hide Repeat, Label, Body, Swapped;
    var c, name, owner := RetryCodec(), Label(g), Some(OWNER);
    var p := (m: Comment) => c.labelOf(m.body) == name && (owner.None? || m.userId == owner.value);
    forall j: nat | j < 4 ensures p(ms[j]) <==> j == g {
      BodySpells(j, g);
      assert ms[j] == CommentOf(j) && c.labelOf(ms[j].body) == Swapped(Body(j));
    }
    FilterKeepsOne(p, ms, g);
  }

  lemma StatedIsOwned(g: nat)
    ensures Stated(g).subject == TheSubject()
  {
  }

  // ------------------------------------------------------------------- history

  lemma TheEdge(g: nat)
    requires g < 4
    ensures EdgesOf(Edges(), Label(g)) == [EdgeOf(g)]
  {
    hide Repeat, Label;
    var es, name := Edges(), Label(g);
    var p := (e: NativeEvent) => e.LabelEdge? && e.labelName == name;
    forall j: nat | j < 4 ensures p(es[j]) <==> j == g {
      SpellingsDiffer(j, g);
      assert es[j] == EdgeOf(j);
    }
    FilterKeepsOne(p, es, g);
  }

  lemma RowsAreNumbered(lane: Lane)
    ensures var rows, a := RowsOf(lane), AnchorOf(lane);
      |rows| == 4 && forall g: nat :: g < 4 ==>
        rows[g].facts.number == a.floor + g && rows[g].facts.id == a.id + 10 * g && rows[g].facts.source == a.source
  {
    hide Label, Head, Base;
  }

  lemma NumberedRowsAreWhole(rows: seq<Row>, a: Anchor)
    requires |rows| == 4
    requires forall g: nat :: g < 4 ==>
      rows[g].facts.number == a.floor + g && rows[g].facts.id == a.id + 10 * g && rows[g].facts.source == a.source
    ensures AboveFloor(rows, a.floor) == rows && Authentic(rows, a.source, {}) && HasId(rows, a.id) && GapFree(rows, a.floor)
  {
    var floor := a.floor;
    FilterKeepsAll((row: Row) => row.facts.number >= floor, rows);
    assert rows[0] in rows && rows[0].facts.id == a.id;
    forall row, n | row in rows && floor <= n < row.facts.number ensures n in Numbers(rows) {
      assert rows[n - floor] in rows && rows[n - floor].facts.number == n;
    }
  }

  lemma RowsAreWhole(lane: Lane)
    ensures AboveFloor(RowsOf(lane), AnchorOf(lane).floor) == RowsOf(lane) && Authentic(RowsOf(lane), AnchorOf(lane).source, {})
    ensures HasId(RowsOf(lane), AnchorOf(lane).id) && GapFree(RowsOf(lane), AnchorOf(lane).floor)
  {
    hide RowsOf, AboveFloor, Authentic, HasId, GapFree;
    RowsAreNumbered(lane);
    NumberedRowsAreWhole(RowsOf(lane), AnchorOf(lane));
  }

  /** One page that holds the anchor and has no gap is the history. */
  lemma OnePageIsEnough(s: Snapshot, lane: Lane, rows: seq<Row>)
    requires s.AnchorRun(lane) == AnchorOf(lane) && s.Pages(lane) == [rows] && 0 < |rows| <= 100
    requires AboveFloor(rows, AnchorOf(lane).floor) == rows && Authentic(rows, AnchorOf(lane).source, {})
    requires HasId(rows, AnchorOf(lane).id) && GapFree(rows, AnchorOf(lane).floor)
    ensures CompleteRows(s, lane) == Some(rows)
  {
    hide AboveFloor, Authentic, HasId, GapFree;
    assert PageAt([rows], 0) == rows && [] + rows == rows;
    assert Gather([rows], AnchorOf(lane), 0, [], {}) == Some(rows);
  }

  lemma SnapshotPages(lane: Lane, g: nat)
    ensures SnapshotOf(g).AnchorRun(lane) == AnchorOf(lane) && SnapshotOf(g).Pages(lane) == [RowsOf(lane)] && |RowsOf(lane)| == 4
  {
    hide Label, Head, Base;
  }

  lemma RowsAreComplete(lane: Lane, g: nat)
    ensures CompleteRows(SnapshotOf(g), lane) == Some(RowsOf(lane))
  {
    hide RowsOf, SnapshotOf, AboveFloor, Authentic, HasId, GapFree, CompleteRows;
    RowsAreWhole(lane);
    SnapshotPages(lane, g);
    OnePageIsEnough(SnapshotOf(g), lane, RowsOf(lane));
  }

  lemma OwnRowIs(lane: Lane, g: nat)
    requires g < 4
    ensures OwnRow(RowsOf(lane), RunId(lane, g)) == Some(RowAtPlace(lane, g))
  {
    hide Head, Base, Label;
    var rows, id := RowsOf(lane), RunId(lane, g);
    FilterKeepsOne((row: Row) => row.facts.id == id, rows, g);
  }

  /** A row of a labelling run of the pull request, by the requester. */
  predicate Plain(row: Row, lane: Lane, name: string) {
    && row.facts.title == Titled(7, Head(), Base(), "main", "labeled", OWNER, Ci(name)) && row.facts.headSha == Head()
    && row.facts.actorId == OWNER && row.facts.trigger == RequestTrigger(lane) && PullRef(7, Head(), Base(), "main") in row.pulls
  }

  lemma RowsArePlain(lane: Lane, g: nat)
    ensures Plain(RowAtPlace(lane, g), lane, Label(g))
  {
    hide Head, Base, Label;
  }

  lemma PlainIsJudged(c: Codec, comments: seq<Comment>, q: Request, asked: string, own: Row, row: Row, name: string, p: Request)
    requires Plain(row, Gate, name) && own.facts.trigger == PullRequest
    requires q.subject == TheSubject() == p.subject && RequestFor(c, comments, name, Some(OWNER)) == Some(p)
    ensures Judge(c, comments, q, asked, own, row) ==
      if row.facts.number <= own.facts.number && p == q then Candidate else Skip
  {
    hide RequestFor, Head, Base, Merged, Sum;
  }

  lemma RowIsJudged(g: nat, j: nat)
    requires g < 4 && j < 4
    ensures Judge(RetryCodec(), Comments(), Stated(g), Label(g), RowAtPlace(Gate, g), RowAtPlace(Gate, j)) == if j == g then Candidate else Skip
  {
    hide Label, RequestFor, Head, Base, Comments, RetryCodec, Judge, TheSubject;
    LabelIsRead(j);
    StatedIsOwned(g);
    StatedIsOwned(j);
    StatedDiffer(g, j);
    RowsArePlain(Gate, j);
    PlainIsJudged(RetryCodec(), Comments(), Stated(g), Label(g), RowAtPlace(Gate, g), RowAtPlace(Gate, j), Label(j), Stated(j));
  }

  lemma StatedDiffer(g: nat, j: nat)
    requires g < 4 && j < 4
    ensures Stated(g) == Stated(j) <==> g == j
  {
    hide DigestOf, TheSubject;
    StatedIsWellFormed(g);
    StatedIsWellFormed(j);
  }

  lemma PlainIsPredecessor(c: Codec, comments: seq<Comment>, q: Request, lane: Lane, row: Row, name: string, p: Request)
    requires Plain(row, lane, name)
    requires q.subject == TheSubject() == p.subject && RequestFor(c, comments, name, Some(OWNER)) == Some(p)
    ensures JudgePredecessor(c, comments, q, lane, row) == if p == q then Candidate else Skip
  {
    hide RequestFor, Head, Base, Merged, Sum;
  }

  lemma PredecessorIsJudged(lane: Lane, g: nat, j: nat)
    requires g < 4 && j < 4
    ensures JudgePredecessor(RetryCodec(), Comments(), Stated(g), lane, RowAtPlace(lane, j)) == if j == g then Candidate else Skip
  {
    hide Label, RequestFor, Head, Base, Comments, RetryCodec, JudgePredecessor, TheSubject;
    LabelIsRead(j);
    StatedIsOwned(g);
    StatedIsOwned(j);
    StatedDiffer(g, j);
    RowsArePlain(lane, j);
    PlainIsPredecessor(RetryCodec(), Comments(), Stated(g), lane, RowAtPlace(lane, j), Label(j), Stated(j));
  }

  lemma SnapshotReads(g: nat)
    ensures SnapshotOf(g).comments == Comments() && SnapshotOf(g).events == Edges()
  {
    hide Label, Comments, Edges, Head, Base;
  }

  lemma GateRow(g: nat)
    ensures var row := RowAtPlace(Gate, g);
      row.facts.id == RunId(Gate, g) && row.facts.trigger == RequestTrigger(Gate) && row.facts.headSha == TheSubject().headSha
      && row.facts.actorId == TheSubject().ownerId
  {
    hide Label, Head, Base;
  }

  lemma CandidateIs(g: nat)
    requires g < 4
    ensures Candidates(RetryCodec(), Comments(), Stated(g), Label(g), RowAtPlace(Gate, g), RowsOf(Gate)) == [RowAtPlace(Gate, g)]
    ensures forall row :: row in RowsOf(Gate) ==> Judge(RetryCodec(), Comments(), Stated(g), Label(g), RowAtPlace(Gate, g), row) != Refuse
  {
    hide Label, Judge, Stated, Comments, RetryCodec, RowAtPlace;
    var c, ms, q, name, own, rows := RetryCodec(), Comments(), Stated(g), Label(g), RowAtPlace(Gate, g), RowsOf(Gate);
    forall j: nat | j < 4 ensures Judge(c, ms, q, name, own, rows[j]) == if j == g then Candidate else Skip {
      RowIsJudged(g, j);
      assert rows[j] == RowAtPlace(Gate, j);
    }
    FilterKeepsOne((row: Row) => Judge(c, ms, q, name, own, row) == Candidate, rows, g);
  }

  lemma RunIsElected(g: nat)
    requires g < 4
    ensures Elect(RetryCodec(), SnapshotOf(g), Label(g), Gate, RunId(Gate, g), Stated(g)) == Some(RowAtPlace(Gate, g))
  {
    hide Label, Judge, CompleteRows, Stated, Comments, RetryCodec, OwnRow, RowAtPlace, RowsOf, SnapshotOf, RunId, Candidates, TheSubject;
    var own := RowAtPlace(Gate, g);
    RowsAreComplete(Gate, g);
    SnapshotReads(g);
    OwnRowIs(Gate, g);
    GateRow(g);
    StatedIsOwned(g);
    CandidateIs(g);
    assert own in [own];
  }

  lemma PredecessorIs(lane: Lane, g: nat)
    requires g < 4
    ensures Predecessors(RetryCodec(), Comments(), Stated(g), lane, RowsOf(lane)) == [RowAtPlace(lane, g)]
    ensures forall row :: row in RowsOf(lane) ==> JudgePredecessor(RetryCodec(), Comments(), Stated(g), lane, row) != Refuse
  {
    hide JudgePredecessor, Stated, Comments, RetryCodec, RowAtPlace;
    var c, ms, q, rows := RetryCodec(), Comments(), Stated(g), RowsOf(lane);
    forall j: nat | j < 4 ensures JudgePredecessor(c, ms, q, lane, rows[j]) == if j == g then Candidate else Skip {
      PredecessorIsJudged(lane, g, j);
      assert rows[j] == RowAtPlace(lane, j);
    }
    FilterKeepsOne((row: Row) => JudgePredecessor(c, ms, q, lane, row) == Candidate, rows, g);
  }

  lemma SoleIsSettled(c: Codec, s: Snapshot, parent: Request, lane: Lane, rows: seq<Row>, row: Row)
    requires CompleteRows(s, lane) == Some(rows) && OwnRow(rows, row.facts.id).Some? && Terminated(row.progress)
    requires Predecessors(c, s.comments, parent, lane, rows) == [row]
    requires forall r :: r in rows ==> JudgePredecessor(c, s.comments, parent, lane, r) != Refuse
    ensures Settled(c, s, parent, lane, row.facts.id) == Some(row)
  {
    hide CompleteRows, OwnRow, JudgePredecessor, Predecessors;
    var all := [row];
    assert all[0] in all;
  }

  lemma RunIsSettled(lane: Lane, h: nat, g: nat)
    requires g < 4
    ensures Settled(RetryCodec(), SnapshotOf(h), Stated(g), lane, RunId(lane, g)) == Some(RowAtPlace(lane, g))
  {
    hide Label, JudgePredecessor, CompleteRows, Stated, Comments, RetryCodec, OwnRow, RowsOf, SnapshotOf, Predecessors, Settled;
    RowsAreComplete(lane, h);
    SnapshotReads(h);
    OwnRowIs(lane, g);
    PredecessorIs(lane, g);
    assert RowAtPlace(lane, g).facts.id == RunId(lane, g) && Terminated(RowAtPlace(lane, g).progress);
    SoleIsSettled(RetryCodec(), SnapshotOf(h), Stated(g), lane, RowsOf(lane), RowAtPlace(lane, g));
  }

  lemma SpellingIs(h: nat, g: nat)
    requires g < 4
    ensures AdmissionPolicy.Spellings(RetryCodec(), SnapshotOf(h).comments, Stated(g)) == [CommentOf(g)]
  {
    hide Label, Body, Head, Base, Stated, RequestFor, Swapped, DigestOf;
    var c, ms, child := RetryCodec(), Comments(), Stated(g);
    StatedIsOwned(g);
    var owner := child.subject.ownerId;
    var p := (m: Comment) =>
      && m.userId == owner
      && var r := RequestFor(c, ms, c.labelOf(m.body), Some(owner));
         r.Some? && c.digest(r.value) == c.digest(child);
    forall j: nat | j < 4 ensures p(ms[j]) <==> j == g {
      BodySpells(j, j);
      LabelIsRead(j);
      StatedIsWellFormed(j);
      StatedIsWellFormed(g);
      DigestsDiffer(j, g);
      assert ms[j] == CommentOf(j) && c.labelOf(ms[j].body) == Label(j);
    }
    FilterKeepsOne(p, ms, g);
  }

  lemma SoleApplication(c: Codec, es: seq<NativeEvent>, m: Comment, g: nat)
    requires g < |es| && forall j :: 0 <= j < |es| ==>
      es[j].LabelEdge? && es[j].kind == Labeled && (es[j].labelName == c.labelOf(m.body) <==> j == g)
    ensures Applications(c, es, [m]) == [es[g]]
  {
    var spellings := [m];
    assert m in spellings;
    FilterKeepsOne((e: NativeEvent) => e.LabelEdge? && e.kind == Labeled && exists m :: m in spellings && e.labelName == c.labelOf(m.body), es, g);
  }

  lemma EdgesAre()
    ensures |Edges()| == 4
    ensures forall j: nat :: j < 4 ==>
      Edges()[j] == EdgeOf(j) && EdgeOf(j).LabelEdge? && EdgeOf(j).kind == Labeled && EdgeOf(j).labelName == Label(j)
  {
    hide Label;
  }

  lemma CommentSpells(g: nat)
    requires g < 4
    ensures RetryCodec().labelOf(CommentOf(g).body) == Label(g)
  {
    hide Label, Body, Swapped;
    BodySpells(g, g);
  }

  lemma ApplicationIs(g: nat)
    requires g < 4
    ensures Applications(RetryCodec(), Edges(), [CommentOf(g)]) == [EdgeOf(g)]
  {
    hide Label, EdgeOf, Edges, CommentOf, RetryCodec, Applications;
    var es := Edges();
    EdgesAre();
    CommentSpells(g);
    forall j: nat | j < 4 ensures Label(j) == Label(g) <==> j == g { SpellingsDiffer(j, g); }
    SoleApplication(RetryCodec(), es, CommentOf(g), g);
  }

  lemma SoleInTime(c: Codec, s: Snapshot, child: Request, retiredAt: int, m: Comment, e: NativeEvent)
    requires AdmissionPolicy.Spellings(c, s.comments, child) == [m] && Applications(c, s.events, [m]) == [e] && e.LabelEdge?
    requires e.actorId == child.subject.ownerId && e.createdAt > retiredAt && m.createdAt > retiredAt
    ensures StatedAfter(c, s, child, retiredAt)
  {
    hide AdmissionPolicy.Spellings, Applications;
  }

  lemma StatedInTime(h: nat, g: nat)
    requires 0 < g < 4
    ensures StatedAfter(RetryCodec(), SnapshotOf(h), Stated(g), 10 * (g - 1) + 8)
  {
    hide Label, Body, RetryCodec, SnapshotOf, Stated, AdmissionPolicy.Spellings, Applications, Edges, Comments, StatedAfter, TheSubject;
    SnapshotReads(h);
    SpellingIs(h, g);
    ApplicationIs(g);
    StatedIsOwned(g);
    OwnerIs();
    SoleInTime(RetryCodec(), SnapshotOf(h), Stated(g), 10 * (g - 1) + 8, CommentOf(g), EdgeOf(g));
  }

  lemma LinkHolds(h: nat, g: nat)
    requires 0 < g < 4
    ensures Succeeds(RetryCodec(), SnapshotOf(h), Stated(g - 1), Stated(g))
  {
    hide Label, RetryCodec, SnapshotOf, Settled, StatedAfter, DigestOf, RunId, Head, Base, TheSubject;
    RunIsSettled(Gate, h, g - 1);
    RunIsSettled(Baseline, h, g - 1);
    StatedInTime(h, g);
  }

  predicate Digests(c: Codec, all: seq<Comment>, m: Comment, identity: string, owner: int) {
    var r := RequestFor(c, all, c.labelOf(m.body), Some(owner));
    r.Some? && c.digest(r.value) == identity
  }

  /** All the matches are requests that some comment's label is read as, with the digest. */
  lemma {:induction false} MatchesAreRead(c: Codec, comments: seq<Comment>, all: seq<Comment>, identity: string, owner: int)
    ensures forall q :: q in PriorMatches(c, comments, all, identity, owner) ==>
      exists m :: m in comments && RequestFor(c, all, c.labelOf(m.body), Some(owner)) == Some(q)
    ensures (exists m :: m in comments && m.userId == owner && Digests(c, all, m, identity, owner)) ==>
      PriorMatches(c, comments, all, identity, owner) != []
  {
    hide RequestFor;
    if comments != [] {
      MatchesAreRead(c, comments[1..], all, identity, owner);
      assert forall m :: m in comments <==> m == comments[0] || m in comments[1..];
    }
  }

  lemma CommentIsRead(g: nat)
    requires g < 4
    ensures RequestFor(RetryCodec(), Comments(), RetryCodec().labelOf(Comments()[g].body), Some(OWNER)) == Some(Stated(g))
    ensures Comments()[g].userId == OWNER && RetryCodec().digest(Stated(g)) == DigestOf(g)
  {
    hide Label, Body, Swapped, RequestFor, DigestOf, Stated;
    BodySpells(g, g);
    LabelIsRead(g);
    StatedIsWellFormed(g);
    assert Comments()[g] == CommentOf(g);
  }

  lemma PriorIs(g: nat)
    requires g < 4
    ensures PriorRequest(RetryCodec(), Comments(), DigestOf(g), OWNER) == Some(Stated(g))
  {
    hide RequestFor, PriorMatches, DigestOf, Stated, RetryCodec, Comments;
    var c, ms := RetryCodec(), Comments();
    CommentsAre();
    MatchesAreRead(c, ms, ms, DigestOf(g), OWNER);
    forall j: nat | j < 4
      ensures RequestFor(c, ms, c.labelOf(ms[j].body), Some(OWNER)) == Some(Stated(j))
      ensures c.digest(Stated(j)) == DigestOf(j) && (DigestOf(j) == DigestOf(g) <==> j == g)
    {
      CommentIsRead(j);
      DigestsDiffer(j, g);
    }
    CommentIsRead(g);
    assert ms[g] in ms && Digests(c, ms, ms[g], DigestOf(g), OWNER);
    var found := PriorMatches(c, ms, ms, DigestOf(g), OWNER);
    assert found[0] in found;
    var m :| m in ms && RequestFor(c, ms, c.labelOf(m.body), Some(OWNER)) == Some(found[0]);
    var j :| 0 <= j < 4 && ms[j] == m;
  }

  lemma {:induction false} ChainHolds(h: nat, g: nat)
    requires g < 4
    ensures BoundedRetry(Stated(g).retry) && RetryChain(RetryCodec(), SnapshotOf(h), Stated(g))
  {
    hide RetryCodec, SnapshotOf, PriorRequest, Succeeds, DigestOf, RunId, TheSubject;
    StatedIsWellFormed(g);
    if g > 0 {
      SnapshotReads(h);
      PriorIs(g - 1);
      LinkHolds(h, g);
      ChainHolds(h, g - 1);
      StatedIsOwned(g);
      OwnerIs();
    }
  }

  lemma OwnerIs()
    ensures TheSubject().ownerId == OWNER
  {
  }

  // ------------------------------------------------------------------ admission

  lemma NothingRetires(reviews: seq<Review>, events: seq<NativeEvent>, at: int)
    requires (forall r :: r in reviews ==> r.state != ChangesRequested) && forall e :: e in events ==> !e.ReviewDismissal?
    ensures !ReviewRetires(reviews, events, at)
  {
  }

  lemma RetryEdgesStand(g: nat)
    requires g < 4
    ensures EdgesStand(Edges(), Label(g), OWNER) && EdgesOf(Edges(), Label(g)) != []
    ensures !ReviewRetires([TheReview()], Edges(), FirstTime(EdgesOf(Edges(), Label(g))))
  {
    hide Label, EdgesOf, Edges, Head, ReviewRetires, FirstTime;
    TheEdge(g);
    EdgesAre();
    NothingRetires([TheReview()], Edges(), FirstTime(EdgesOf(Edges(), Label(g))));
  }

  lemma ActiveLabelIs(g: nat)
    requires g < 4
    ensures ActiveLabels(RetryCodec(), Comments(), [Label(g)], TheSubject()) == [Label(g)]
  {
    hide Label, Comments, RetryCodec, RequestFor, IsCiLabel;
    LabelsAreLabels(g);
    LabelIsRead(g);
    StatedIsOwned(g);
    OwnerIs();
  }

  lemma CurrentWhen(c: Codec, s: Snapshot, e: Webhook, policy: string, q: Request)
    requires RequestFor(c, s.comments, e.labelName, Some(e.senderId)) == Some(q)
    requires e.repository == REPO && !e.isPrivate && e.senderIsUser && s.live.open && !s.live.draft && s.live.mergeable
    requires Paged(|s.comments|) && Paged(|s.reviews|) && Paged(|s.events|) && SubjectIsLive(q.subject, e, s.live)
    requires OwnerMayAdmit(q.subject, s.live, s.permission) && q.subject.policySha256 == policy
    requires e.labelName in s.live.labels && ActiveLabels(c, s.comments, s.live.labels, q.subject) == [e.labelName]
    requires s.objective.open && !s.objective.isPullRequest
    requires c.generation(Filter((r: Review) => r.id in q.subject.reviewIds, s.reviews)) == q.subject.reviewGeneration
    requires SelectedReviewsStand(q.subject, s.reviews) && ReviewStatesKnown(s.reviews) && !Blocked(s.reviews)
    requires Integrates(q.subject, s.live, s.merge) && EdgesStand(s.events, e.labelName, q.subject.ownerId)
    requires EdgesOf(s.events, e.labelName) != [] && !ReviewRetires(s.reviews, s.events, FirstTime(EdgesOf(s.events, e.labelName)))
    ensures Current(c, s, e, policy) == Some(q)
  {
    hide RequestFor, Paged, SubjectIsLive, OwnerMayAdmit, ActiveLabels, SelectedReviewsStand, ReviewStatesKnown, Blocked, Integrates,
      EdgesStand, EdgesOf, ReviewRetires, FirstTime;
  }

  lemma SnapshotIsLive(g: nat)
    ensures var s, e := SnapshotOf(g), PayloadOf(Gate, g);
      && e.labelName == Label(g) && e.senderId == OWNER && e.repository == REPO && !e.isPrivate && e.senderIsUser
      && s.live.open && !s.live.draft && s.live.mergeable && s.live.labels == [Label(g)]
      && s.objective.open && !s.objective.isPullRequest && s.reviews == [TheReview()]
      && SubjectIsLive(TheSubject(), e, s.live) && Integrates(TheSubject(), s.live, s.merge)
  {
    hide Label, Head, Base, Merged, Sum, Comments, Edges;
  }

  lemma OwnerIsLive(g: nat)
    ensures OwnerMayAdmit(TheSubject(), SnapshotOf(g).live, SnapshotOf(g).permission)
  {
    hide Label, Head, Base, Merged, Sum, Comments, Edges, AllIn;
    LabelsAndDigests();
  }

  lemma SubjectFacts()
    ensures TheSubject().policySha256 == Sum() && TheSubject().reviewGeneration == Sum() && TheSubject().ownerId == OWNER
  {
    hide Sum, Head, Base, Merged;
  }

  lemma RetryIsCurrent(g: nat)
    requires g < 4
    ensures Current(RetryCodec(), SnapshotOf(g), PayloadOf(Gate, g), Sum()) == Some(Stated(g))
  {
    hide Label, Comments, RetryCodec, RequestFor, Sum, Stated, Edges, ActiveLabels, SnapshotOf, PayloadOf, TheSubject, TheReview, Current,
      SelectedReviewsStand, ReviewStatesKnown, Blocked, EdgesStand, ReviewRetires, EdgesOf, SubjectIsLive, Integrates, OwnerMayAdmit,
      FirstTime, Filter;
    SnapshotIsLive(g);
    SnapshotReads(g);
    OwnerIsLive(g);
    SubjectFacts();
    LabelIsRead(g);
    StatedIsOwned(g);
    TheReviewsStand();
    RetryEdgesStand(g);
    ActiveLabelIs(g);
    EdgesAre();
    CommentsAre();
    GenerationIs();
    CurrentWhen(RetryCodec(), SnapshotOf(g), PayloadOf(Gate, g), Sum(), Stated(g));
  }

  lemma GenerationIs()
    ensures forall reviews: seq<Review> :: RetryCodec().generation(reviews) == Sum()
  {
    hide Sum;
  }

  lemma CommentsAre()
    ensures |Comments()| == 4
  {
  }

  lemma RetryIsAdmitted(g: nat)
    requires g < 4
    ensures Outcome(RetryCodec(), ExecutionOf(g)) == Admitted(Stated(g))
  {
    hide Label, RetryCodec, IsCiLabel, Current, Elect, RetryChain, Stated, SnapshotOf, Head, Base, Merged, Sum;
    LabelsAreLabels(g);
    RetryIsCurrent(g);
    RunIsElected(g);
    ChainHolds(g, g);
    StatedIsOwned(g);
  }

  lemma RunsAre(lane: Lane)
    ensures var runs, a := RunsOf(lane), AnchorOf(lane);
      RetryWorld().Runs(lane) == runs && |runs| == 4
      && forall g: nat :: g < 4 ==> runs[g].facts.number == a.floor + g && runs[g].facts.id == RunId(lane, g)
  {
    hide Label, Head, Base, PayloadOf;
  }

  lemma ProgressIs(lane: Lane, g: nat)
    requires g < 4
    ensures RunId(lane, g) in ProgressMap() && ProgressMap()[RunId(lane, g)] == ProgressOf(g)
  {
  }

  lemma RunsAreTracked(lane: Lane)
    ensures Tracked(RunsOf(lane), ProgressMap())
  {
    hide ProgressMap, RunsOf, RunId;
    RunsAre(lane);
    forall run | run in RunsOf(lane) ensures run.facts.id in ProgressMap() {
      var g: nat :| g < 4 && RunsOf(lane)[g] == run;
      ProgressIs(lane, g);
    }
  }

  lemma RunsAreNumbered(lane: Lane)
    ensures NumberedRuns(RunsOf(lane)) && Tracked(RunsOf(lane), ProgressMap())
  {
    hide RunsOf, Tracked, RetryWorld, ProgressMap;
    RunsAre(lane);
    RunsAreTracked(lane);
  }

  lemma EdgesAreInOrder()
    ensures Chronological(Edges(), 100)
  {
    hide Label, Edges;
    EdgesAre();
  }

  lemma RetryWorldIsSound()
    ensures Trace([RetryWorld()])
  {
    hide RunsOf, ProgressMap, Edges, Head, NumberedRuns, Tracked, Chronological;
    RunsAreNumbered(Gate);
    RunsAreNumbered(Baseline);
    EdgesAreInOrder();
  }

  lemma RowIsNative(lane: Lane, g: nat)
    requires g < 4
    ensures Native(RowAtPlace(lane, g), lane, RetryWorld())
  {
    hide Label, Head, Base, ProgressMap, ProgressOf, Edges;
    ProgressIs(lane, g);
    RunsAre(lane);
    assert RunsOf(lane)[g] == StartedRun(FactsAt(lane, g), PayloadOf(lane, g)) && RunsOf(lane)[g] in RetryWorld().Runs(lane);
  }

  lemma RowsAreNative(lane: Lane)
    ensures ListsRuns([RowsOf(lane)], lane, RetryWorld())
  {
    hide RetryWorld, RowAtPlace, Native;
    forall page, row | page in [RowsOf(lane)] && row in page ensures Native(row, lane, RetryWorld()) {
      var g: nat :| g < 4 && RowsOf(lane)[g] == row;
      RowIsNative(lane, g);
    }
  }

  lemma RunIsStarted(g: nat)
    requires g < 4
    ensures exists run :: run in RetryWorld().Runs(Gate) && run.facts.id == RunId(Gate, g) && run.payload == PayloadOf(Gate, g)
  {
    hide Label, Head, Base, PayloadOf, ProgressMap, Edges;
    RunsAre(Gate);
    assert RunsOf(Gate)[g] == StartedRun(FactsAt(Gate, g), PayloadOf(Gate, g)) && RunsOf(Gate)[g] in RetryWorld().Runs(Gate);
  }

  lemma ReviewsAreListed()
    ensures ListsReviews([TheReview()], RetryWorld()) && RetryWorld().events == Edges()
  {
    hide RunsOf, ProgressMap, Edges, Head;
  }

  lemma RetryPlays(g: nat)
    requires g < 4
    ensures Plays([RetryWorld()], ExecutionOf(g))
  {
    hide RetryWorld, SnapshotOf, ListsRuns, ListsReviews, PayloadOf, RunsOf, RunId, RowsOf;
    SnapshotPages(Gate, g);
    SnapshotPages(Baseline, g);
    SnapshotIsLive(g);
    SnapshotReads(g);
    RowsAreNative(Gate);
    RowsAreNative(Baseline);
    RunIsStarted(g);
    ReviewsAreListed();
  }

  lemma GenerationIsAdmitted(g: nat)
    requires g < 4
    ensures AdmitsSubject(RetryCodec(), [RetryWorld()], ExecutionOf(g), Stated(g), Gate, TheSubject())
    ensures Stated(g).Generation() == g && ExecutionOf(g).call.runId == RunId(Gate, g)
  {
    hide RetryCodec, Plays, Outcome, Stated, SnapshotOf, PayloadOf, RetryWorld, RunId, TheSubject;
    RetryPlays(g);
    RetryIsAdmitted(g);
    StatedIsOwned(g);
    StatedIsWellFormed(g);
  }

  /** Four runs of one lane are admitted for one subject, the last three of them for accepted retries. */
  lemma FourAdmissions() returns (c: Codec, ws: seq<World>, xs: seq<Execution>, qs: seq<Request>, u: Subject)
    ensures CollisionFree(c) && Trace(ws) && |xs| == |qs| == 4
    ensures forall g :: 0 <= g < 4 ==> AdmitsSubject(c, ws, xs[g], qs[g], Gate, u) && qs[g].Generation() == g
    ensures forall i, j :: 0 <= i < j < 4 ==> xs[i].call.runId != xs[j].call.runId
  {
    hide RetryCodec, Trace, CollisionFree, Stated, ExecutionOf, AdmitsSubject, RetryWorld, TheSubject;
    RetryLabelsDiffer();
    RetryWorldIsSound();
    c, ws, u := RetryCodec(), [RetryWorld()], TheSubject();
    xs, qs := Four(g => ExecutionOf(g)), Four(g => Stated(g));
    forall g: nat | g < 4
      ensures AdmitsSubject(c, ws, xs[g], qs[g], Gate, u) && qs[g].Generation() == g && xs[g].call.runId == RunId(Gate, g)
    {
      GenerationIsAdmitted(g);
      assert xs[g] == ExecutionOf(g) && qs[g] == Stated(g);
    }
  }
}
