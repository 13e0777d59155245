/** A history in which a request is admitted, although a second label that spells the same request was applied and
    withdrawn, and although the pull request was closed by a run that the rows read do not reach. The safety theorems
    are about something that happens, and two of their conditions are needed: retirement concerns a label and the runs
    that follow it, and a transition the rows that reach it. */
module AdmissionWitness {
  import opened Collections
  import opened Strings
  import opened NativeRecords
  import opened AdmissionPolicy
  import opened AdmissionEnvironment
  import opened AdmissionSafety

  const OWNER := 11
  const BODY := "request"
  const AGAIN := "request "

  function Head(): string { Repeat('a', 40) }
  function Base(): string { Repeat('b', 40) }
  function Merged(): string { Repeat('c', 40) }
  function Sum(): string { Repeat('d', 64) }
  function Name(): string { "ci:" + Repeat('-', 43) }
  function Other(): string { "ci:" + Repeat('_', 43) }

  function TheSubject(): Subject {
    Subject(REPO, 7, "owner/fork", Head(), "main", Base(), Merged(), Base(), Sum(), OWNER, ISSUES + "1", [1], Sum())
  }

  function TheRequest(): Request { Request(TheSubject(), None) }

  /** Labels and bodies change places, so different bodies carry different labels. */
  function LabelOf(body: string): string {
    if body == BODY then Name() else if body == Name() then BODY
    else if body == AGAIN then Other() else if body == Other() then AGAIN else body
  }

  function TheCodec(): Codec {
    Codec(LabelOf, body => if body == BODY || body == AGAIN then Some(TheRequest()) else None, _ => Sum(), _ => Sum())
  }

  function WebhookOf(name: string): Webhook {
    Webhook("pull_request", "labeled", name, false, 0, "", REPO, false, OWNER, true, 7, "owner/fork", Head(), "main", Base(), REPO)
  }

  function FactsOf(name: string, n: nat): RunFacts {
    RunFacts(AnchorOf(Gate).id + n, AnchorOf(Gate).floor + n, AnchorOf(Gate).source, PullRequest,
      Titled(7, Head(), Base(), "main", "labeled", OWNER, Ci(name)), Head(), OWNER)
  }

  /** The run that records the closing of the pull request. */
  function TheClosing(): StartedRun {
    StartedRun(
      RunFacts(AnchorOf(Gate).id + 2, AnchorOf(Gate).floor + 2, AnchorOf(Gate).source, PullRequest,
        Titled(7, Head(), Base(), "main", "closed", OWNER, OtherTag), Head(), OWNER),
      WebhookOf(Name()).(action := "closed", labelName := ""))
  }

  function TheWebhook(): Webhook { WebhookOf(Name()) }
  function TheFacts(): RunFacts { FactsOf(Name(), 0) }
  function TheSecond(): StartedRun { StartedRun(FactsOf(Other(), 1), WebhookOf(Other())) }

  function TheReview(): Review { Review(1, 12, Approved, Head(), Some(1), "fine", "MEMBER") }
  function TheEdge(): NativeEvent { LabelEdge(Labeled, Name(), OWNER, 5) }
  function TheEvents(): seq<NativeEvent> {
    [TheEdge(), LabelEdge(Labeled, Other(), OWNER, 6), LabelEdge(Unlabeled, Other(), OWNER, 7)]
  }
  function TheProgress(): Progress { Progress(1, false, OtherConclusion, 9) }
  function RowOf(facts: RunFacts): Row { Row(facts, [PullRef(7, Head(), Base(), "main")], TheProgress()) }
  function TheRow(): Row { RowOf(TheFacts()) }
  function TheRows(): seq<Row> { [TheRow(), RowOf(TheSecond().facts)] }

  function TheWorld(): World {
    World(10, [StartedRun(TheFacts(), TheWebhook()), TheSecond(), TheClosing()], [],
      map[TheFacts().id := TheProgress(), TheSecond().facts.id := TheProgress(), TheClosing().facts.id := TheProgress()], TheEvents(),
      map[1 := PostedReview(TheReview(), Approved)])
  }

  function TheSnapshot(): Snapshot {
    Snapshot(
      Live(true, false, true, "owner/fork", Head(), "main", Base(), REPO, [Assignee(OWNER, "9")], [Name()], Merged()),
      [Comment(3, OWNER, true, "OWNER", BODY, 4), Comment(4, OWNER, true, "OWNER", AGAIN, 4)], Permission(OWNER, "write"), Objective(true, false), [TheReview()],
      Commit(Merged(), Base(), [Base(), Head()]), TheEvents(), AnchorOf(Gate), [TheRows()], AnchorOf(Baseline), [], [])
  }

  function TheExecution(): Execution {
    Execution(Call(Gate, TheFacts().id, 1, Admit, Sum(), "", "", false, "", Merged()), TheWebhook(), TheSnapshot(), 0, 0, 0, 0, 0)
  }

  lemma LabelsAndDigests()
    ensures IsCiLabel(Name()) && IsCiLabel(Other()) && Name() != Other()
    ensures WellFormed(TheRequest()) && NotBlank("fine") && AllIn("9", LOGIN)
  {
    hide Repeat;
    assert BASE64URL[63] == '-' && BASE64URL[62] == '_' && LOGIN[61] == '9';
    assert Name()[..3] == "ci:" && Name()[3..] == Repeat('-', 43);
    assert Other()[..3] == "ci:" && Other()[3..] == Repeat('_', 43);
    assert Name()[3] in Repeat('-', 43) && Other()[3] in Repeat('_', 43);
    assert HEX[10] == 'a' && HEX[11] == 'b' && HEX[12] == 'c' && HEX[13] == 'd';
    var url := ISSUES + "1";
    assert url[..|ISSUES|] == ISSUES && url[|ISSUES|..] == "1" && DIGITS[1] == '1';
    assert "fine"[0] == 'f' && 'f' in "fine";
  }

  lemma LabelsDiffer()
    ensures CollisionFree(TheCodec())
    ensures LabelOf(BODY) == Name() && LabelOf(AGAIN) == Other()
  {
    hide Repeat;
    LabelsAndDigests();
    assert Name()[0] == 'c' && Other()[0] == 'c' && BODY[0] == 'r' && AGAIN[0] == 'r' && |BODY| != |AGAIN|;
  }

  lemma TheRequestIsRead(name: string, owner: Option<int>)
    requires (name == Name() || name == Other()) && (owner.None? || owner == Some(OWNER))
    ensures RequestFor(TheCodec(), TheSnapshot().comments, name, owner) == Some(TheRequest())
  {
    hide Repeat, Name, Other, WellFormed;
    LabelsAndDigests();
    LabelsDiffer();
    var ms := TheSnapshot().comments;
    var p := (m: Comment) => TheCodec().labelOf(m.body) == name && (owner.None? || m.userId == owner.value);
    FilterAppend(p, [ms[0]], [ms[1]]);
    assert ms == [ms[0]] + [ms[1]];
    assert LabelMatches(TheCodec(), ms, name, owner) == if name == Name() then [ms[0]] else [ms[1]];
  }

  lemma TheReviewsStand()
    ensures SelectedReviewsStand(TheSubject(), [TheReview()]) && ReviewStatesKnown([TheReview()]) && !Blocked([TheReview()])
    ensures |TheEvents()| == 3 && EdgesOf(TheEvents(), Name()) == [TheEdge()] && EdgesStand(TheEvents(), Name(), OWNER)
    ensures !ReviewRetires([TheReview()], TheEvents(), FirstTime([TheEdge()]))
  {
    hide Repeat, Head, Base, Merged, Sum, Name, Other;
    LabelsAndDigests();
    assert TheReview() in [TheReview()];
    var events := TheEvents();
    assert events[1..][1..][1..] == [];
  }

  lemma TheRequestIsCurrent()
    ensures Current(TheCodec(), TheSnapshot(), TheWebhook(), Sum()) == Some(TheRequest())
  {
    hide Repeat, Head, Base, Merged, Sum, Name, Other, WellFormed, RequestFor, IsCiLabel, AllIn, TheEvents;
    hide SelectedReviewsStand, ReviewStatesKnown, Blocked, EdgesStand, ReviewRetires, EdgesOf;
    LabelsAndDigests();
    TheReviewsStand();
    TheRequestIsRead(Name(), Some(OWNER));
    assert ActiveLabels(TheCodec(), TheSnapshot().comments, [Name()], TheSubject()) == [Name()];
  }

  lemma ThePageIsWhole()
    ensures AboveFloor(TheRows(), AnchorOf(Gate).floor) == TheRows() && Authentic(TheRows(), AnchorOf(Gate).source, {})
    ensures HasId(TheRows(), AnchorOf(Gate).id) && GapFree(TheRows(), AnchorOf(Gate).floor)
  {
    hide Repeat, Head, Base, Name, Other;
    var rows := TheRows();
    assert rows[1..][1..] == [];
    assert TheRow() in rows;
  }

  lemma TheHistoryIsComplete()
    ensures CompleteRows(TheSnapshot(), Gate) == Some(TheRows())
  {
    hide Repeat, Head, Base, Name, Other, AboveFloor, Authentic, HasId, GapFree;
    ThePageIsWhole();
    var pages := TheSnapshot().gatePages;
    assert PageAt(pages, 0) == TheRows() && |TheRows()| == 2;
    assert [] + TheRows() == TheRows();
    assert Gather(pages, AnchorOf(Gate), 0, [], {}) == Some(TheRows());
  }

  lemma RowsAreJudged(own: Row, row: Row)
    requires own == TheRow() || own == RowOf(TheSecond().facts)
    ensures row == own ==> Judge(TheCodec(), TheSnapshot().comments, TheRequest(), own.facts.title.tag.labelName, own, row) == Candidate
    ensures own == TheRow() && row == RowOf(TheSecond().facts) ==>
      Judge(TheCodec(), TheSnapshot().comments, TheRequest(), Name(), own, row) == Skip
  {
    hide Repeat, Name, Other, WellFormed, RequestFor, IsCiLabel;
    TheRequestIsRead(Name(), Some(OWNER));
    TheRequestIsRead(Other(), Some(OWNER));
  }

  lemma TheRunIsElected()
    ensures Elect(TheCodec(), TheSnapshot(), Name(), Gate, TheFacts().id, TheRequest()) == Some(TheRow())
  {
    hide Repeat, Head, Base, Name, Other, RequestFor, CompleteRows, Judge;
    TheHistoryIsComplete();
    var rows := TheRows();
    RowsAreJudged(TheRow(), TheRow());
    RowsAreJudged(TheRow(), RowOf(TheSecond().facts));
    assert rows[1..][1..] == [] && OwnRow(rows, TheFacts().id) == Some(TheRow());
    assert Candidates(TheCodec(), TheSnapshot().comments, TheRequest(), Name(), TheRow(), rows) == [TheRow()];
    assert TheRow() in [TheRow()];
  }

  lemma TheWorldIsSound()
    ensures Trace([TheWorld()])
  {
    hide Repeat, Head, Base, Merged, Sum, Name, Other;
  }

  lemma TheTracePlays()
    ensures Trace([TheWorld()]) && Plays([TheWorld()], TheExecution())
  {
    hide Repeat, Head, Base, Merged, Sum, Name, Other, Trace, FactsOf, WebhookOf;
    TheWorldIsSound();
    var w := TheWorld();
    assert StartedRun(TheFacts(), TheWebhook()) in w.gate && TheSecond() in w.gate;
  }

  /** Some trace holds an execution that admits its request. */
  lemma AdmissionHappens() returns (c: Codec, ws: seq<World>, x: Execution, q: Request)
    ensures CollisionFree(c) && Trace(ws) && Plays(ws, x) && Outcome(c, x) == Admitted(q)
    ensures c == TheCodec() && ws == [TheWorld()] && x == TheExecution() && q == TheRequest()
  {
    hide Repeat, WellFormed, RequestFor, IsCiLabel, Current, Elect, Trace, Plays, CollisionFree, LabelOf;
    LabelsAndDigests();
    LabelsDiffer();
    TheRequestIsCurrent();
    TheRunIsElected();
    TheTracePlays();
    c, ws, x, q := TheCodec(), [TheWorld()], TheExecution(), TheRequest();
  }

  /** A run asked for the request through a label that was withdrawn, and an earlier run is admitted for it all the
      same: the theorem about later runs does not extend to earlier ones. */
  lemma EarlierRunOutlivesALabel() returns (c: Codec, ws: seq<World>, x: Execution, q: Request, second: StartedRun)
    ensures CollisionFree(c) && Trace(ws) && Plays(ws, x) && Outcome(c, x) == Admitted(q)
    ensures second in ws[x.start].Runs(x.call.lane) && Asked(c, q, second) && Withdrawn(ws[x.start], second.payload.labelName)
    ensures second.facts.number >= AnchorOf(x.call.lane).floor && !NotBefore(ws[|ws| - 1], x, second)
  {
    hide Repeat, Head, Base, Merged, Sum, Name, Other, Outcome, CollisionFree, Trace, Plays, Judge;
    c, ws, x, q := AdmissionHappens();
    second := TheSecond();
    RowsAreJudged(RowOf(second.facts), RowOf(second.facts));
    assert Asked(c, q, second);
    assert TheEvents()[2] in ws[0].events;
    assert StartedRun(TheFacts(), TheWebhook()) in ws[0].gate;
    assert ws[0].gate[1] == second;
  }

  /** A later run recorded a material transition before the execution started, and its read, whose rows stop short of
      that run, admits all the same. */
  lemma StoppingShortAdmits() returns (c: Codec, ws: seq<World>, x: Execution, q: Request)
    ensures CollisionFree(c) && Trace(ws) && Plays(ws, x) && Outcome(c, x) == Admitted(q)
    ensures Overtaken(ws[x.start], x.call.lane, x.call.runId, q, x.webhook.labelName)
    ensures !OvertakenInReach(ws[|ws| - 1], x, q, x.webhook.labelName)
  {
    hide Repeat, Head, Base, Merged, Sum, Name, Other, Outcome, CollisionFree, Trace, Plays, Judge, Reaches;
    c, ws, x, q := AdmissionHappens();
    var own := StartedRun(TheFacts(), TheWebhook());
    assert ws[0].gate[0] == own && ws[0].gate[1] == TheSecond() && ws[0].gate[2] == TheClosing();
    assert Overtakes(TheClosing(), own, x.call.runId, q, x.webhook.labelName);
    NothingElseOvertakes();
    TheRowsStopShort();
  }

  lemma NothingElseOvertakes()
    ensures forall run, own :: run in TheWorld().gate && Overtakes(run, own, TheFacts().id, TheRequest(), Name()) ==> run == TheClosing()
  {
    hide Repeat, Head, Base, Merged, Sum, Name, Other;
    forall run, own | run in TheWorld().gate && Overtakes(run, own, TheFacts().id, TheRequest(), Name()) ensures run == TheClosing() {
      assert run == TheWorld().gate[0] || run == TheWorld().gate[1] || run == TheWorld().gate[2];
    }
  }

  lemma TheRowsStopShort()
    ensures !Reaches(TheExecution(), TheClosing())
  {
    hide Repeat, Head, Base, Merged, Sum, Name, Other, CompleteRows;
    TheHistoryIsComplete();
  }
}
