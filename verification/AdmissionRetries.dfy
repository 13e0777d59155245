/** Retry chains of the admission protocol: what an accepted chain is made of, why a settled request has only one
    possible successor, and the resulting bound on how often one subject can ever be admitted. */
module AdmissionRetries {
  import opened Collections
  import opened NativeRecords
  import opened AdmissionPolicy
  import opened AdmissionEnvironment
  import opened AdmissionSafety

  // ------------------------------------------------------- one settled link

  /** `row` asked for `parent` in `lane`: its label is an encoding of exactly that request. */
  predicate AskedFor(c: Codec, comments: seq<Comment>, parent: Request, row: Row) {
    var t := row.facts.title;
    t.Titled? && t.pr == parent.subject.pr && Requests(row, parent.subject.ownerId)
    && RequestFor(c, comments, t.tag.labelName, Some(parent.subject.ownerId)) == Some(parent)
  }

  /** The run a retry names in one lane: the earliest that asked for `parent`, ended in its
      first attempt, before every comment and label edge that states `child`. */
  ghost predicate SettledBefore(c: Codec, s: Snapshot, parent: Request, child: Request, lane: Lane) {
    child.retry.Some? && CompleteRows(s, lane).Some? &&
    exists row :: row in CompleteRows(s, lane).value && SettledBy(c, s, parent, child, lane, row)
  }

  predicate SettledBy(c: Codec, s: Snapshot, parent: Request, child: Request, lane: Lane, row: Row)
    requires child.retry.Some? && CompleteRows(s, lane).Some?
  {
    && row.facts.id == child.retry.value.Run(lane) && AskedFor(c, s.comments, parent, row)
    && row.progress.attempt == 1 && row.progress.completed
    && (forall other :: other in CompleteRows(s, lane).value && AskedFor(c, s.comments, parent, other)
          ==> row.facts.number <= other.facts.number)
    && (forall m :: m in s.comments && States(c, s, m, child) ==> m.createdAt > row.progress.updatedAt)
    && (forall m, e :: m in s.comments && e in s.events && States(c, s, m, child) && Applies(c, e, m)
          ==> e.createdAt > row.progress.updatedAt && e.actorId == child.subject.ownerId)
  }

  /** The owner's comment `m` decodes to a request with the digest of `child`. */
  predicate States(c: Codec, s: Snapshot, m: Comment, child: Request) {
    var r := RequestFor(c, s.comments, c.labelOf(m.body), Some(child.subject.ownerId));
    m.userId == child.subject.ownerId && r.Some? && c.digest(r.value) == c.digest(child)
  }

  predicate Applies(c: Codec, e: NativeEvent, m: Comment) {
    e.LabelEdge? && e.kind == Labeled && e.labelName == c.labelOf(m.body)
  }

  /** What `Settled` reports about the whole history it looked at. */
  ghost predicate SettledIn(
    c: Codec, comments: seq<Comment>, parent: Request, lane: Lane, runId: int, rows: seq<Row>, row: Row)
  {
    && row in rows && row.facts.id == runId && Terminated(row.progress)
    && JudgePredecessor(c, comments, parent, lane, row) == Candidate
    && forall other :: other in rows ==>
         && JudgePredecessor(c, comments, parent, lane, other) != Refuse
         && (JudgePredecessor(c, comments, parent, lane, other) == Candidate ==> row.facts.number <= other.facts.number)
  }

  lemma SettledRow(c: Codec, s: Snapshot, parent: Request, lane: Lane, runId: int) returns (rows: seq<Row>, row: Row)
    requires Settled(c, s, parent, lane, runId).Some?
    ensures CompleteRows(s, lane) == Some(rows) && Settled(c, s, parent, lane, runId) == Some(row)
    ensures SettledIn(c, s.comments, parent, lane, runId, rows, row)
  {
    hide CompleteRows, JudgePredecessor;
    rows := CompleteRows(s, lane).value;
    row := Earliest(Predecessors(c, s.comments, parent, lane, rows));
  }

  /** A predecessor is a row that asked for the parent, and a complete history has no other kind. */
  lemma PredecessorAsked(c: Codec, comments: seq<Comment>, parent: Request, lane: Lane, row: Row)
    ensures JudgePredecessor(c, comments, parent, lane, row) == Candidate ==> AskedFor(c, comments, parent, row)
    ensures AskedFor(c, comments, parent, row) ==> JudgePredecessor(c, comments, parent, lane, row) != Skip
  {
  }

  lemma LinkIsSettled(c: Codec, s: Snapshot, parent: Request, child: Request, lane: Lane)
    requires Succeeds(c, s, parent, child)
    ensures SettledBefore(c, s, parent, child, lane)
  {
    var rows, row := SettledRow(c, s, parent, lane, child.retry.value.Run(lane));
    var r := child.retry.value;
    var gate := Settled(c, s, parent, Gate, r.gateRun).value;
    var baseline := Settled(c, s, parent, Baseline, r.baselineRun).value;
    var retired := RetiredAt(s, r.cause, parent.subject.ownerId, gate, baseline).value;
    RetirementFollows(s, r.cause, parent.subject.ownerId, gate, baseline);
    PredecessorAsked(c, s.comments, parent, lane, row);
    forall other | other in rows && AskedFor(c, s.comments, parent, other)
      ensures row.facts.number <= other.facts.number
    {
      PredecessorAsked(c, s.comments, parent, lane, other);
    }
    StatedAfterMeans(c, s, child, retired);
    assert SettledBy(c, s, parent, child, lane, row);
  }

  lemma RetirementFollows(s: Snapshot, cause: Cause, owner: int, gate: Row, baseline: Row)
    requires gate.facts.title.Titled? && gate.facts.title.tag.Ci?
    requires baseline.facts.title.Titled? && baseline.facts.title.tag.Ci?
    ensures var r := RetiredAt(s, cause, owner, gate, baseline);
            r.Some? ==> r.value >= gate.progress.updatedAt && r.value >= baseline.progress.updatedAt
    ensures var r := RetiredAt(s, cause, owner, gate, baseline);
            r.Some? ==> (cause == Withdrawal <==> gate.progress.conclusion == Success == baseline.progress.conclusion)
  {
  }

  lemma StatedAfterMeans(c: Codec, s: Snapshot, child: Request, at: int)
    requires StatedAfter(c, s, child, at)
    ensures forall m :: m in s.comments && States(c, s, m, child) ==> m.createdAt > at
    ensures forall m, e :: m in s.comments && e in s.events && States(c, s, m, child) && Applies(c, e, m)
              ==> e.createdAt > at && e.actorId == child.subject.ownerId
  {
    hide RequestFor;
    var spellings := Spellings(c, s.comments, child);
    assert forall m :: m in s.comments && States(c, s, m, child) ==> m in spellings;
    forall m, e | m in s.comments && e in s.events && States(c, s, m, child) && Applies(c, e, m)
      ensures e.createdAt > at && e.actorId == child.subject.ownerId
    {
      assert m in spellings;
      assert e in Applications(c, s.events, spellings);
    }
  }

  // -------------------------------------------------------------- the chain

  /** `chain` runs from `q` back to a request without a retry. Every member asks for the
      same subject, and every link names the settled winner of both lanes. */
  ghost predicate Ancestry(c: Codec, s: Snapshot, q: Request, chain: seq<Request>) {
    && chain != [] && chain[0] == q && chain[|chain| - 1].retry.None?
    && (forall i :: 0 <= i < |chain| ==> chain[i].subject == q.subject && chain[i].Generation() == |chain| - 1 - i)
    && (forall i :: 0 <= i < |chain| - 1 ==> Linked(c, s, chain, i))
  }

  ghost predicate Linked(c: Codec, s: Snapshot, chain: seq<Request>, i: int)
    requires 0 <= i < |chain| - 1
  {
    && chain[i].retry.Some? && chain[i].retry.value.priorRequest == c.digest(chain[i + 1])
    && SettledBefore(c, s, chain[i + 1], chain[i], Gate) && SettledBefore(c, s, chain[i + 1], chain[i], Baseline)
  }

  /** An accepted retry chain reaches a root after exactly as many links as its generation, at most three. */
  lemma {:induction false} AcceptedChain(c: Codec, s: Snapshot, q: Request) returns (chain: seq<Request>)
    requires WellFormed(q) && RetryChain(c, s, q)
    ensures Ancestry(c, s, q, chain) && |chain| == q.Generation() + 1 <= 4
    decreases q.Generation()
  {
    hide Succeeds, SettledBefore;
    if q.retry.None? {
      chain := [q];
    } else {
      var parent := PriorRequest(c, s.comments, q.retry.value.priorRequest, q.subject.ownerId).value;
      SuccessorShape(c, s, parent, q);
      var rest := AcceptedChain(c, s, parent);
      chain := [q] + rest;
      LinkIsSettled(c, s, parent, q, Gate);
      LinkIsSettled(c, s, parent, q, Baseline);
      forall i | 0 <= i < |chain| - 1 ensures Linked(c, s, chain, i) {
        if i > 0 { assert Linked(c, s, rest, i - 1); }
      }
    }
  }

  lemma SuccessorShape(c: Codec, s: Snapshot, parent: Request, child: Request)
    requires Succeeds(c, s, parent, child)
    ensures child.retry.Some? && parent.subject == child.subject && child.Generation() == parent.Generation() + 1
  {
  }

  // ------------------------------------------------ successors are determined

  /** A row that asked for `parent` in one snapshot did, or refuses, in every other. */
  lemma PredecessorCarriesOver(
    c: Codec, x: seq<Comment>, y: seq<Comment>, parent: Request, lane: Lane, rowX: Row, rowY: Row)
    requires CollisionFree(c) && rowX.facts == rowY.facts
    requires JudgePredecessor(c, x, parent, lane, rowX) == Candidate
    ensures JudgePredecessor(c, y, parent, lane, rowY) != Skip
  {
    var name, owner := rowX.facts.title.tag.labelName, Some(parent.subject.ownerId);
    if RequestFor(c, y, name, owner).Some? {
      LabelDeterminesRequest(c, x, y, name, owner, owner);
    }
  }

  lemma EarlierSettled(
    c: Codec, w: World, lane: Lane, parent: Request, x: seq<Comment>, runX: int, rowsX: seq<Row>, rowX: Row,
    y: seq<Comment>, runY: int, rowsY: seq<Row>, rowY: Row)
    requires CollisionFree(c) && ReadIn(w, lane, rowsX) && ReadIn(w, lane, rowsY)
    requires SettledIn(c, x, parent, lane, runX, rowsX, rowX) && SettledIn(c, y, parent, lane, runY, rowsY, rowY)
    requires rowX.facts.number <= rowY.facts.number
    ensures rowX.facts == rowY.facts
  {
    hide JudgePredecessor, CollisionFree;
    var row := RowAt(rowsY, AnchorOf(lane).floor, rowY, rowX.facts.number);
    RunsAreTold(w, lane, row.facts, rowX.facts);
    PredecessorCarriesOver(c, x, y, parent, lane, rowX, row);
    RunsAreTold(w, lane, rowX.facts, rowY.facts);
  }

  /** Two executions that accept a settled predecessor name the same run and saw it end the same way. */
  lemma SettledRunsAgree(
    c: Codec, ws: seq<World>, x: Execution, y: Execution, parent: Request, lane: Lane, runX: int, runY: int)
    requires Trace(ws) && CollisionFree(c) && Plays(ws, x) && Plays(ws, y)
    requires Settled(c, x.snapshot, parent, lane, runX).Some? && Settled(c, y.snapshot, parent, lane, runY).Some?
    ensures runX == runY
    ensures Settled(c, x.snapshot, parent, lane, runX).value.progress.conclusion
         == Settled(c, y.snapshot, parent, lane, runY).value.progress.conclusion
  {
    hide Plays, Settled, CompleteRows, SettledIn, CollisionFree, Native;
    var w := ws[|ws| - 1];
    var rowsX, rowX := SettledRow(c, x.snapshot, parent, lane, runX);
    var rowsY, rowY := SettledRow(c, y.snapshot, parent, lane, runY);
    ReadHistory(ws, x, lane);
    ReadHistory(ws, y, lane);
    SettledFacts(c, x.snapshot.comments, parent, lane, runX, rowsX, rowX);
    SettledFacts(c, y.snapshot.comments, parent, lane, runY, rowsY, rowY);
    if rowX.facts.number <= rowY.facts.number {
      EarlierSettled(c, w, lane, parent, x.snapshot.comments, runX, rowsX, rowX, y.snapshot.comments, runY, rowsY, rowY);
    } else {
      EarlierSettled(c, w, lane, parent, y.snapshot.comments, runY, rowsY, rowY, x.snapshot.comments, runX, rowsX, rowX);
    }
    PlaysWithin(ws, x, lane);
    PlaysWithin(ws, y, lane);
    SettledStays(ws, x.RunsAt(lane), y.RunsAt(lane), lane, rowX, rowY);
  }

  lemma SettledFacts(c: Codec, comments: seq<Comment>, parent: Request, lane: Lane, runId: int, rows: seq<Row>, row: Row)
    requires SettledIn(c, comments, parent, lane, runId, rows, row)
    ensures row in rows && row.facts.id == runId && Terminated(row.progress)
  {
  }

  lemma PlaysWithin(ws: seq<World>, x: Execution, lane: Lane)
    requires Plays(ws, x)
    ensures x.RunsAt(lane) < |ws|
  {
  }

  lemma SettledStays(ws: seq<World>, i: nat, j: nat, lane: Lane, rowI: Row, rowJ: Row)
    requires Trace(ws) && i < |ws| && j < |ws| && rowI.facts == rowJ.facts
    requires Native(rowI, lane, ws[i]) && Native(rowJ, lane, ws[j])
    requires Terminated(rowI.progress) && Terminated(rowJ.progress)
    ensures rowI.progress.conclusion == rowJ.progress.conclusion
  {
    if i <= j { TraceGrows(ws, i, j); } else { TraceGrows(ws, j, i); }
  }

  /** A settled request has one successor. Neither the cause, nor the runs, nor the bytes of
      the retry leave a choice, whenever the two executions read the repository. */
  lemma SuccessorIsUnique(
    c: Codec, ws: seq<World>, x: Execution, y: Execution, parent: Request, childX: Request, childY: Request)
    requires Trace(ws) && CollisionFree(c) && Plays(ws, x) && Plays(ws, y)
    requires Succeeds(c, x.snapshot, parent, childX) && Succeeds(c, y.snapshot, parent, childY)
    requires childX.retry.value.priorRequest == childY.retry.value.priorRequest
    ensures childX == childY
  {
    hide Trace, Plays, Settled, RetiredAt, StatedAfter, CollisionFree;
    var rx, ry := childX.retry.value, childY.retry.value;
    var owner := parent.subject.ownerId;
    SettledRunsAgree(c, ws, x, y, parent, Gate, rx.gateRun, ry.gateRun);
    SettledRunsAgree(c, ws, x, y, parent, Baseline, rx.baselineRun, ry.baselineRun);
    RetirementFollows(x.snapshot, rx.cause, owner, Settled(c, x.snapshot, parent, Gate, rx.gateRun).value,
                      Settled(c, x.snapshot, parent, Baseline, rx.baselineRun).value);
    RetirementFollows(y.snapshot, ry.cause, owner, Settled(c, y.snapshot, parent, Gate, ry.gateRun).value,
                      Settled(c, y.snapshot, parent, Baseline, ry.baselineRun).value);
  }

  /** Accepted requests for one subject are told apart by their generation alone. */
  lemma {:induction false} GenerationDeterminesRequest(
    c: Codec, ws: seq<World>, x: Execution, y: Execution, p: Request, q: Request)
    requires Trace(ws) && CollisionFree(c) && Plays(ws, x) && Plays(ws, y)
    requires WellFormed(p) && WellFormed(q) && RetryChain(c, x.snapshot, p) && RetryChain(c, y.snapshot, q)
    requires p.subject == q.subject && p.Generation() == q.Generation()
    ensures p == q
    decreases p.Generation()
  {
    hide Trace, Plays, Succeeds, CollisionFree;
    if p.retry.Some? && q.retry.Some? {
      var parentP := PriorRequest(c, x.snapshot.comments, p.retry.value.priorRequest, p.subject.ownerId).value;
      var parentQ := PriorRequest(c, y.snapshot.comments, q.retry.value.priorRequest, q.subject.ownerId).value;
      SuccessorShape(c, x.snapshot, parentP, p);
      SuccessorShape(c, y.snapshot, parentQ, q);
      GenerationDeterminesRequest(c, ws, x, y, parentP, parentQ);
      SuccessorIsUnique(c, ws, x, y, parentP, p, q);
    }
  }

  // --------------------------------------------------------- the global bound

  lemma AdmittedChain(c: Codec, x: Execution, q: Request)
    requires Outcome(c, x) == Admitted(q)
    ensures WellFormed(q) && RetryChain(c, x.snapshot, q) && 0 <= q.Generation() <= 3
  {
    hide RetryChain;
    AdmittedIsElected(c, x, q);
  }

  /** Two admitted runs of one lane and subject are the same run, or carry different generations. */
  lemma OneRunPerGeneration(c: Codec, ws: seq<World>, x: Execution, y: Execution, p: Request, q: Request)
    requires Trace(ws) && CollisionFree(c) && Plays(ws, x) && Plays(ws, y) && x.call.lane == y.call.lane
    requires Outcome(c, x) == Admitted(p) && Outcome(c, y) == Admitted(q)
    requires p.subject == q.subject && p.Generation() == q.Generation()
    ensures x.call.runId == y.call.runId
  {
    hide Plays, CollisionFree, Outcome, RetryChain;
    AdmittedChain(c, x, p);
    AdmittedChain(c, y, q);
    GenerationDeterminesRequest(c, ws, x, y, p, q);
    OneAdmittedRun(c, ws, x, y, p);
  }

  lemma {:induction false} FewDistinct(s: seq<int>, n: nat)
    requires Distinct(s) && forall v :: v in s ==> 0 <= v < n
    ensures |s| <= n
  {
    if s != [] {
      assert s[0] in s;
      if n - 1 in s {
        var i :| 0 <= i < |s| && s[i] == n - 1;
        var rest := s[..i] + s[i + 1..];
        forall k | 0 <= k < |rest| ensures rest[k] == s[if k < i then k else k + 1] && 0 <= rest[k] < n - 1 {
          var from := if k < i then k else k + 1;
          assert s[from] in s && s[from] != s[i];
        }
        FewDistinct(rest, n - 1);
      } else {
        FewDistinct(s, n - 1);
      }
    }
  }

  ghost predicate AdmitsSubject(c: Codec, ws: seq<World>, x: Execution, q: Request, lane: Lane, u: Subject) {
    Plays(ws, x) && x.call.lane == lane && Outcome(c, x) == Admitted(q) && q.subject == u
  }

  /** One subject (source, evidence, owner, objective and policy) is admitted by at most four
      runs of a lane: the original one and three retries. */
  lemma AtMostFourAdmissions(
    c: Codec, ws: seq<World>, xs: seq<Execution>, qs: seq<Request>, lane: Lane, u: Subject)
    requires Trace(ws) && CollisionFree(c) && |qs| == |xs|
    requires forall i :: 0 <= i < |xs| ==> AdmitsSubject(c, ws, xs[i], qs[i], lane, u)
    requires forall i, j :: 0 <= i < j < |xs| ==> xs[i].call.runId != xs[j].call.runId
    ensures |xs| <= 4
  {
    hide Plays, CollisionFree, Outcome, RetryChain;
    var generations := seq(|qs|, i requires 0 <= i < |qs| => qs[i].Generation());
    forall i | 0 <= i < |xs| ensures 0 <= generations[i] <= 3 {
      assert AdmitsSubject(c, ws, xs[i], qs[i], lane, u);
      AdmittedChain(c, xs[i], qs[i]);
    }
    forall i, j | 0 <= i < j < |xs| ensures generations[i] != generations[j] {
      assert AdmitsSubject(c, ws, xs[i], qs[i], lane, u) && AdmitsSubject(c, ws, xs[j], qs[j], lane, u);
      if generations[i] == generations[j] {
        OneRunPerGeneration(c, ws, xs[i], xs[j], qs[i], qs[j]);
      }
    }
    FewDistinct(generations, 4);
  }
}
