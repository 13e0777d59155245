/** When a retry is accepted, in the fields of the rows, events and comments the adapter read: both predecessors
    settled, retired as the named cause says, and the successor stated afterwards. */
module AdmissionSettlement {
  import opened Collections
  import opened NativeRecords
  import opened AdmissionPolicy
  import opened AdmissionSafety
  import opened AdmissionHistories
  import opened AdmissionGuarantees

  // ------------------------------------------------------------ predecessors

  predicate HasTrigger(row: Row, lane: Lane) { row.facts.trigger == if lane == Baseline then PullRequestTarget else PullRequest }

  /** The owner asked for something about this pull request. */
  predicate OwnerAsked(parent: Request, row: Row) {
    var t := row.facts.title;
    t.Titled? && t.pr == parent.subject.pr && t.action == "labeled" && t.tag.Ci? && t.actor == parent.subject.ownerId
  }

  /** A row counts as a predecessor exactly when it asks for the parent by the lane's event; it spoils the lane exactly when
      its title is garbled, or the owner asked by it through a label that names nothing, or that names the parent while the
      run itself does not ask for it. */
  lemma PredecessorExactlyWhen(c: Codec, comments: seq<Comment>, parent: Request, lane: Lane, row: Row)
    ensures JudgePredecessor(c, comments, parent, lane, row) == Candidate <==> HasTrigger(row, lane) && AsksFor(c, comments, parent, row)
    ensures JudgePredecessor(c, comments, parent, lane, row) == Refuse <==>
      || row.facts.title.Garbled?
      || (&& OwnerAsked(parent, row)
          && var owner := Some(parent.subject.ownerId);
             var named := row.facts.title.tag.labelName;
             || (forall p :: !Named(c, comments, named, owner, p))
             || (Named(c, comments, named, owner, parent) && !(HasTrigger(row, lane) && AsksFor(c, comments, parent, row))))
  {
    hide RequestFor, Named;
    if OwnerAsked(parent, row) {
      var owner, name := Some(parent.subject.ownerId), row.facts.title.tag.labelName;
      var r := RequestFor(c, comments, name, owner);
      ResolvedExactlyWhenNamed(c, comments, name, owner, parent);
      if r.Some? { ResolvedExactlyWhenNamed(c, comments, name, owner, r.value); }
      forall p | Named(c, comments, name, owner, p) ensures r == Some(p) { ResolvedExactlyWhenNamed(c, comments, name, owner, p); }
    }
  }

  predicate Ended(p: Progress) {
    p.attempt == 1 && p.completed && (p.conclusion == Success || p.conclusion == Failure || p.conclusion == Cancelled || p.conclusion == TimedOut)
  }

  /** `row` is the run the retry names: the first of the lane to ask for the parent, ended in its first attempt, in a history
      that no row spoils. */
  ghost predicate SettledAs(c: Codec, s: Snapshot, parent: Request, lane: Lane, runId: int, row: Row) {
    && CompleteRows(s, lane).Some? && row in CompleteRows(s, lane).value && row.facts.id == runId && Ended(row.progress)
    && HasTrigger(row, lane) && AsksFor(c, s.comments, parent, row)
    && (forall other :: other in CompleteRows(s, lane).value ==> JudgePredecessor(c, s.comments, parent, lane, other) != Refuse)
    && forall other :: other in CompleteRows(s, lane).value && HasTrigger(other, lane) && AsksFor(c, s.comments, parent, other) ==>
         row.facts.number <= other.facts.number
  }

  lemma SettledExactlyWhen(c: Codec, s: Snapshot, parent: Request, lane: Lane, runId: int, row: Row)
    ensures Settled(c, s, parent, lane, runId) == Some(row) <==> SettledAs(c, s, parent, lane, runId, row)
  {
    hide CompleteRows, JudgePredecessor, AsksFor;
    if CompleteRows(s, lane).Some? {
      var rows := CompleteRows(s, lane).value;
      var candidates := Predecessors(c, s.comments, parent, lane, rows);
      forall other | other in rows
        ensures other in candidates <==> HasTrigger(other, lane) && AsksFor(c, s.comments, parent, other)
      {
        PredecessorExactlyWhen(c, s.comments, parent, lane, other);
      }
      if SettledAs(c, s, parent, lane, runId, row) {
        OnlyOwnRow(s, lane, rows, row);
        CompleteIsGapFree(s, lane);
        NumbersDiffer(rows, AnchorOf(lane).floor);
        SameNumberSameRow(rows, row, Earliest(candidates));
      }
    }
  }

  lemma NumbersDiffer(rows: seq<Row>, floor: int)
    requires GapFree(rows, floor)
    ensures forall i, j :: 0 <= i < j < |rows| ==> rows[i].facts.number != rows[j].facts.number
  {
  }

  // -------------------------------------------------------------- retirement

  predicate RemovesAfter(e: NativeEvent, labelName: string, owner: int, after: int) {
    e.LabelEdge? && e.kind == Unlabeled && e.labelName == labelName && e.actorId == owner && e.createdAt > after
  }

  /** `e` is the first removal of the label by the owner after that time. */
  predicate FirstRemoval(events: seq<NativeEvent>, labelName: string, owner: int, after: int, e: NativeEvent) {
    && e in events && RemovesAfter(e, labelName, owner, after)
    && forall f :: f in events && RemovesAfter(f, labelName, owner, after) ==> e.createdAt <= f.createdAt
  }

  /** When the settled pair is retired: for a terminal retry at the later of their endings, if one of them did not succeed;
      for a withdrawal, if both succeeded, at the later of the first removals of their labels after both had ended. */
  ghost predicate RetiredSince(s: Snapshot, cause: Cause, owner: int, gate: Row, baseline: Row, at: int)
    requires gate.facts.title.Titled? && gate.facts.title.tag.Ci? && baseline.facts.title.Titled? && baseline.facts.title.tag.Ci?
  {
    var ended := if gate.progress.updatedAt < baseline.progress.updatedAt then baseline.progress.updatedAt else gate.progress.updatedAt;
    if cause == Terminal then (gate.progress.conclusion != Success || baseline.progress.conclusion != Success) && at == ended
    else
      && gate.progress.conclusion == Success && baseline.progress.conclusion == Success
      && exists g, b ::
           && FirstRemoval(s.events, gate.facts.title.tag.labelName, owner, ended, g)
           && FirstRemoval(s.events, baseline.facts.title.tag.labelName, owner, ended, b)
           && at == if g.createdAt < b.createdAt then b.createdAt else g.createdAt
  }

  lemma FirstRemovalIs(events: seq<NativeEvent>, labelName: string, owner: int, after: int)
    ensures Withdrawals(events, labelName, owner, after) != [] <==> exists e :: FirstRemoval(events, labelName, owner, after, e)
    ensures forall e :: FirstRemoval(events, labelName, owner, after, e) ==>
      e.createdAt == FirstTime(Withdrawals(events, labelName, owner, after))
  {
    hide Filter;
    var all := Withdrawals(events, labelName, owner, after);
    assert forall e :: e in all <==> e in events && RemovesAfter(e, labelName, owner, after);
    if all != [] {
      var first := FirstEvent(all);
      assert FirstRemoval(events, labelName, owner, after, first);
    }
  }

  lemma FirstEvent(events: seq<NativeEvent>) returns (e: NativeEvent)
    requires events != []
    ensures e in events && e.createdAt == FirstTime(events) && forall f :: f in events ==> e.createdAt <= f.createdAt
  {
    var at := FirstTime(events);
    e :| e in events && e.createdAt == at;
  }

  lemma RetiredExactlyWhen(s: Snapshot, cause: Cause, owner: int, gate: Row, baseline: Row, at: int)
    requires gate.facts.title.Titled? && gate.facts.title.tag.Ci? && baseline.facts.title.Titled? && baseline.facts.title.tag.Ci?
    ensures RetiredAt(s, cause, owner, gate, baseline) == Some(at) <==> RetiredSince(s, cause, owner, gate, baseline, at)
  {
    hide Withdrawals, FirstRemoval, FirstTime;
    var ended := Later(gate.progress.updatedAt, baseline.progress.updatedAt);
    FirstRemovalIs(s.events, gate.facts.title.tag.labelName, owner, ended);
    FirstRemovalIs(s.events, baseline.facts.title.tag.labelName, owner, ended);
  }

  // --------------------------------------------------------------- statement

  /** The owner's comment states the request, in some encoding. */
  ghost predicate StatesRequest(c: Codec, comments: seq<Comment>, m: Comment, child: Request) {
    m.userId == child.subject.ownerId
    && exists q :: Named(c, comments, c.labelOf(m.body), Some(child.subject.ownerId), q) && c.digest(q) == c.digest(child)
  }

  /** The edge applies the label of a comment that states the request. */
  ghost predicate AppliesStatement(c: Codec, comments: seq<Comment>, e: NativeEvent, child: Request) {
    e.LabelEdge? && e.kind == Labeled && exists m :: m in comments && StatesRequest(c, comments, m, child) && e.labelName == c.labelOf(m.body)
  }

  /** The request was stated and applied, by its owner and only after that time. */
  ghost predicate StatedSince(c: Codec, s: Snapshot, child: Request, at: int) {
    && (exists m :: m in s.comments && StatesRequest(c, s.comments, m, child))
    && (exists e :: e in s.events && AppliesStatement(c, s.comments, e, child))
    && (forall m :: m in s.comments && StatesRequest(c, s.comments, m, child) ==> m.createdAt > at)
    && forall e :: e in s.events && AppliesStatement(c, s.comments, e, child) ==> e.createdAt > at && e.actorId == child.subject.ownerId
  }

  lemma SpellingStates(c: Codec, comments: seq<Comment>, child: Request)
    ensures forall m :: m in Spellings(c, comments, child) <==> m in comments && StatesRequest(c, comments, m, child)
  {
    hide RequestFor, Named;
    var owner := Some(child.subject.ownerId);
    forall m: Comment
      ensures StatesRequest(c, comments, m, child) <==>
        && m.userId == child.subject.ownerId && RequestFor(c, comments, c.labelOf(m.body), owner).Some?
        && c.digest(RequestFor(c, comments, c.labelOf(m.body), owner).value) == c.digest(child)
    {
      var r := RequestFor(c, comments, c.labelOf(m.body), owner);
      if r.Some? { ResolvedExactlyWhenNamed(c, comments, c.labelOf(m.body), owner, r.value); }
      forall q | Named(c, comments, c.labelOf(m.body), owner, q) ensures r == Some(q) {
        ResolvedExactlyWhenNamed(c, comments, c.labelOf(m.body), owner, q);
      }
    }
  }

  lemma StatedExactlyWhen(c: Codec, s: Snapshot, child: Request, at: int)
    ensures StatedAfter(c, s, child, at) <==> StatedSince(c, s, child, at)
  {
    hide Spellings, StatesRequest;
    SpellingStates(c, s.comments, child);
    var spellings := Spellings(c, s.comments, child);
    var edges := Applications(c, s.events, spellings);
    forall e | e in s.events ensures e in edges <==> AppliesStatement(c, s.comments, e, child) {}
    if spellings != [] { assert spellings[0] in spellings; }
    if edges != [] { assert edges[0] in edges; }
  }

  // --------------------------------------------------------------- the link

  /** Both runs the retry names settled, the cause fits them, and the retry was stated and applied only after they were
      retired. */
  ghost predicate FollowsSettlement(c: Codec, s: Snapshot, parent: Request, child: Request, gate: Row, baseline: Row, at: int)
    requires child.retry.Some?
  {
    var r := child.retry.value;
    && SettledAs(c, s, parent, Gate, r.gateRun, gate) && SettledAs(c, s, parent, Baseline, r.baselineRun, baseline)
    && RetiredSince(s, r.cause, parent.subject.ownerId, gate, baseline, at) && StatedSince(c, s, child, at)
  }

  /** A retry is accepted after its parent exactly when it changes nothing but the retry, counts one generation on, and follows
      the settlement of the parent in both lanes. */
  lemma SucceedsExactlyWhen(c: Codec, s: Snapshot, parent: Request, child: Request)
    requires child.retry.Some?
    ensures Succeeds(c, s, parent, child) <==>
      && parent.subject == child.subject
      && child.retry.value.generation == (if parent.retry.None? then 1 else parent.retry.value.generation + 1)
      && exists gate, baseline, at :: FollowsSettlement(c, s, parent, child, gate, baseline, at)
  {
    hide Settled, SettledAs, RetiredAt, RetiredSince, StatedAfter, StatedSince;
    var r := child.retry.value;
    if Succeeds(c, s, parent, child) {
      var gate := Settled(c, s, parent, Gate, r.gateRun).value;
      var baseline := Settled(c, s, parent, Baseline, r.baselineRun).value;
      var at := RetiredAt(s, r.cause, parent.subject.ownerId, gate, baseline).value;
      SettledExactlyWhen(c, s, parent, Gate, r.gateRun, gate);
      SettledExactlyWhen(c, s, parent, Baseline, r.baselineRun, baseline);
      RetiredExactlyWhen(s, r.cause, parent.subject.ownerId, gate, baseline, at);
      StatedExactlyWhen(c, s, child, at);
      assert FollowsSettlement(c, s, parent, child, gate, baseline, at);
    }
    forall gate, baseline, at | FollowsSettlement(c, s, parent, child, gate, baseline, at)
      ensures Settled(c, s, parent, Gate, r.gateRun) == Some(gate) && Settled(c, s, parent, Baseline, r.baselineRun) == Some(baseline)
      ensures RetiredAt(s, r.cause, parent.subject.ownerId, gate, baseline) == Some(at) && StatedAfter(c, s, child, at)
    {
      SettledExactlyWhen(c, s, parent, Gate, r.gateRun, gate);
      SettledExactlyWhen(c, s, parent, Baseline, r.baselineRun, baseline);
      RetiredExactlyWhen(s, r.cause, parent.subject.ownerId, gate, baseline, at);
      StatedExactlyWhen(c, s, child, at);
    }
  }

  // ------------------------------------------------------------- the parent

  /** Comment `k` is the owner's first that states a request with this digest, and states `q`. */
  ghost predicate FirstStated(c: Codec, comments: seq<Comment>, identity: string, owner: int, k: int, q: Request) {
    && 0 <= k < |comments| && StatesDigest(c, comments, comments[k], identity, owner, q)
    && forall j, p :: 0 <= j < k ==> !StatesDigest(c, comments, comments[j], identity, owner, p)
  }

  ghost predicate StatesDigest(c: Codec, comments: seq<Comment>, m: Comment, identity: string, owner: int, q: Request) {
    m.userId == owner && Named(c, comments, c.labelOf(m.body), Some(owner), q) && c.digest(q) == identity
  }

  lemma {:induction false} PriorInOrder(c: Codec, comments: seq<Comment>, all: seq<Comment>, identity: string, owner: int) returns (k: int)
    ensures var found := PriorMatches(c, comments, all, identity, owner);
      if found == [] then forall m, p :: m in comments ==> !StatesDigest(c, all, m, identity, owner, p)
      else
        && 0 <= k < |comments| && StatesDigest(c, all, comments[k], identity, owner, found[0])
        && forall j, p :: 0 <= j < k ==> !StatesDigest(c, all, comments[j], identity, owner, p)
  {
    hide RequestFor, Named;
    k := 0;
    if comments != [] {
      var m, rest := comments[0], comments[1..];
      var n := PriorInOrder(c, rest, all, identity, owner);
      var r := RequestFor(c, all, c.labelOf(m.body), Some(owner));
      if r.Some? { ResolvedExactlyWhenNamed(c, all, c.labelOf(m.body), Some(owner), r.value); }
      forall p | Named(c, all, c.labelOf(m.body), Some(owner), p) ensures r == Some(p) {
        ResolvedExactlyWhenNamed(c, all, c.labelOf(m.body), Some(owner), p);
      }
      assert forall j :: 0 < j < |comments| ==> comments[j] == rest[j - 1];
      if !(m.userId == owner && r.Some? && c.digest(r.value) == identity) { k := n + 1; }
    }
  }

  /** The parent of a retry is what the owner's first comment with its digest states, and there is none exactly when no comment
      of the owner states one. */
  lemma ParentIsFirstStated(c: Codec, comments: seq<Comment>, identity: string, owner: int) returns (k: int)
    ensures var parent := PriorRequest(c, comments, identity, owner);
      if parent.Some? then FirstStated(c, comments, identity, owner, k, parent.value)
      else forall m, p :: m in comments ==> !StatesDigest(c, comments, m, identity, owner, p)
  {
    hide PriorMatches, StatesDigest;
    k := PriorInOrder(c, comments, comments, identity, owner);
  }
}
