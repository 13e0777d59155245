/** The adapter itself: one execution with its request counter and history cache, reading one snapshot step by step.
    Each method is tied to the rule of `AdmissionPolicy` it computes; only an exhausted request budget can make it
    refuse more. */
module AdmissionAdapter {
  import opened Collections
  import opened NativeRecords
  import opened AdmissionPolicy

  const MAX_CALLS: nat := 40

  /** The `decisive` table: per reviewer, the times and states of the decisive submissions, oldest read first. */
  type Decisions = map<int, seq<(int, ReviewState)>>

  /** The table holds exactly the decisive submissions of `reviews`. */
  ghost predicate Tabulates(t: Decisions, reviews: seq<Review>) {
    && (forall u, d :: u in t && d in t[u] ==> exists r :: r in reviews && Decides(r, u, d))
    && (forall r :: r in reviews && Decisive(r) && r.submittedAt.Some?
          ==> r.userId in t && (r.submittedAt.value, r.state) in t[r.userId])
    && (forall u :: u in t ==> t[u] != [])
  }

  predicate Decides(r: Review, user: int, d: (int, ReviewState)) {
    r.userId == user && Decisive(r) && r.submittedAt == Some(d.0) && r.state == d.1
  }

  function LatestTime(s: seq<(int, ReviewState)>): (t: int)
    requires s != []
    ensures (exists d :: d in s && d.0 == t) && forall d :: d in s ==> d.0 <= t
  {
    if |s| == 1 then s[0].0
    else
      var rest := LatestTime(s[1..]);
      assert forall d :: d in s ==> d == s[0] || d in s[1..];
      if s[0].0 <= rest then rest else s[0].0
  }

  predicate BlockingDecisions(s: seq<(int, ReviewState)>)
    requires s != []
  {
    exists d :: d in s && d.0 == LatestTime(s) && d.1 == ChangesRequested
  }

  lemma TableDecidesBlocking(t: Decisions, reviews: seq<Review>)
    requires Tabulates(t, reviews) && ReviewStatesKnown(reviews)
    ensures Blocked(reviews) <==> exists u :: u in t && BlockingDecisions(t[u])
  {
    if Blocked(reviews) {
      var r :| r in reviews && r.state == ChangesRequested && r.submittedAt.Some? &&
        forall o :: o in reviews && Decisive(o) && o.userId == r.userId && o.submittedAt.Some?
                    ==> o.submittedAt.value <= r.submittedAt.value;
      var s := t[r.userId];
      var mine := (r.submittedAt.value, r.state);
      var latest :| latest in s && latest.0 == LatestTime(s);
      var o :| o in reviews && Decides(o, r.userId, latest);
      assert mine in s && mine.0 == LatestTime(s);
      assert BlockingDecisions(t[r.userId]);
    }
    if exists u :: u in t && BlockingDecisions(t[u]) {
      var u :| u in t && BlockingDecisions(t[u]);
      var d :| d in t[u] && d.0 == LatestTime(t[u]) && d.1 == ChangesRequested;
      var r :| r in reviews && Decides(r, u, d);
      forall o | o in reviews && Decisive(o) && o.userId == r.userId && o.submittedAt.Some?
        ensures o.submittedAt.value <= r.submittedAt.value
      {
        assert (o.submittedAt.value, o.state) in t[u];
      }
    }
  }

  /** The review check of `current`: every state is known, every decision has a time, and no reviewer's latest decisive
      submissions request changes. */
  method ReviewsStand(reviews: seq<Review>) returns (standing: bool)
    ensures standing <==> ReviewStatesKnown(reviews) && !Blocked(reviews)
  {
    hide Blocked, BlockingDecisions;
    var t: Decisions := map[];
    for i := 0 to |reviews|
      invariant Tabulates(t, reviews[..i]) && ReviewStatesKnown(reviews[..i])
    {
      var r := reviews[i];
      assert r in reviews && reviews[..i + 1] == reviews[..i] + [r];
      if r.state == UnknownState || (Decisive(r) && r.submittedAt.None?) { return false; }
      DecisionAdded(t, reviews[..i], r);
      if Decisive(r) {
        t := t[r.userId := (if r.userId in t then t[r.userId] else []) + [(r.submittedAt.value, r.state)]];
      }
    }
    assert reviews[..|reviews|] == reviews;
    TableDecidesBlocking(t, reviews);
    standing := !exists u :: u in t && BlockingDecisions(t[u]);
  }

  lemma DecisionAdded(t: Decisions, reviews: seq<Review>, r: Review)
    requires Tabulates(t, reviews) && r.state != UnknownState && (Decisive(r) ==> r.submittedAt.Some?)
    ensures !Decisive(r) ==> Tabulates(t, reviews + [r])
    ensures Decisive(r) ==>
      Tabulates(t[r.userId := (if r.userId in t then t[r.userId] else []) + [(r.submittedAt.value, r.state)]], reviews + [r])
  {
    if Decisive(r) {
      var d := (r.submittedAt.value, r.state);
      var now := t[r.userId := (if r.userId in t then t[r.userId] else []) + [d]];
      assert Decides(r, r.userId, d) && r in reviews + [r];
      forall u, x | u in now && x in now[u] ensures exists o :: o in reviews + [r] && Decides(o, u, x) {
        if u in t && x in t[u] {
          var o :| o in reviews && Decides(o, u, x);
          assert o in reviews + [r];
        }
      }
    }
  }

  // ------------------------------------------- one more row, page or label

  lemma AuthenticStep(batch: seq<Row>, row: Row, source: Source, seen: set<int>)
    requires Authentic(batch, source, seen)
    ensures Authentic(batch + [row], source, seen)
       <==> row.facts.source == source && row.facts.id !in seen + Ids(batch)
    ensures Ids(batch + [row]) == Ids(batch) + {row.facts.id}
  {
    var all := batch + [row];
    assert forall r :: r in all ==> r in batch || r == row;
    if row.facts.id in Ids(batch) {
      var twin :| twin in batch && twin.facts.id == row.facts.id;
      var i :| 0 <= i < |batch| && batch[i] == twin;
      assert all[i].facts.id == all[|batch|].facts.id;
    }
    assert all[|batch|] == row && row in all;
    assert forall r :: r in batch ==> r in all;
  }

  lemma EmptyPage(source: Source, seen: set<int>, floor: int)
    ensures Authentic([], source, seen) && AboveFloor([], floor) == [] && Ids([]) == {}
  {
  }

  lemma AuthenticPrefix(batch: seq<Row>, n: nat, source: Source, seen: set<int>)
    requires n <= |batch|
    ensures Authentic(batch, source, seen) ==> Authentic(batch[..n], source, seen)
  {
  }

  lemma AboveFloorStep(batch: seq<Row>, row: Row, floor: int)
    ensures AboveFloor(batch + [row], floor) == AboveFloor(batch, floor) + if row.facts.number >= floor then [row] else []
  {
    FilterAppend((r: Row) => r.facts.number >= floor, batch, [row]);
  }

  lemma CandidatesStep(
    c: Codec, comments: seq<Comment>, q: Request, name: string, own: Row, rows: seq<Row>, row: Row)
    ensures Candidates(c, comments, q, name, own, rows + [row])
         == Candidates(c, comments, q, name, own, rows)
            + if Judge(c, comments, q, name, own, row) == Candidate then [row] else []
  {
    hide Judge;
    FilterAppend((r: Row) => Judge(c, comments, q, name, own, r) == Candidate, rows, [row]);
  }

  lemma PredecessorsStep(c: Codec, comments: seq<Comment>, parent: Request, lane: Lane, rows: seq<Row>, row: Row)
    ensures Predecessors(c, comments, parent, lane, rows + [row])
         == Predecessors(c, comments, parent, lane, rows)
            + if JudgePredecessor(c, comments, parent, lane, row) == Candidate then [row] else []
  {
    hide JudgePredecessor;
    FilterAppend((r: Row) => JudgePredecessor(c, comments, parent, lane, r) == Candidate, rows, [row]);
  }

  class Api {
    const codec: Codec
    const view: Snapshot
    var calls: nat
    var histories: map<Lane, seq<Row>>

    constructor (codec: Codec, view: Snapshot)
      ensures Valid() && calls == 0 && this.codec == codec && this.view == view
    {
      this.codec := codec;
      this.view := view;
      calls := 0;
      histories := map[];
    }

    /** Cached histories are the complete ones. */
    ghost predicate Valid()
      reads this
    {
      forall lane :: lane in histories ==> CompleteRows(view, lane) == Some(histories[lane])
    }

    ghost predicate Spent()
      reads this
    {
      calls > MAX_CALLS
    }

    method Get() returns (ok: bool)
      modifies this`calls
      ensures calls == old(calls) + 1 && (ok <==> !Spent())
    {
      calls := calls + 1;
      ok := calls <= MAX_CALLS;
    }

    /** Reads pages of one hundred until one is short, and returns all rows in order; a fifth full page is too many. */
    method Pages<T>(all: seq<T>) returns (rows: Option<seq<T>>)
      modifies this`calls
      ensures calls >= old(calls)
      ensures rows == if Paged(|all|) && !Spent() then Some(all) else None
    {
      var page, read := 1, [];
      while page <= 5
        invariant 1 <= page <= 6 && |all| >= 100 * (page - 1) && calls >= old(calls)
        invariant read == all[..100 * (page - 1)]
        invariant page > 1 ==> !Spent()
      {
        var more := Get();
        if !more { return None; }
        var values := all[100 * (page - 1)..if |all| < 100 * page then |all| else 100 * page];
        read := read + values;
        if |values| < 100 {
          assert read == all;
          return Some(read);
        }
        page := page + 1;
      }
      return None;
    }

    /** One page of run history, checked row by row. */
    method AddPage(batch: seq<Row>, a: Anchor, rows: seq<Row>, seen: set<int>)
      returns (ok: bool, grown: seq<Row>, known: set<int>)
      ensures ok <==> Authentic(batch, a.source, seen)
      ensures ok ==> grown == rows + AboveFloor(batch, a.floor) && known == seen + Ids(batch)
    {
      hide Authentic, AboveFloor, Ids;
      grown, known := rows, seen;
      EmptyPage(a.source, seen, a.floor);
      assert batch[..0] == [] && rows + [] == rows;
      for i := 0 to |batch|
        invariant Authentic(batch[..i], a.source, seen)
        invariant grown == rows + AboveFloor(batch[..i], a.floor)
        invariant known == seen + Ids(batch[..i])
      {
        var row := batch[i];
        assert batch[..i + 1] == batch[..i] + [row];
        AuthenticStep(batch[..i], row, a.source, seen);
        AboveFloorStep(batch[..i], row, a.floor);
        if row.facts.source != a.source || row.facts.id in known {
          AuthenticPrefix(batch, i + 1, a.source, seen);
          return false, grown, known;
        }
        known := known + {row.facts.id};
        if row.facts.number >= a.floor { grown := grown + [row]; }
      }
      assert batch[..|batch|] == batch;
      ok := true;
    }

    /** `history`: the lane's complete rows, read once, and the row of `runId` among them. */
    method History(lane: Lane, runId: int) returns (own: Option<Row>, rows: seq<Row>)
      requires Valid()
      modifies this
      ensures Valid() && calls >= old(calls)
      ensures own.Some? ==> CompleteRows(view, lane) == Some(rows) && OwnRow(rows, runId) == own
      ensures own.None? ==> Spent() || CompleteRows(view, lane).None? || OwnRow(CompleteRows(view, lane).value, runId).None?
    {
      hide GapFree, Authentic, AboveFloor, OwnRow;
      if lane in histories {
        rows := histories[lane];
        return OwnRow(rows, runId), rows;
      }
      var a := AnchorOf(lane);
      var pages := view.Pages(lane);
      rows := [];
      var read := Get();
      if !read || view.AnchorRun(lane) != a { return None, []; }
      var seen: set<int>, found, page := {}, false, 0;
      while page < 12 && !found
        invariant 0 <= page <= 12 && calls >= old(calls) && histories == old(histories)
        invariant !found ==> Gather(pages, a, 0, [], {}) == Gather(pages, a, page, rows, seen)
        invariant found ==> Gather(pages, a, 0, [], {}) == Some(rows)
        decreases 12 - page, !found
      {
        read := Get();
        if !read { return None, []; }
        var batch := PageAt(pages, page);
        if !(0 < |batch| <= 100) { return None, []; }
        var ok;
        ok, rows, seen := AddPage(batch, a, rows, seen);
        if !ok { return None, []; }
        if exists row :: row in rows && row.facts.id == a.id {
          assert HasId(rows, a.id);
          found := true;
        }
        page := page + 1;
      }
      if !found || !GapFree(rows, a.floor) { return None, rows; }
      own := OwnRow(rows, runId);
      if own.Some? { histories := histories[lane := rows]; }
    }

    /** `elect`: one pass over the history, collecting the rows that asked for the same request. */
    method ElectRun(name: string, lane: Lane, runId: int, q: Request) returns (winner: Option<Row>)
      requires Valid()
      modifies this
      ensures Valid() && calls >= old(calls)
      ensures winner.Some? ==> Elect(codec, view, name, lane, runId, q) == winner
      ensures winner.None? ==> Spent() || Elect(codec, view, name, lane, runId, q).None?
    {
      hide Judge, CompleteRows, OwnRow;
      var entry, rows := History(lane, runId);
      if entry.None? { return None; }
      var own := entry.value;
      if || own.facts.trigger != RequestTrigger(lane) || own.facts.headSha != q.subject.headSha
         || own.facts.actorId != q.subject.ownerId
      { return None; }
      var candidates: seq<Row> := [];
      for i := 0 to |rows|
        invariant candidates == Candidates(codec, view.comments, q, name, own, rows[..i])
        invariant forall row :: row in rows[..i] ==> Judge(codec, view.comments, q, name, own, row) != Refuse
        invariant calls >= old(calls) && Valid() && CompleteRows(view, lane) == Some(rows)
      {
        var row := rows[i];
        assert rows[..i + 1] == rows[..i] + [row];
        var verdict := Judge(codec, view.comments, q, name, own, row);
        if verdict == Refuse { assert row in rows; return None; }
        CandidatesStep(codec, view.comments, q, name, own, rows[..i], row);
        if verdict == Candidate { candidates := candidates + [row]; }
      }
      assert rows[..|rows|] == rows;
      if !(exists row :: row in candidates && row.facts.id == runId) { return None; }
      assert HasId(candidates, runId);
      winner := Some(Earliest(candidates));
    }

    /** The inner loop of `validate_retry` over one lane. */
    method SettledRun(parent: Request, lane: Lane, runId: int) returns (r: Option<Row>)
      requires Valid()
      modifies this
      ensures Valid() && calls >= old(calls)
      ensures r.Some? ==> Settled(codec, view, parent, lane, runId) == r
      ensures r.None? ==> Spent() || Settled(codec, view, parent, lane, runId).None?
    {
      hide JudgePredecessor, CompleteRows, OwnRow;
      var entry, rows := History(lane, runId);
      if entry.None? { return None; }
      var candidates: seq<Row> := [];
      for i := 0 to |rows|
        invariant candidates == Predecessors(codec, view.comments, parent, lane, rows[..i])
        invariant forall row :: row in rows[..i] ==> JudgePredecessor(codec, view.comments, parent, lane, row) != Refuse
        invariant calls >= old(calls) && Valid() && CompleteRows(view, lane) == Some(rows)
      {
        var row := rows[i];
        assert rows[..i + 1] == rows[..i] + [row];
        var verdict := JudgePredecessor(codec, view.comments, parent, lane, row);
        if verdict == Refuse { assert row in rows; return None; }
        PredecessorsStep(codec, view.comments, parent, lane, rows[..i], row);
        if verdict == Candidate { candidates := candidates + [row]; }
      }
      assert rows[..|rows|] == rows;
      if candidates == [] { return None; }
      var winner := Earliest(candidates);
      if winner.facts.id != runId || !Terminated(winner.progress) { return None; }
      r := Some(winner);
    }

    /** `validate_retry`: walks from `q` to its root, checking each link on the way. */
    method ValidateRetry(q: Request) returns (ok: bool)
      requires Valid() && BoundedRetry(q.retry)
      modifies this
      ensures Valid() && calls >= old(calls)
      ensures ok ==> RetryChain(codec, view, q)
      ensures !ok ==> Spent() || !RetryChain(codec, view, q)
    {
      var child := q;
      while child.retry.Some?
        invariant Valid() && calls >= old(calls) && BoundedRetry(child.retry)
        invariant RetryChain(codec, view, q) <==> RetryChain(codec, view, child)
        decreases child.Generation()
      {
        var retry := child.retry.value;
        var prior := PriorRequest(codec, view.comments, retry.priorRequest, child.subject.ownerId);
        if prior.None? { return false; }
        var parent := prior.value;
        if parent.subject != child.subject || retry.generation != parent.Generation() + 1 { return false; }
        var gate := SettledRun(parent, Gate, retry.gateRun);
        if gate.None? { return false; }
        var baseline := SettledRun(parent, Baseline, retry.baselineRun);
        if baseline.None? { return false; }
        var retired := RetiredAt(view, retry.cause, parent.subject.ownerId, gate.value, baseline.value);
        if retired.None? || !StatedAfter(codec, view, child, retired.value) { return false; }
        child := parent;
      }
      ok := true;
    }

    /** `current`: reads the pull request and everything the request refers to. */
    method ReadCurrent(e: Webhook, policy: string) returns (q: Option<Request>)
      requires Valid()
      modifies this`calls
      ensures Valid() && calls >= old(calls)
      ensures q.Some? ==> Current(codec, view, e, policy) == q
      ensures q.None? ==> Spent() || Current(codec, view, e, policy).None?
    {
      hide RequestFor, ActiveLabels, SubjectIsLive, OwnerMayAdmit, SelectedReviewsStand, ReviewStatesKnown,
        Blocked, Integrates, ReviewRetires, Paged;
      if e.repository != REPO || e.isPrivate { return None; }
      var read := Get();
      if !read { return None; }
      var comments := Pages(view.comments);
      if comments.None? { return None; }
      var r := RequestFor(codec, view.comments, e.labelName, Some(e.senderId));
      if r.None? || !e.senderIsUser { return None; }
      var u := r.value.subject;
      if !view.live.open || view.live.draft || !view.live.mergeable || !SubjectIsLive(u, e, view.live) { return None; }
      read := Get();
      if !read || !OwnerMayAdmit(u, view.live, view.permission) { return None; }
      if u.policySha256 != policy || e.labelName !in view.live.labels { return None; }
      var active: seq<string> := [];
      ghost var before := calls;
      assert ActiveLabels(codec, view.comments, [], u) == [] by { NoActiveLabels(codec, view.comments, u); }
      for i := 0 to |view.live.labels|
        invariant active == ActiveLabels(codec, view.comments, view.live.labels[..i], u)
        invariant calls == before && Valid()
      {
        var name := view.live.labels[i];
        assert view.live.labels[..i + 1] == view.live.labels[..i] + [name];
        ActiveLabelsAppend(codec, view.comments, view.live.labels[..i], name, u);
        active := active + ActiveLabels(codec, view.comments, [name], u);
      }
      assert view.live.labels[..|view.live.labels|] == view.live.labels;
      if active != [e.labelName] { return None; }
      read := Get();
      if !read || !view.objective.open || view.objective.isPullRequest { return None; }
      var reviews := Pages(view.reviews);
      if reviews.None? { return None; }
      if codec.generation(Filter((v: Review) => v.id in u.reviewIds, view.reviews)) != u.reviewGeneration { return None; }
      if !SelectedReviewsStand(u, view.reviews) { return None; }
      var standing := ReviewsStand(reviews.value);
      if !standing { return None; }
      read := Get();
      if !read || !Integrates(u, view.live, view.merge) { return None; }
      var events := Pages(view.events);
      if events.None? || !EdgesStand(view.events, e.labelName, u.ownerId) { return None; }
      var requestedAt := FirstTime(EdgesOf(view.events, e.labelName));
      if ReviewRetires(view.reviews, view.events, requestedAt) { return None; }
      q := r;
    }

    /** `execute`: the decision of one job. An exhausted request budget can only refuse. */
    method Execute(e: Webhook, k: Call) returns (d: Decision)
      requires Valid()
      modifies this
      ensures d != Refused ==> d == Decide(codec, view, e, k)
      ensures d == Refused ==> Spent() || Decide(codec, view, e, k) == Refused
    {
      var route := Classify(e);
      if route.UnknownRoute? { return Refused; }
      if route.ObservationRoute? { return Observation; }
      if k.phase.Finalize? && k.mode in {"observation", "duplicate", "replay"} { return Carried(k.mode); }
      if route.ReviewRoute? {
        var live := Get();
        if !live { return Refused; }
        var comments := Pages(view.comments);
        if comments.None? { return Refused; }
        return if TouchesSelection(codec, view, e) then Invalidated else Observation;
      }
      if route.InvalidateRoute? { return Invalidated; }
      if k.attempt != 1 { return Replay(k.runId); }
      var current := ReadCurrent(e, k.policy);
      if current.None? { return Refused; }
      var q := current.value;
      if k.lane.Gate? && k.nativeSha != q.subject.mergeSha { return Refused; }
      var winner := ElectRun(e.labelName, k.lane, k.runId, q);
      if winner.None? { return Refused; }
      if winner.value.facts.id != k.runId { return Duplicate(winner.value.facts.id); }
      var retryOk := ValidateRetry(q);
      if !retryOk || k.cancelled { return Refused; }
      if k.phase.Finalize? && !(k.admissionResult == "success" && k.mode == "admitted" && k.product == "success") { return Refused; }
      if k.phase.Finalize? && k.lane.Gate? {
        var artifacts := Pages(view.artifacts);
        if artifacts.None? || !PacketBound(view, k.runId, q) { return Refused; }
      }
      d := Admitted(q);
    }
  }

  lemma NoActiveLabels(c: Codec, comments: seq<Comment>, u: Subject)
    ensures ActiveLabels(c, comments, [], u) == []
  {
  }

  lemma ActiveLabelsAppend(c: Codec, comments: seq<Comment>, names: seq<string>, name: string, u: Subject)
    ensures ActiveLabels(c, comments, names + [name], u) == ActiveLabels(c, comments, names, u) + ActiveLabels(c, comments, [name], u)
  {
    FilterAppend((n: string) =>
      && IsCiLabel(n)
      && var r := RequestFor(c, comments, n, Some(u.ownerId));
         r.Some? && r.value.subject.headSha == u.headSha && r.value.subject.baseSha == u.baseSha, names, [name]);
  }
}
