/** What an admission guarantees, and when it is granted, in the fields of the webhook, the call and the answers the
    adapter read. */
module AdmissionGuarantees {
  import opened Collections
  import opened NativeRecords
  import opened AdmissionPolicy
  import opened AdmissionEnvironment
  import opened AdmissionSafety
  import opened AdmissionHistories

  // ----------------------------------------------------------- request bytes

  predicate LowerHex(s: string, n: nat) { |s| == n && forall i :: 0 <= i < n ==> '0' <= s[i] <= '9' || 'a' <= s[i] <= 'f' }

  /** An issue of the repository, by a number without leading zeros. */
  predicate NamesIssue(s: string) {
    var prefix := "https://github.com/EffortlessMetrics/ub-review/issues/";
    && |prefix| < |s| && s[..|prefix|] == prefix && s[|prefix|] != '0' && forall i :: |prefix| <= i < |s| ==> '0' <= s[i] <= '9'
  }

  /** The label of a request: `ci:` and forty-three characters of the URL-safe alphabet. */
  predicate LabelText(s: string) {
    |s| == 46 && s[0] == 'c' && s[1] == 'i' && s[2] == ':' && forall i :: 3 <= i < 46 ==> UrlSafe(s[i])
  }

  predicate UrlSafe(ch: char) { 'A' <= ch <= 'Z' || 'a' <= ch <= 'z' || '0' <= ch <= '9' || ch == '_' || ch == '-' }

  /** A login: letters, digits and hyphens. */
  predicate LoginText(s: string) { 1 <= |s| <= 39 && forall i :: 0 <= i < |s| ==> UrlSafe(s[i]) && s[i] != '_' }

  lemma LabelExactlyWhen(s: string)
    ensures IsCiLabel(s) <==> LabelText(s)
  {
    hide UrlSafe, AllIn;
    if |s| == 46 {
      var rest := s[3..];
      forall i | 0 <= i < |rest| ensures rest[i] == s[3 + i] && (rest[i] in BASE64URL <==> UrlSafe(rest[i])) { UrlSafeCharacter(rest[i]); }
      InByIndex(rest, BASE64URL);
      assert forall i :: 3 <= i < 46 ==> s[i] == rest[i - 3];
      assert s[..3] == [s[0], s[1], s[2]];
    }
  }

  lemma LoginExactlyWhen(s: string)
    ensures 1 <= |s| <= 39 && AllIn(s, LOGIN) <==> LoginText(s)
  {
    hide UrlSafe, AllIn;
    forall i | 0 <= i < |s| ensures s[i] in LOGIN <==> UrlSafe(s[i]) && s[i] != '_' { LoginCharacter(s[i]); }
    InByIndex(s, LOGIN);
  }

  lemma UrlSafeCharacter(ch: char)
    ensures ch in BASE64URL <==> UrlSafe(ch)
  {
    CapitalLetter(ch);
    SmallLetter(ch);
    Digit(ch);
    assert ch in BASE64URL <==> ch in UPPER || ch in LOWER || ch in DIGITS || ch in "_-";
  }

  lemma LoginCharacter(ch: char)
    ensures ch in LOGIN <==> UrlSafe(ch) && ch != '_'
  {
    CapitalLetter(ch);
    SmallLetter(ch);
    Digit(ch);
    assert ch in LOGIN <==> ch in UPPER || ch in LOWER || ch in DIGITS || ch in "-";
  }

  lemma CapitalLetter(ch: char)
    ensures ch in UPPER <==> 'A' <= ch <= 'Z'
  {
    if 'A' <= ch <= 'Z' { assert UPPER[(ch - 'A') as int] == ch; }
  }

  lemma SmallLetter(ch: char)
    ensures ch in LOWER <==> 'a' <= ch <= 'z'
  {
    if 'a' <= ch <= 'z' { assert LOWER[(ch - 'a') as int] == ch; }
  }

  /** The shape of a request: full identities, reviews in ascending order, an issue, and at most a third retry. */
  predicate Shaped(q: Request) {
    var u := q.subject;
    && LowerHex(u.headSha, 40) && LowerHex(u.baseSha, 40) && LowerHex(u.mergeSha, 40) && LowerHex(u.mergeTree, 40)
    && LowerHex(u.policySha256, 64) && LowerHex(u.reviewGeneration, 64) && u.pr >= 1 && NamesIssue(u.objective)
    && |u.reviewIds| >= 1 && u.reviewIds[0] >= 1 && (forall i, j :: 0 <= i < j < |u.reviewIds| ==> u.reviewIds[i] < u.reviewIds[j])
    && (q.retry.Some? ==>
          && q.retry.value.generation in {1, 2, 3} && LowerHex(q.retry.value.priorRequest, 64)
          && q.retry.value.gateRun >= 1 && q.retry.value.baselineRun >= 1)
  }

  lemma HexDigit(ch: char)
    ensures ch in HEX <==> '0' <= ch <= '9' || 'a' <= ch <= 'f'
  {
    if '0' <= ch <= '9' { assert HEX[(ch - '0') as int] == ch; }
    if 'a' <= ch <= 'f' { assert HEX[10 + (ch - 'a') as int] == ch; }
  }

  lemma Digit(ch: char)
    ensures ch in DIGITS <==> '0' <= ch <= '9'
  {
    if '0' <= ch <= '9' { assert DIGITS[(ch - '0') as int] == ch; }
  }

  lemma HexIsLower(s: string, n: nat)
    ensures Hex(s, n) <==> LowerHex(s, n)
  {
    forall i | 0 <= i < |s| ensures s[i] in HEX <==> '0' <= s[i] <= '9' || 'a' <= s[i] <= 'f' { HexDigit(s[i]); }
    InByIndex(s, HEX);
  }

  lemma InByIndex(s: string, alphabet: string)
    ensures AllIn(s, alphabet) <==> forall i :: 0 <= i < |s| ==> s[i] in alphabet
  {
  }

  lemma IssueIsNamed(s: string)
    ensures IssueUrl(s) <==> NamesIssue(s)
  {
    if |ISSUES| < |s| {
      var rest := s[|ISSUES|..];
      InByIndex(rest, DIGITS);
      forall i | 0 <= i < |rest| ensures rest[i] == s[|ISSUES| + i] && (rest[i] in DIGITS <==> '0' <= rest[i] <= '9') { Digit(rest[i]); }
      if IssueUrl(s) { assert forall i :: |ISSUES| <= i < |s| ==> s[i] == rest[i - |ISSUES|]; }
    }
  }

  lemma AscendingArePositive(ids: seq<int>)
    requires StrictlyAscending(ids)
    ensures ids != [] && (forall i :: i in ids ==> i > 0) <==> |ids| >= 1 && ids[0] >= 1
  {
    if ids != [] { assert ids[0] in ids; }
    if |ids| >= 1 && ids[0] >= 1 {
      forall id | id in ids ensures id > 0 { var k :| 0 <= k < |ids| && ids[k] == id; }
    }
  }

  lemma ShapedExactlyWhenWellFormed(q: Request)
    ensures WellFormed(q) <==> Shaped(q)
  {
    hide Hex, LowerHex, IssueUrl, NamesIssue;
    var u := q.subject;
    HexIsLower(u.headSha, 40);
    HexIsLower(u.baseSha, 40);
    HexIsLower(u.mergeSha, 40);
    HexIsLower(u.mergeTree, 40);
    HexIsLower(u.policySha256, 64);
    HexIsLower(u.reviewGeneration, 64);
    IssueIsNamed(u.objective);
    if StrictlyAscending(u.reviewIds) { AscendingArePositive(u.reviewIds); }
    if q.retry.Some? { HexIsLower(q.retry.value.priorRequest, 64); }
  }

  predicate CarriesLabel(c: Codec, m: Comment, labelName: string, owner: Option<int>) {
    c.labelOf(m.body) == labelName && (owner.None? || m.userId == owner.value)
  }

  /** Comment `k` is the oldest that carries the label. */
  predicate OldestCarrier(c: Codec, comments: seq<Comment>, labelName: string, owner: Option<int>, k: int) {
    && 0 <= k < |comments| && CarriesLabel(c, comments[k], labelName, owner)
    && forall j :: 0 <= j < |comments| && CarriesLabel(c, comments[j], labelName, owner) ==>
         comments[k].id < comments[j].id || (comments[k].id == comments[j].id && k <= j)
  }

  /** The label names `q`: the oldest comment that carries it decodes to `q`, a well-formed request of the eligible user who
      wrote the comment. */
  ghost predicate Named(c: Codec, comments: seq<Comment>, labelName: string, owner: Option<int>, q: Request) {
    exists k :: OldestCarrier(c, comments, labelName, owner, k) && Spells(c, comments[k], q)
  }

  predicate Spells(c: Codec, m: Comment, q: Request) {
    && c.decode(m.body) == Some(q) && Shaped(q) && q.subject.ownerId == m.userId
    && m.isUser && m.association in {"OWNER", "MEMBER", "COLLABORATOR"}
  }

  lemma MatchesStep(c: Codec, comments: seq<Comment>, labelName: string, owner: Option<int>)
    requires comments != []
    ensures LabelMatches(c, comments, labelName, owner) ==
      (if CarriesLabel(c, comments[0], labelName, owner) then [comments[0]] else []) + LabelMatches(c, comments[1..], labelName, owner)
  {
  }

  lemma FirstPostedStep(m: Comment, rest: seq<Comment>)
    ensures FirstPosted([m] + rest) == if rest == [] || m.id <= FirstPosted(rest).id then m else FirstPosted(rest)
  {
    assert ([m] + rest)[1..] == rest;
  }

  /** The comment the adapter reads is the oldest that carries the label. */
  lemma {:induction false} FirstOfMatches(c: Codec, comments: seq<Comment>, labelName: string, owner: Option<int>) returns (k: int)
    ensures var matches := LabelMatches(c, comments, labelName, owner);
      if matches == [] then forall m :: m in comments ==> !CarriesLabel(c, m, labelName, owner)
      else OldestCarrier(c, comments, labelName, owner, k) && FirstPosted(matches) == comments[k]
  {
    hide LabelMatches, CarriesLabel, FirstPosted;
    k := 0;
    if comments == [] {
      NoMatches(c, labelName, owner);
    } else {
      var rest := comments[1..];
      var n := FirstOfMatches(c, rest, labelName, owner);
      MatchesStep(c, comments, labelName, owner);
      assert forall j :: 0 <= j < |rest| ==> rest[j] == comments[j + 1];
      assert forall m :: m in comments ==> m == comments[0] || m in rest;
      var later := LabelMatches(c, rest, labelName, owner);
      if CarriesLabel(c, comments[0], labelName, owner) {
        FirstPostedStep(comments[0], later);
        k := if later == [] || comments[0].id <= FirstPosted(later).id then 0 else n + 1;
      } else {
        assert [] + later == later;
        k := n + 1;
      }
    }
  }

  lemma NoMatches(c: Codec, labelName: string, owner: Option<int>)
    ensures LabelMatches(c, [], labelName, owner) == []
  {
  }

  lemma OldestIsUnique(c: Codec, comments: seq<Comment>, labelName: string, owner: Option<int>, j: int, k: int)
    requires OldestCarrier(c, comments, labelName, owner, j) && OldestCarrier(c, comments, labelName, owner, k)
    ensures j == k
  {
    hide CarriesLabel;
  }

  /** A label resolves exactly to the request it names. */
  lemma ResolvedExactlyWhenNamed(c: Codec, comments: seq<Comment>, labelName: string, owner: Option<int>, q: Request)
    ensures RequestFor(c, comments, labelName, owner) == Some(q) <==> Named(c, comments, labelName, owner, q)
  {
    hide LabelMatches, CarriesLabel, WellFormed, Shaped;
    ShapedExactlyWhenWellFormed(q);
    var k := FirstOfMatches(c, comments, labelName, owner);
    forall j | OldestCarrier(c, comments, labelName, owner, j) && OldestCarrier(c, comments, labelName, owner, k) ensures j == k {
      OldestIsUnique(c, comments, labelName, owner, j, k);
    }
  }

  // ---------------------------------------------------------------- reviews

  /** Every change request was answered: its author approved strictly later. */
  ghost predicate NoStandingObjection(reviews: seq<Review>) {
    forall r :: r in reviews && r.state == ChangesRequested ==> Answered(reviews, r)
  }

  ghost predicate Answered(reviews: seq<Review>, r: Review) {
    exists o :: o in reviews && o.userId == r.userId && o.state == Approved
      && r.submittedAt.Some? && o.submittedAt.Some? && o.submittedAt.value > r.submittedAt.value
  }

  /** The latest decision of an author among the first `n` reviews. */
  lemma {:induction false} LatestDecision(reviews: seq<Review>, user: int, n: nat) returns (last: Review)
    requires n <= |reviews| && ReviewStatesKnown(reviews)
    requires exists k :: 0 <= k < n && Decisive(reviews[k]) && reviews[k].userId == user
    ensures last in reviews && Decisive(last) && last.userId == user && last.submittedAt.Some?
    ensures forall k :: 0 <= k < n && Decisive(reviews[k]) && reviews[k].userId == user ==>
      reviews[k].submittedAt.Some? && reviews[k].submittedAt.value <= last.submittedAt.value
  {
    var r := reviews[n - 1];
    assert forall k :: 0 <= k < n ==> reviews[k] in reviews;
    if exists k :: 0 <= k < n - 1 && Decisive(reviews[k]) && reviews[k].userId == user {
      last := LatestDecision(reviews, user, n - 1);
      if Decisive(r) && r.userId == user && r.submittedAt.value > last.submittedAt.value { last := r; }
    } else {
      last := r;
    }
  }

  /** Nobody's decision by this author is later. */
  predicate IsLatest(reviews: seq<Review>, r: Review) {
    && r in reviews && r.submittedAt.Some?
    && forall o :: o in reviews && Decisive(o) && o.userId == r.userId && o.submittedAt.Some? ==> o.submittedAt.value <= r.submittedAt.value
  }

  lemma BlockedByLatest(reviews: seq<Review>, r: Review)
    requires IsLatest(reviews, r) && r.state == ChangesRequested
    ensures Blocked(reviews)
  {
  }

  lemma HasLatest(reviews: seq<Review>, r: Review) returns (last: Review)
    requires ReviewStatesKnown(reviews) && r in reviews && Decisive(r)
    ensures IsLatest(reviews, last) && Decisive(last) && last.userId == r.userId
  {
    var n :| 0 <= n < |reviews| && reviews[n] == r;
    last := LatestDecision(reviews, r.userId, |reviews|);
    forall o | o in reviews && Decisive(o) && o.userId == r.userId && o.submittedAt.Some?
      ensures o.submittedAt.value <= last.submittedAt.value
    {
      var k :| 0 <= k < |reviews| && reviews[k] == o;
    }
  }

  lemma UnblockedIsAnswered(reviews: seq<Review>, r: Review)
    requires ReviewStatesKnown(reviews) && !Blocked(reviews) && r in reviews && r.state == ChangesRequested
    ensures Answered(reviews, r)
  {
    hide Blocked;
    var last := HasLatest(reviews, r);
    if last.state == ChangesRequested { BlockedByLatest(reviews, last); }
    if last.submittedAt == r.submittedAt { BlockedByLatest(reviews, r); }
  }

  lemma AnsweredIsUnblocked(reviews: seq<Review>)
    requires NoStandingObjection(reviews)
    ensures !Blocked(reviews)
  {
    forall r | r in reviews && r.state == ChangesRequested ensures Answered(reviews, r) {}
  }

  /** Nobody blocks exactly when every change request was answered by a strictly later approval of its author. */
  lemma UnblockedExactlyWhenAnswered(reviews: seq<Review>)
    requires ReviewStatesKnown(reviews)
    ensures !Blocked(reviews) <==> NoStandingObjection(reviews)
  {
    hide Blocked, ReviewStatesKnown, Answered;
    if !Blocked(reviews) {
      forall r | r in reviews && r.state == ChangesRequested ensures Answered(reviews, r) { UnblockedIsAnswered(reviews, r); }
    }
    if NoStandingObjection(reviews) { AnsweredIsUnblocked(reviews); }
  }

  predicate ReviewsReadable(reviews: seq<Review>) {
    forall r :: r in reviews ==> r.state != UnknownState && (r.state in {Approved, ChangesRequested} ==> r.submittedAt.Some?)
  }

  /** The selected reviews are there, about the head, by somebody who may request, approving or commenting with some text. */
  predicate SelectionStands(u: Subject, reviews: seq<Review>) {
    forall n :: 0 <= n < |u.reviewIds| ==> Supported(u, reviews, u.reviewIds[n])
  }

  predicate Supported(u: Subject, reviews: seq<Review>, id: int) { exists r :: r in reviews && Supports(u, r, id) }

  predicate Supports(u: Subject, r: Review, id: int) {
    && r.id == id && r.commitId == u.headSha && (r.state == Approved || r.state == Commented)
    && r.association in {"OWNER", "MEMBER", "COLLABORATOR"} && HasText(r.body)
  }

  predicate HasText(s: string) { exists n :: 0 <= n < |s| && s[n] !in [' ', '\t', '\n', '\r'] }

  lemma TextIsNotBlank(s: string)
    ensures NotBlank(s) <==> HasText(s)
  {
    if NotBlank(s) {
      var ch :| ch in s && ch !in {' ', '\t', '\n', '\r'};
      var n :| 0 <= n < |s| && s[n] == ch;
    }
    if HasText(s) {
      var n :| 0 <= n < |s| && s[n] !in [' ', '\t', '\n', '\r'];
      assert s[n] in s;
    }
  }

  lemma SupportedExactlyWhen(u: Subject, reviews: seq<Review>, id: int)
    ensures SelectedReviewStands(u, reviews, id) <==> Supported(u, reviews, id)
  {
    hide NotBlank, HasText;
    forall r: Review ensures NotBlank(r.body) <==> HasText(r.body) { TextIsNotBlank(r.body); }
    if SelectedReviewStands(u, reviews, id) {
      var r :| r in reviews && r.id == id && r.commitId == u.headSha && r.state in {Approved, Commented}
               && NotBlank(r.body) && MayRequest(r.association);
      assert Supports(u, r, id);
    }
  }

  lemma SelectionExactlyWhen(u: Subject, reviews: seq<Review>)
    ensures SelectedReviewsStand(u, reviews) <==> SelectionStands(u, reviews)
  {
    hide SelectedReviewStands, Supported;
    forall id ensures SelectedReviewStands(u, reviews, id) <==> Supported(u, reviews, id) { SupportedExactlyWhen(u, reviews, id); }
    if SelectionStands(u, reviews) {
      forall id | id in u.reviewIds ensures SelectedReviewStands(u, reviews, id) {
        var n :| 0 <= n < |u.reviewIds| && u.reviewIds[n] == id;
      }
    }
  }

  // ----------------------------------------------------------------- events

  /** An edge of the label. */
  predicate IsEdge(e: NativeEvent, labelName: string) { e.LabelEdge? && e.labelName == labelName }

  /** The time precedes every edge of the label. */
  predicate Precedes(at: int, events: seq<NativeEvent>, labelName: string) {
    forall e :: e in events && IsEdge(e, labelName) ==> at < e.createdAt
  }

  /** The label was applied, by the owner only, and never removed. */
  predicate Applied(events: seq<NativeEvent>, labelName: string, owner: int) {
    && (exists e :: e in events && IsEdge(e, labelName))
    && forall e :: e in events && IsEdge(e, labelName) ==> e.kind == Labeled && e.actorId == owner
  }

  /** No change request came after the label: the ones on record were all submitted before it was first applied, and so were
      those that a dismissal speaks of, unless the dismissal itself came before. */
  ghost predicate UnopposedSince(reviews: seq<Review>, events: seq<NativeEvent>, labelName: string) {
    && (forall r :: r in reviews && r.state == ChangesRequested && r.submittedAt.Some? ==> Precedes(r.submittedAt.value, events, labelName))
    && (forall e :: e in events && e.ReviewDismissal? ==>
          && e.reviewId >= 1 && e.state in {Commented, Approved, ChangesRequested}
          && (e.state == ChangesRequested ==>
                || Precedes(e.createdAt, events, labelName)
                || exists r :: r in reviews && r.id == e.reviewId && r.submittedAt.Some? && Precedes(r.submittedAt.value, events, labelName)))
  }

  lemma EdgesExactlyWhen(events: seq<NativeEvent>, labelName: string, owner: int)
    ensures EdgesStand(events, labelName, owner) <==> Applied(events, labelName, owner)
    ensures EdgesOf(events, labelName) != [] ==> forall at :: at < FirstTime(EdgesOf(events, labelName)) <==> Precedes(at, events, labelName)
  {
    var edges := EdgesOf(events, labelName);
    assert forall e :: e in edges <==> e in events && IsEdge(e, labelName);
    if edges != [] {
      assert edges[0] in edges;
      var first :| first in edges && first.createdAt == FirstTime(edges);
    }
  }

  lemma UnopposedExactlyWhen(reviews: seq<Review>, events: seq<NativeEvent>, labelName: string)
    requires EdgesOf(events, labelName) != []
    ensures !ReviewRetires(reviews, events, FirstTime(EdgesOf(events, labelName))) <==> UnopposedSince(reviews, events, labelName)
  {
    hide EdgesOf, FirstTime, Precedes;
    EdgesExactlyWhen(events, labelName, 0);
  }

  // -------------------------------------------------------- the request stands

  /** The label names, for this owner, a request about the same head and base. */
  ghost predicate Selects(c: Codec, comments: seq<Comment>, labelName: string, u: Subject) {
    exists q :: IsCiLabel(labelName) && Named(c, comments, labelName, Some(u.ownerId), q)
      && q.subject.headSha == u.headSha && q.subject.baseSha == u.baseSha
  }

  /** Label `k` of the pull request is the one that selects its candidate. */
  ghost predicate SelectsOnlyAt(c: Codec, comments: seq<Comment>, labels: seq<string>, u: Subject, k: int) {
    0 <= k < |labels| && forall j :: 0 <= j < |labels| ==> (Selects(c, comments, labels[j], u) <==> j == k)
  }

  lemma ActiveExactlyWhen(c: Codec, comments: seq<Comment>, labels: seq<string>, u: Subject, labelName: string)
    ensures labelName in labels && ActiveLabels(c, comments, labels, u) == [labelName] <==>
      exists k :: SelectsOnlyAt(c, comments, labels, u, k) && labels[k] == labelName
  {
    hide Named, RequestFor, IsCiLabel;
    var p := (name: string) =>
      && IsCiLabel(name)
      && var r := RequestFor(c, comments, name, Some(u.ownerId));
         r.Some? && r.value.subject.headSha == u.headSha && r.value.subject.baseSha == u.baseSha;
    forall name ensures p(name) <==> Selects(c, comments, name, u) {
      if p(name) { ResolvedExactlyWhenNamed(c, comments, name, Some(u.ownerId), RequestFor(c, comments, name, Some(u.ownerId)).value); }
      if Selects(c, comments, name, u) {
        var q :| IsCiLabel(name) && Named(c, comments, name, Some(u.ownerId), q) && q.subject.headSha == u.headSha && q.subject.baseSha == u.baseSha;
        ResolvedExactlyWhenNamed(c, comments, name, Some(u.ownerId), q);
      }
    }
    assert ActiveLabels(c, comments, labels, u) == Filter(p, labels);
    if ActiveLabels(c, comments, labels, u) == [labelName] {
      var k := FilterFindsOne(p, labels);
      FilterKeepsOne(p, labels, k);
      assert SelectsOnlyAt(c, comments, labels, u, k);
    }
    forall k | SelectsOnlyAt(c, comments, labels, u, k) ensures Filter(p, labels) == [labels[k]] { FilterKeepsOne(p, labels, k); }
  }

  /** The webhook, the live pull request, its owner, its objective and its merge commit are the ones the request describes. */
  predicate Describes(u: Subject, s: Snapshot, e: Webhook, policy: string) {
    && u.repository == e.repository == "EffortlessMetrics/ub-review" && !e.isPrivate && u.pr == e.number
    && s.live.open && !s.live.draft && s.live.mergeable
    && e.headRepository == u.headRepository && s.live.headRepository == u.headRepository
    && e.headSha == u.headSha && s.live.headSha == u.headSha
    && u.baseRef == "main" && e.baseRef == "main" && s.live.baseRef == "main"
    && e.baseRepository == "EffortlessMetrics/ub-review" && s.live.baseRepository == "EffortlessMetrics/ub-review"
    && e.baseSha == u.baseSha && s.live.baseSha == u.baseSha
    && u.policySha256 == policy
    && s.objective.open && !s.objective.isPullRequest
    && s.live.mergeCommitSha == u.mergeSha && s.merge.sha == u.mergeSha && s.merge.tree == u.mergeTree
    && |s.merge.parents| == 2 && s.merge.parents[0] == u.baseSha && s.merge.parents[1] == u.headSha
  }

  /** The sender owns the request, is the only assignee, and may write. */
  predicate Owned(u: Subject, s: Snapshot, e: Webhook) {
    && e.senderIsUser && e.senderId == u.ownerId && (s.permission.level == "write" || s.permission.level == "admin")
    && s.permission.userId == u.ownerId
    && |s.live.assignees| == 1 && s.live.assignees[0].id == u.ownerId
    && LoginText(s.live.assignees[0].login)
  }

  function Selected(u: Subject, reviews: seq<Review>): seq<Review> { Filter((r: Review) => r.id in u.reviewIds, reviews) }

  /** The request `q` stands: the webhook's label names it, nothing else selects the candidate, everything it describes is
      as described, its reviews stand, nobody objects, and nothing has retired its label. */
  ghost predicate Stands(c: Codec, s: Snapshot, e: Webhook, policy: string, q: Request) {
    var u := q.subject;
    && Named(c, s.comments, e.labelName, Some(e.senderId), q)
    && (exists k :: SelectsOnlyAt(c, s.comments, s.live.labels, u, k) && s.live.labels[k] == e.labelName)
    && |s.comments| < 500 && |s.reviews| < 500 && |s.events| < 500
    && Describes(u, s, e, policy) && Owned(u, s, e)
    && c.generation(Selected(u, s.reviews)) == u.reviewGeneration
    && SelectionStands(u, s.reviews) && ReviewsReadable(s.reviews) && NoStandingObjection(s.reviews)
    && Applied(s.events, e.labelName, u.ownerId) && UnopposedSince(s.reviews, s.events, e.labelName)
  }

  lemma DescribesExactlyWhen(u: Subject, s: Snapshot, e: Webhook, policy: string)
    ensures Describes(u, s, e, policy) <==>
      && e.repository == REPO && !e.isPrivate && s.live.open && !s.live.draft && s.live.mergeable
      && SubjectIsLive(u, e, s.live) && u.policySha256 == policy
      && s.objective.open && !s.objective.isPullRequest && Integrates(u, s.live, s.merge)
  {
  }

  lemma OwnedExactlyWhen(u: Subject, s: Snapshot, e: Webhook)
    requires u.ownerId == e.senderId
    ensures Owned(u, s, e) <==> e.senderIsUser && OwnerMayAdmit(u, s.live, s.permission)
  {
    hide AllIn, LoginText;
    if |s.live.assignees| == 1 { LoginExactlyWhen(s.live.assignees[0].login); }
  }

  lemma GenerationExactlyWhen(c: Codec, u: Subject, reviews: seq<Review>)
    ensures Filter((r: Review) => r.id in u.reviewIds, reviews) == Selected(u, reviews)
  {
    FilterAgrees((r: Review) => r.id in u.reviewIds, (r: Review) => r.id in u.reviewIds, reviews);
  }

  lemma NamedByOwner(c: Codec, comments: seq<Comment>, labelName: string, owner: int, q: Request)
    requires RequestFor(c, comments, labelName, Some(owner)) == Some(q)
    ensures q.subject.ownerId == owner && WellFormed(q)
  {
  }

  /** The adapter finds a request current exactly when it stands. */
  lemma CurrentExactlyWhenItStands(c: Codec, s: Snapshot, e: Webhook, policy: string, q: Request)
    ensures Current(c, s, e, policy) == Some(q) <==> Stands(c, s, e, policy, q)
  {
    hide RequestFor, Named, WellFormed, SelectsOnlyAt, ActiveLabels, SubjectIsLive, OwnerMayAdmit, Integrates, SelectedReviewsStand, SelectionStands,
      ReviewStatesKnown, ReviewsReadable, Blocked, NoStandingObjection, EdgesStand, Applied, ReviewRetires, UnopposedSince, EdgesOf, FirstTime,
      Describes, Owned, Selected, Filter;
    ResolvedExactlyWhenNamed(c, s.comments, e.labelName, Some(e.senderId), q);
    if RequestFor(c, s.comments, e.labelName, Some(e.senderId)) == Some(q) {
      var u := q.subject;
      NamedByOwner(c, s.comments, e.labelName, e.senderId, q);
      ActiveExactlyWhen(c, s.comments, s.live.labels, u, e.labelName);
      DescribesExactlyWhen(u, s, e, policy);
      OwnedExactlyWhen(u, s, e);
      GenerationExactlyWhen(c, u, s.reviews);
      SelectionExactlyWhen(u, s.reviews);
      ReadableExactlyWhen(s.reviews);
      if ReviewStatesKnown(s.reviews) { UnblockedExactlyWhenAnswered(s.reviews); }
      EdgesExactlyWhen(s.events, e.labelName, u.ownerId);
      AppliedHasEdges(s.events, e.labelName, u.ownerId);
      if EdgesOf(s.events, e.labelName) != [] { UnopposedExactlyWhen(s.reviews, s.events, e.labelName); }
    }
  }

  lemma ReadableExactlyWhen(reviews: seq<Review>)
    ensures ReviewStatesKnown(reviews) <==> ReviewsReadable(reviews)
  {
  }

  lemma AppliedHasEdges(events: seq<NativeEvent>, labelName: string, owner: int)
    ensures EdgesStand(events, labelName, owner) ==> EdgesOf(events, labelName) != []
  {
    hide EdgesOf;
  }

  // ------------------------------------------------------------ the decision

  /** The webhook applies a request label. */
  predicate AppliesLabel(e: Webhook) {
    (e.name == "pull_request" || e.name == "pull_request_target") && e.action == "labeled" && IsCiLabel(e.labelName)
  }

  predicate PacketAt(artifacts: seq<Artifact>, n: int) {
    0 <= n < |artifacts| && forall k :: 0 <= k < |artifacts| ==> (artifacts[k].name == "ub-review-gate" <==> k == n)
  }

  /** The run published one gate packet, whole, unexpired, and about this head. */
  ghost predicate Published(s: Snapshot, runId: int, q: Request) {
    |s.artifacts| < 500 && exists n :: PacketAt(s.artifacts, n) && Bound(s.artifacts[n], runId, q)
  }

  predicate Bound(a: Artifact, runId: int, q: Request) {
    !a.expired && a.size > 0 && a.digestOk && a.runId == runId && a.headSha == q.subject.headSha
  }

  /** The job is a first attempt that was not cancelled; in the gate lane it checked out the merge commit; and when it
      finalizes, it was admitted, product and admission succeeded, and the gate published its packet. */
  ghost predicate Fits(k: Call, s: Snapshot, q: Request) {
    && k.attempt == 1 && !k.cancelled && (k.lane == Gate ==> k.nativeSha == q.subject.mergeSha)
    && (k.phase == Finalize ==> k.mode == "admitted" && k.product == "success" && k.admissionResult == "success")
    && (k.phase == Finalize && k.lane == Gate ==> Published(s, k.runId, q))
  }

  lemma PublishedExactlyWhen(s: Snapshot, runId: int, q: Request)
    ensures PacketBound(s, runId, q) <==> Published(s, runId, q)
  {
    var p := (a: Artifact) => a.name == "ub-review-gate";
    var packets := Filter(p, s.artifacts);
    if |packets| == 1 {
      var n := FilterFindsOne(p, s.artifacts);
      FilterKeepsOne(p, s.artifacts, n);
      assert PacketAt(s.artifacts, n);
    }
    forall n | PacketAt(s.artifacts, n) ensures packets == [s.artifacts[n]] { FilterKeepsOne(p, s.artifacts, n); }
  }

  predicate Wins(c: Codec, s: Snapshot, e: Webhook, k: Call, q: Request) {
    var winner := Elect(c, s, e.labelName, k.lane, k.runId, q);
    winner.Some? && winner.value.facts.id == k.runId
  }

  /** A job is admitted for a request exactly when its webhook applied a label, the request stands, the job fits it, its run
      is the elected one of its lane, and every ancestor of the request is settled. */
  lemma AdmittedExactlyWhen(c: Codec, s: Snapshot, e: Webhook, k: Call, q: Request)
    ensures Decide(c, s, e, k) == Admitted(q) <==>
      AppliesLabel(e) && Stands(c, s, e, k.policy, q) && Fits(k, s, q) && Wins(c, s, e, k, q) && WellFormed(q) && RetryChain(c, s, q)
  {
    hide Current, Stands, Elect, RetryChain, PacketBound, Published, TouchesSelection, WellFormed;
    CurrentExactlyWhenItStands(c, s, e, k.policy, q);
    PublishedExactlyWhen(s, k.runId, q);
    if Current(c, s, e, k.policy).Some? {
      var r := Current(c, s, e, k.policy).value;
      assert WellFormed(r);
      BoundedWhenWellFormed(r);
    }
  }

  lemma BoundedWhenWellFormed(q: Request)
    requires WellFormed(q)
    ensures BoundedRetry(q.retry)
  {
  }

  /** No execution of any run admits a request while a change request stands: one that was never followed, by the time the
      reviews were read, by an approval of its author. */
  lemma StandingObjectionRefuses(c: Codec, ws: seq<World>, x: Execution, q: Request, id: int)
    requires Trace(ws) && Plays(ws, x) && Outcome(c, x) == Admitted(q)
    requires id in ws[x.reviewsAt].reviews && ws[x.reviewsAt].reviews[id].review.state == ChangesRequested
    ensures Answered(x.snapshot.reviews, ws[x.reviewsAt].reviews[id].review)
  {
    hide Decide, Stands, Elect, RetryChain, WellFormed, ListsRuns, Trace;
    AdmittedExactlyWhen(c, x.snapshot, x.webhook, x.call, q);
    StandsUnopposed(c, x.snapshot, x.webhook, x.call.policy, q);
    assert ws[x.reviewsAt].reviews[id].review in x.snapshot.reviews;
  }

  lemma StandsUnopposed(c: Codec, s: Snapshot, e: Webhook, policy: string, q: Request)
    requires Stands(c, s, e, policy, q)
    ensures NoStandingObjection(s.reviews)
  {
    hide NoStandingObjection, Describes, Named;
  }

  // -------------------------------------------------------- other decisions

  predicate OnPullRequest(e: Webhook) { e.name == "pull_request" || e.name == "pull_request_target" }

  /** The webhook itself is a material transition. */
  predicate Moves(e: Webhook) {
    || (OnPullRequest(e) && (e.action == "synchronize" || e.action == "converted_to_draft" || e.action == "closed"))
    || (OnPullRequest(e) && e.action == "unlabeled" && IsCiLabel(e.labelName))
    || (OnPullRequest(e) && e.action == "edited" && e.baseChanged)
    || (e.name == "pull_request_review" && e.action == "submitted" && e.reviewState == "changes_requested")
  }

  /** The webhook edits or dismisses a review that a live request of an assignee selected. */
  ghost predicate TouchesEvidence(c: Codec, s: Snapshot, e: Webhook) {
    && e.name == "pull_request_review" && (e.action == "dismissed" || e.action == "edited") && |s.comments| < 500
    && exists name, q :: name in s.live.labels && SelectsReview(c, s, e, name, q)
  }

  ghost predicate SelectsReview(c: Codec, s: Snapshot, e: Webhook, name: string, q: Request) {
    && IsCiLabel(name) && Named(c, s.comments, name, None, q) && (exists a :: a in s.live.assignees && a.id == q.subject.ownerId)
    && q.subject.headSha == s.live.headSha && q.subject.baseSha == s.live.baseSha && q.subject.baseRef == s.live.baseRef
    && e.reviewId in q.subject.reviewIds
  }

  /** A final job that carries an earlier outcome on. */
  predicate Carries(k: Call) { k.phase == Finalize && (k.mode == "observation" || k.mode == "duplicate" || k.mode == "replay") }

  lemma TouchesExactlyWhen(c: Codec, s: Snapshot, e: Webhook)
    ensures TouchesSelection(c, s, e) <==> exists name, q :: name in s.live.labels && SelectsReview(c, s, e, name, q)
  {
    hide RequestFor, Named;
    forall name
      ensures (exists q :: SelectsReview(c, s, e, name, q)) <==>
        IsCiLabel(name) && RequestFor(c, s.comments, name, None).Some? && SelectsReview(c, s, e, name, RequestFor(c, s.comments, name, None).value)
    {
      var r := RequestFor(c, s.comments, name, None);
      forall q | Named(c, s.comments, name, None, q) ensures r == Some(q) { ResolvedExactlyWhenNamed(c, s.comments, name, None, q); }
    }
    forall name | RequestFor(c, s.comments, name, None).Some?
      ensures Named(c, s.comments, name, None, RequestFor(c, s.comments, name, None).value)
    {
      ResolvedExactlyWhenNamed(c, s.comments, name, None, RequestFor(c, s.comments, name, None).value);
    }
  }

  /** A job reports an invalidation exactly for a material webhook or one that touches selected evidence. */
  lemma InvalidatedExactlyWhen(c: Codec, s: Snapshot, e: Webhook, k: Call)
    ensures Decide(c, s, e, k) == Invalidated <==> !Carries(k) && (Moves(e) || TouchesEvidence(c, s, e))
  {
    hide Current, Elect, RetryChain, PacketBound, TouchesSelection, SelectsReview, IsCiLabel;
    TouchesExactlyWhen(c, s, e);
  }

  /** The webhook submits a review in a state the protocol does not know. */
  predicate SubmitsUnknown(e: Webhook) {
    e.name == "pull_request_review" && e.action == "submitted" && e.reviewState !in {"approved", "commented", "changes_requested"}
  }

  predicate ChangesReview(e: Webhook) { e.name == "pull_request_review" && (e.action == "dismissed" || e.action == "edited") }

  /** The webhook neither asks for anything nor takes anything back. */
  predicate Harmless(e: Webhook) { !AppliesLabel(e) && !Moves(e) && !ChangesReview(e) && !SubmitsUnknown(e) }

  /** A job observes, without a verdict, exactly a harmless webhook, or a changed review that nobody selected. */
  lemma ObservedExactlyWhen(c: Codec, s: Snapshot, e: Webhook, k: Call)
    ensures Decide(c, s, e, k) == Observation <==>
      Harmless(e) || (!Carries(k) && ChangesReview(e) && |s.comments| < 500 && !TouchesEvidence(c, s, e))
  {
    hide Current, Elect, RetryChain, PacketBound, TouchesSelection, IsCiLabel, SelectsReview;
    TouchesExactlyWhen(c, s, e);
  }

  /** A final job carries an earlier outcome on, of whatever the webhook asks. */
  lemma CarriedExactlyWhen(c: Codec, s: Snapshot, e: Webhook, k: Call, mode: string)
    ensures Decide(c, s, e, k) == Carried(mode) <==> Carries(k) && mode == k.mode && !Harmless(e) && !SubmitsUnknown(e)
  {
    hide Current, Elect, RetryChain, PacketBound, TouchesSelection, IsCiLabel;
  }

  /** A later attempt of a labelled run is a replay, whatever else holds. */
  lemma ReplayedExactlyWhen(c: Codec, s: Snapshot, e: Webhook, k: Call, run: int)
    ensures Decide(c, s, e, k) == Replay(run) <==> !Carries(k) && AppliesLabel(e) && k.attempt != 1 && run == k.runId
  {
    hide Current, Elect, RetryChain, PacketBound, TouchesSelection, IsCiLabel;
  }

  /** A job is a duplicate of the run that was elected in its place, for a request that stands. */
  lemma DuplicateExactlyWhen(c: Codec, s: Snapshot, e: Webhook, k: Call, run: int)
    ensures Decide(c, s, e, k) == Duplicate(run) <==>
      && !Carries(k) && AppliesLabel(e) && k.attempt == 1 && run != k.runId
      && exists q :: Stands(c, s, e, k.policy, q) && ElectedIs(c, s, e, k, q, run)
  {
    hide Current, Stands, Elect, RetryChain, PacketBound, TouchesSelection, IsCiLabel;
    forall q ensures Current(c, s, e, k.policy) == Some(q) <==> Stands(c, s, e, k.policy, q) {
      CurrentExactlyWhenItStands(c, s, e, k.policy, q);
    }
  }

  predicate ElectedIs(c: Codec, s: Snapshot, e: Webhook, k: Call, q: Request, run: int) {
    && (k.lane == Gate ==> k.nativeSha == q.subject.mergeSha)
    && var winner := Elect(c, s, e.labelName, k.lane, k.runId, q); winner.Some? && winner.value.facts.id == run
  }

  // -------------------------------------------------------- rows of a history

  /** The run asks, through a label its actor stated, for `q`, about the head and base its title and pull request show. */
  ghost predicate AsksFor(c: Codec, comments: seq<Comment>, q: Request, row: Row) {
    var f := row.facts;
    && f.title.Titled? && f.title.pr == q.subject.pr && f.title.action == "labeled" && f.title.tag.Ci?
    && f.title.actor == q.subject.ownerId && f.actorId == q.subject.ownerId && f.headSha == f.title.head
    && f.title.head == q.subject.headSha && f.title.base == q.subject.baseSha && f.title.baseRef == q.subject.baseRef
    && PullRef(q.subject.pr, q.subject.headSha, q.subject.baseSha, q.subject.baseRef) in row.pulls
    && Named(c, comments, f.title.tag.labelName, Some(q.subject.ownerId), q)
  }

  /** A row counts as a candidate exactly when it is not later than the run itself, of the same event, and asks for `q`. */
  lemma CandidateExactlyWhenItAsks(c: Codec, comments: seq<Comment>, q: Request, labelName: string, own: Row, row: Row)
    requires own.facts.trigger != WorkflowDispatch
    ensures Judge(c, comments, q, labelName, own, row) == Candidate <==>
      row.facts.number <= own.facts.number && row.facts.trigger == own.facts.trigger && AsksFor(c, comments, q, row)
  {
    hide Material, RequestFor, Named;
    var t := row.facts.title;
    if t.Titled? && t.tag.Ci? { ResolvedExactlyWhenNamed(c, comments, t.tag.labelName, Some(t.actor), q); }
  }

  /** A later row whose title reads refuses exactly when it is about another pull request and yet associated with this one, or
      about this one and forged or retiring. */
  lemma LaterRowRefusesExactlyWhen(c: Codec, comments: seq<Comment>, q: Request, labelName: string, own: Row, row: Row)
    requires row.facts.number > own.facts.number && row.facts.trigger != WorkflowDispatch && row.facts.title.Titled?
    ensures Judge(c, comments, q, labelName, own, row) == Refuse <==>
      if row.facts.title.pr != q.subject.pr then exists p :: p in row.pulls && p.number == q.subject.pr
      else row.facts.headSha != row.facts.title.head || row.facts.actorId != row.facts.title.actor || Retires(row.facts, q, labelName)
  {
    hide RequestFor;
  }

  /** The label of the row names `p`, and `p`, the title and the pull request agree. */
  ghost predicate Confirms(c: Codec, comments: seq<Comment>, row: Row, p: Request) {
    var t := row.facts.title;
    && t.Titled? && t.tag.Ci? && Named(c, comments, t.tag.labelName, Some(t.actor), p)
    && p.subject.pr == t.pr && p.subject.headSha == t.head && p.subject.baseSha == t.base && p.subject.baseRef == t.baseRef
    && PullRef(t.pr, t.head, t.base, t.baseRef) in row.pulls
  }

  /** An earlier row about this pull request refuses exactly when it is forged, or is a request of the owner that came by
      another event, whose label names nothing, or that the label's request or the pull request contradicts. */
  lemma EarlierRowRefusesExactlyWhen(c: Codec, comments: seq<Comment>, q: Request, labelName: string, own: Row, row: Row)
    requires row.facts.number <= own.facts.number && row.facts.trigger != WorkflowDispatch
    requires row.facts.title.Titled? && row.facts.title.pr == q.subject.pr
    ensures var f := row.facts;
      Judge(c, comments, q, labelName, own, row) == Refuse <==>
        || f.headSha != f.title.head || f.actorId != f.title.actor
        || (&& f.title.action == "labeled" && f.title.tag.Ci? && f.title.actor == q.subject.ownerId
            && !(f.trigger == own.facts.trigger && exists p :: Confirms(c, comments, row, p)))
  {
    hide Material, RequestFor, Named;
    var t := row.facts.title;
    if t.tag.Ci? {
      var r := RequestFor(c, comments, t.tag.labelName, Some(t.actor));
      if r.Some? { ResolvedExactlyWhenNamed(c, comments, t.tag.labelName, Some(t.actor), r.value); }
      forall p | Named(c, comments, t.tag.labelName, Some(t.actor), p) ensures r == Some(p) {
        ResolvedExactlyWhenNamed(c, comments, t.tag.labelName, Some(t.actor), p);
      }
      if r.Some? {
        var u := r.value.subject;
        assert Confirms(c, comments, row, r.value) <==>
          u.pr == t.pr && u.headSha == t.head && u.baseSha == t.base && u.baseRef == t.baseRef && AssociatedExactly(row, t.pr, t.head, t.base, t.baseRef);
      }
    }
  }

  /** A row whose title is garbled refuses unless it names another pull request and is not associated with this one; a legacy
      title and a dispatched run never count. */
  lemma OtherRows(c: Codec, comments: seq<Comment>, q: Request, labelName: string, own: Row, row: Row)
    ensures row.facts.trigger == WorkflowDispatch || row.facts.title.Legacy? ==> Judge(c, comments, q, labelName, own, row) == Skip
    ensures row.facts.trigger != WorkflowDispatch && row.facts.title.Garbled? ==>
      (Judge(c, comments, q, labelName, own, row) == Refuse <==>
         || row.facts.title.number == None || row.facts.title.number == Some(q.subject.pr)
         || exists p :: p in row.pulls && p.number == q.subject.pr)
  {
  }

  /** `own` is the run of the call: it has the event of its lane, asks for `q`, no row of its history refuses, and no row of
      the same event that asks for `q` is earlier. */
  ghost predicate FirstToAsk(c: Codec, s: Snapshot, labelName: string, k: Call, q: Request, rows: seq<Row>, own: Row) {
    && own in rows && own.facts.id == k.runId && own.facts.trigger == (if k.lane == Baseline then PullRequestTarget else PullRequest)
    && AsksFor(c, s.comments, q, own)
    && (forall row :: row in rows ==> Judge(c, s.comments, q, labelName, own, row) != Refuse)
    && forall row :: row in rows && row.facts.trigger == own.facts.trigger && AsksFor(c, s.comments, q, row) ==>
         own.facts.number <= row.facts.number
  }

  /** The run of a job is the elected one exactly when it was the first of its complete history to ask for the request. */
  lemma WinsExactlyWhenFirstToAsk(c: Codec, s: Snapshot, e: Webhook, k: Call, q: Request)
    ensures Wins(c, s, e, k, q) <==>
      CompleteRows(s, k.lane).Some? && exists own :: FirstToAsk(c, s, e.labelName, k, q, CompleteRows(s, k.lane).value, own)
  {
    hide Judge, CompleteRows, AsksFor, Elect;
    if CompleteRows(s, k.lane).Some? {
      var rows := CompleteRows(s, k.lane).value;
      if Wins(c, s, e, k, q) {
        var own := WinnerIsFirst(c, s, e.labelName, k, q, rows);
        assert FirstToAsk(c, s, e.labelName, k, q, rows, own);
      }
      forall own | FirstToAsk(c, s, e.labelName, k, q, rows, own) ensures Wins(c, s, e, k, q) {
        FirstWins(c, s, e.labelName, k, q, rows, own);
      }
    } else {
      NoHistoryNoWinner(c, s, e.labelName, k, q);
    }
  }

  lemma NoHistoryNoWinner(c: Codec, s: Snapshot, labelName: string, k: Call, q: Request)
    requires CompleteRows(s, k.lane).None?
    ensures Elect(c, s, labelName, k.lane, k.runId, q).None?
  {
    hide CompleteRows;
  }

  lemma WinnerIsFirst(c: Codec, s: Snapshot, labelName: string, k: Call, q: Request, rows: seq<Row>) returns (own: Row)
    requires CompleteRows(s, k.lane) == Some(rows)
    requires Elect(c, s, labelName, k.lane, k.runId, q).Some? && Elect(c, s, labelName, k.lane, k.runId, q).value.facts.id == k.runId
    ensures FirstToAsk(c, s, labelName, k, q, rows, own)
  {
    hide Judge, CompleteRows, AsksFor, Elect;
    var all, winner;
    all, own, winner := ElectedIsCandidate(c, s, labelName, k.lane, k.runId, q);
    OneRowEach(s, k.lane, rows, own, winner);
    forall row | row in rows && row.facts.number <= own.facts.number
      ensures Judge(c, s.comments, q, labelName, own, row) == Candidate <==> row.facts.trigger == own.facts.trigger && AsksFor(c, s.comments, q, row)
    {
      CandidateExactlyWhenItAsks(c, s.comments, q, labelName, own, row);
    }
  }

  /** A complete history has one row of each run. */
  lemma OneRowEach(s: Snapshot, lane: Lane, rows: seq<Row>, a: Row, b: Row)
    requires CompleteRows(s, lane) == Some(rows) && a in rows && b in rows && a.facts.id == b.facts.id
    ensures a == b
  {
    hide CompleteRows, ReadTo;
    CompleteExactlyWhenRead(s, lane, rows);
    var n :| ReadTo(s.Pages(lane), AnchorOf(lane), n, rows);
    RowsDiffer(s.Pages(lane), AnchorOf(lane), n, rows);
  }

  lemma FirstWins(c: Codec, s: Snapshot, labelName: string, k: Call, q: Request, rows: seq<Row>, own: Row)
    requires CompleteRows(s, k.lane) == Some(rows) && FirstToAsk(c, s, labelName, k, q, rows, own)
    ensures Elect(c, s, labelName, k.lane, k.runId, q) == Some(own)
  {
    hide Judge, CompleteRows, AsksFor;
    OnlyOwnRow(s, k.lane, rows, own);
    AskerIsOwner(c, s.comments, q, own);
    forall row | row in rows
      ensures Judge(c, s.comments, q, labelName, own, row) == Candidate <==>
        row.facts.number <= own.facts.number && row.facts.trigger == own.facts.trigger && AsksFor(c, s.comments, q, row)
    {
      CandidateExactlyWhenItAsks(c, s.comments, q, labelName, own, row);
    }
    ElectedExactlyWhenFirst(c, s, labelName, k.lane, q, rows, own);
  }

  lemma AskerIsOwner(c: Codec, comments: seq<Comment>, q: Request, row: Row)
    requires AsksFor(c, comments, q, row)
    ensures row.facts.headSha == q.subject.headSha && row.facts.actorId == q.subject.ownerId
  {
  }

  lemma OnlyOwnRow(s: Snapshot, lane: Lane, rows: seq<Row>, own: Row)
    requires CompleteRows(s, lane) == Some(rows) && own in rows
    ensures OwnRow(rows, own.facts.id) == Some(own)
  {
    hide CompleteRows, ReadTo;
    CompleteExactlyWhenRead(s, lane, rows);
    var n :| ReadTo(s.Pages(lane), AnchorOf(lane), n, rows);
    RowsDiffer(s.Pages(lane), AnchorOf(lane), n, rows);
    var i :| 0 <= i < |rows| && rows[i] == own;
    FilterKeepsOne((row: Row) => row.facts.id == own.facts.id, rows, i);
  }
}
