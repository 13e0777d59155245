/** What a compiler receipt says about the review itself: which comment or finding each surface stands for, what is
    published, and why something is left out, in the fields of the comments, findings, candidates and topics. */
module CompilerSources {
  import opened Collections
  import opened ReviewSurfaces
  import opened SurfaceIdentity
  import opened CompilerReconciliation
  import ClaimGraph

  // ---------------------------------------------------- what a surface is of

  const REVIEW_FILE := "review/review.json"
  const FOLLOW_UP_FILE := "review/follow_up_evidence.json"

  /** The surface was made from this comment of the review. */
  predicate IsOfComment(h: Matcher, s: Surface, m: InlineComment) {
    && s.kind == Inline && s.sourceArtifact == REVIEW_FILE
    && s.lane == m.lane && s.path == Some(m.path) && s.line == Some(m.line) && s.subject == m.body
    && s.claimId == h.inlineClaimId(m) && s.adjudicatingClaimIds == []
    && s.id == "surface-" + h.sha(IdentityText(
         Fields(Inline, m.lane, m.path, Some(m.line), m.body, m.evidence, if m.suggestion.None? then "" else m.suggestion.value)))
  }

  predicate IsOfFinding(h: Matcher, s: Surface, f: SummaryFinding, artifact: string) {
    && s.kind == Summary && s.sourceArtifact == artifact
    && s.lane == f.lane && s.path == None && s.line == None && s.subject == f.reason
    && s.claimId == h.summaryClaimId(f) && s.adjudicatingClaimIds == []
    && s.id == "surface-" + h.sha(IdentityText(Fields(Summary, f.lane, "", None, f.reason, f.evidence, "")))
  }

  /** A candidate that was resolved away repeats the comment. */
  predicate CommentResolved(resolved: seq<Candidate>, m: InlineComment) {
    exists c :: c in resolved && c.source == "inline-comment" && c.lane == m.lane && c.path == Some(m.path) && c.line == Some(m.line) && c.claim == m.body
  }

  predicate FindingResolved(resolved: seq<Candidate>, f: SummaryFinding) {
    exists c :: c in resolved && c.source == "summary-only-finding" && c.lane == f.lane && c.claim == f.reason && c.evidence == f.evidence
  }

  datatype Origin = OfComment(n: int) | OfFinding(n: int) | OfFollowUp(n: int)

  /** Where a surface says it comes from. */
  function OriginOf(s: Surface): Origin {
    if s.kind.Inline? then OfComment(s.sourceIndex)
    else if s.sourceArtifact == FOLLOW_UP_FILE then OfFollowUp(s.sourceIndex) else OfFinding(s.sourceIndex)
  }

  /** The comments and findings that were not resolved away, and every follow-up finding. */
  predicate Unresolved(i: Input, o: Origin) {
    match o
    case OfComment(n) => 0 <= n < |i.inlineComments| && !CommentResolved(i.resolvedAway, i.inlineComments[n])
    case OfFinding(n) => 0 <= n < |i.summaryFindings| && !FindingResolved(i.resolvedAway, i.summaryFindings[n])
    case OfFollowUp(n) => 0 <= n < |i.followUpFindings|
  }

  predicate Represents(h: Matcher, i: Input, s: Surface, o: Origin)
    requires Unresolved(i, o)
  {
    match o
    case OfComment(n) => IsOfComment(h, s, i.inlineComments[n])
    case OfFinding(n) => IsOfFinding(h, s, i.summaryFindings[n], REVIEW_FILE)
    case OfFollowUp(n) => IsOfFinding(h, s, i.followUpFindings[n], FOLLOW_UP_FILE)
  }

  /** Comments first, then findings, then follow-up findings, each in order. */
  predicate Before(a: Origin, b: Origin) {
    if a.OfComment? then b.OfComment? ==> a.n < b.n
    else if a.OfFinding? then !b.OfComment? && (b.OfFinding? ==> a.n < b.n)
    else b.OfFollowUp? && a.n < b.n
  }

  ghost predicate Ordered(s: seq<Surface>) { forall j, k :: 0 <= j < k < |s| ==> Before(OriginOf(s[j]), OriginOf(s[k])) }

  /** The surfaces stand for exactly the unresolved origins that satisfy `p`. */
  ghost predicate Covers(h: Matcher, i: Input, s: seq<Surface>, p: Origin -> bool) {
    && (forall x :: x in s ==> p(OriginOf(x)) && Unresolved(i, OriginOf(x)) && Represents(h, i, x, OriginOf(x)))
    && (forall o :: p(o) && Unresolved(i, o) ==> exists x :: x in s && OriginOf(x) == o)
  }

  function CommentsTo(n: nat): Origin -> bool { (o: Origin) => o.OfComment? && o.n < n }
  function FindingsTo(n: nat): Origin -> bool { (o: Origin) => o.OfFinding? && o.n < n }
  function FollowUpsTo(n: nat): Origin -> bool { (o: Origin) => o.OfFollowUp? && o.n < n }

  lemma CoversOneMore(h: Matcher, i: Input, s: seq<Surface>, x: Surface, p: Origin -> bool, q: Origin -> bool)
    requires Covers(h, i, s, p) && forall o :: q(o) <==> p(o) || o == OriginOf(x)
    requires Unresolved(i, OriginOf(x)) && Represents(h, i, x, OriginOf(x))
    ensures Covers(h, i, s + [x], q)
  {
    hide Represents, Unresolved, OriginOf;
    forall o | q(o) && Unresolved(i, o) ensures exists y :: y in s + [x] && OriginOf(y) == o {
      if o == OriginOf(x) {
        assert x in s + [x];
      } else {
        var y :| y in s && OriginOf(y) == o;
        assert y in s + [x];
      }
    }
  }

  lemma CoversNoMore(h: Matcher, i: Input, s: seq<Surface>, o0: Origin, p: Origin -> bool, q: Origin -> bool)
    requires Covers(h, i, s, p) && !Unresolved(i, o0) && forall o :: q(o) <==> p(o) || o == o0
    ensures Covers(h, i, s, q)
  {
    hide Represents, Unresolved, OriginOf;
  }

  lemma CommentIsRepresented(h: Matcher, i: Input, n: nat)
    requires n < |i.inlineComments|
    ensures InlineResolved(i, i.inlineComments[n]) <==> !Unresolved(i, OfComment(n))
    ensures var s := InlineSurface(h, i.inlineComments[n], REVIEW, n);
      OriginOf(s) == OfComment(n) && (Unresolved(i, OfComment(n)) ==> Represents(h, i, s, OfComment(n)))
  {
    hide IdentityText;
  }

  lemma FindingIsRepresented(h: Matcher, i: Input, n: nat)
    requires n < |i.summaryFindings|
    ensures SummaryResolved(i, i.summaryFindings[n]) <==> !Unresolved(i, OfFinding(n))
    ensures var s := SummarySurface(h, i.summaryFindings[n], REVIEW, n);
      OriginOf(s) == OfFinding(n) && (Unresolved(i, OfFinding(n)) ==> Represents(h, i, s, OfFinding(n)))
  {
    hide IdentityText;
  }

  lemma FollowUpIsRepresented(h: Matcher, i: Input, n: nat)
    requires n < |i.followUpFindings|
    ensures var s := SummarySurface(h, i.followUpFindings[n], FOLLOW_UP, n);
      OriginOf(s) == OfFollowUp(n) && Represents(h, i, s, OfFollowUp(n))
  {
    hide IdentityText;
  }

  lemma NothingIsCovered(h: Matcher, i: Input, p: Origin -> bool)
    requires forall o :: p(o) ==> !Unresolved(i, o)
    ensures Covers(h, i, [], p)
  {
    hide Unresolved;
  }

  /** One more surface keeps the order when every earlier origin is before it. */
  lemma OrderedOneMore(h: Matcher, i: Input, s: seq<Surface>, x: Surface, p: Origin -> bool)
    requires Ordered(s) && Covers(h, i, s, p) && forall o :: p(o) && Unresolved(i, o) ==> Before(o, OriginOf(x))
    ensures Ordered(s + [x])
  {
    hide Represents, Unresolved, OriginOf, Before;
  }

  lemma {:induction false} CommentsAreCovered(h: Matcher, i: Input, n: nat)
    requires n <= |i.inlineComments|
    ensures Ordered(InlineInputs(h, i, n)) && Covers(h, i, InlineInputs(h, i, n), CommentsTo(n))
  {
    hide Covers, Represents, InlineSurface, InlineResolved, OriginOf, CommentResolved, FindingResolved;
    if n == 0 {
      NothingIsCovered(h, i, CommentsTo(0));
    } else {
      var s, x := InlineInputs(h, i, n - 1), InlineSurface(h, i.inlineComments[n - 1], REVIEW, n - 1);
      CommentsAreCovered(h, i, n - 1);
      CommentIsRepresented(h, i, n - 1);
      if Unresolved(i, OfComment(n - 1)) {
        CoversOneMore(h, i, s, x, CommentsTo(n - 1), CommentsTo(n));
        OrderedOneMore(h, i, s, x, CommentsTo(n - 1));
      } else {
        CoversNoMore(h, i, s, OfComment(n - 1), CommentsTo(n - 1), CommentsTo(n));
        assert s + [] == s;
      }
    }
  }

  lemma {:induction false} FindingsAreCovered(h: Matcher, i: Input, n: nat)
    requires n <= |i.summaryFindings|
    ensures Ordered(SummaryInputs(h, i, n)) && Covers(h, i, SummaryInputs(h, i, n), FindingsTo(n))
  {
    hide Covers, Represents, SummarySurface, SummaryResolved, OriginOf, CommentResolved, FindingResolved;
    if n == 0 {
      NothingIsCovered(h, i, FindingsTo(0));
    } else {
      var s, x := SummaryInputs(h, i, n - 1), SummarySurface(h, i.summaryFindings[n - 1], REVIEW, n - 1);
      FindingsAreCovered(h, i, n - 1);
      FindingIsRepresented(h, i, n - 1);
      if Unresolved(i, OfFinding(n - 1)) {
        CoversOneMore(h, i, s, x, FindingsTo(n - 1), FindingsTo(n));
        OrderedOneMore(h, i, s, x, FindingsTo(n - 1));
      } else {
        CoversNoMore(h, i, s, OfFinding(n - 1), FindingsTo(n - 1), FindingsTo(n));
        assert s + [] == s;
      }
    }
  }

  lemma {:induction false} FollowUpsAreCovered(h: Matcher, i: Input, n: nat)
    requires n <= |i.followUpFindings|
    ensures Ordered(FollowUpInputs(h, i, n)) && Covers(h, i, FollowUpInputs(h, i, n), FollowUpsTo(n))
  {
    hide Covers, Represents, SummarySurface, OriginOf, CommentResolved, FindingResolved;
    if n == 0 {
      NothingIsCovered(h, i, FollowUpsTo(0));
    } else {
      var s, x := FollowUpInputs(h, i, n - 1), SummarySurface(h, i.followUpFindings[n - 1], FOLLOW_UP, n - 1);
      FollowUpsAreCovered(h, i, n - 1);
      FollowUpIsRepresented(h, i, n - 1);
      CoversOneMore(h, i, s, x, FollowUpsTo(n - 1), FollowUpsTo(n));
      OrderedOneMore(h, i, s, x, FollowUpsTo(n - 1));
    }
  }

  function Anything(): Origin -> bool { (o: Origin) => true }

  lemma CoversBoth(h: Matcher, i: Input, s: seq<Surface>, t: seq<Surface>, p: Origin -> bool, q: Origin -> bool, all: Origin -> bool)
    requires Covers(h, i, s, p) && Covers(h, i, t, q) && Ordered(s) && Ordered(t)
    requires forall o :: Unresolved(i, o) ==> (all(o) <==> p(o) || q(o))
    requires forall o, o' :: p(o) && q(o') && Unresolved(i, o) && Unresolved(i, o') ==> Before(o, o')
    ensures Covers(h, i, s + t, all) && Ordered(s + t)
  {
    hide Represents, Unresolved, OriginOf, Before;
    forall o | all(o) && Unresolved(i, o) ensures exists x :: x in s + t && OriginOf(x) == o {
      if p(o) {
        var x :| x in s && OriginOf(x) == o;
        assert x in s + t;
      } else {
        var x :| x in t && OriginOf(x) == o;
        assert x in s + t;
      }
    }
    forall j, k | 0 <= j < k < |s + t| ensures Before(OriginOf((s + t)[j]), OriginOf((s + t)[k])) {
      if j < |s| <= k { assert s[j] in s && t[k - |s|] in t; }
    }
  }

  function ReviewedTo(m: nat, n: nat): Origin -> bool { (o: Origin) => (o.OfComment? && o.n < m) || (o.OfFinding? && o.n < n) }

  /** The input surfaces stand for exactly the unresolved comments and findings, in order, and nothing else. */
  lemma InputsAreTheSources(h: Matcher, i: Input)
    ensures Ordered(Inputs(h, i)) && Covers(h, i, Inputs(h, i), Anything())
  {
    hide Covers, Ordered, Represents, OriginOf, CommentResolved, FindingResolved, InlineInputs, SummaryInputs, FollowUpInputs;
    var a, b, c := |i.inlineComments|, |i.summaryFindings|, |i.followUpFindings|;
    CommentsAreCovered(h, i, a);
    FindingsAreCovered(h, i, b);
    FollowUpsAreCovered(h, i, c);
    CoversBoth(h, i, InlineInputs(h, i, a), SummaryInputs(h, i, b), CommentsTo(a), FindingsTo(b), ReviewedTo(a, b));
    CoversBoth(h, i, InlineInputs(h, i, a) + SummaryInputs(h, i, b), FollowUpInputs(h, i, c), ReviewedTo(a, b), FollowUpsTo(c), Anything());
  }

  // ------------------------------------------------------- on the receipt

  /** The surfaces of a receipt, as they came in. */
  function Accounted(r: Receipt): seq<Surface> { r.retained + RestoredAll(r.removed) }

  function From(s: seq<Surface>, o: Origin): seq<Surface> { Filter((x: Surface) => OriginOf(x) == o, s) }

  lemma {:induction false} SoleMatch(s: seq<Surface>, o: Origin, x: Surface)
    requires OriginOf(x) == o && forall y :: y in s && OriginOf(y) == o ==> y == x
    ensures |From(s, o)| == multiset(s)[x]
  {
    hide OriginOf;
    if s != [] {
      assert s == [s[0]] + s[1..];
      SoleMatch(s[1..], o, x);
    }
  }

  lemma BeforeIsStrict(s: seq<Surface>, x: Surface, y: Surface)
    requires Ordered(s) && x in s && y in s && OriginOf(x) == OriginOf(y)
    ensures x == y
  {
    hide OriginOf;
    var j, k :| 0 <= j < |s| && s[j] == x && 0 <= k < |s| && s[k] == y;
    assert j < k ==> Before(OriginOf(x), OriginOf(y));
    assert k < j ==> Before(OriginOf(y), OriginOf(x));
  }

  lemma OrderedIsDistinct(s: seq<Surface>)
    requires Ordered(s)
    ensures Distinct(s)
  {
    hide OriginOf;
  }

  /** No comment or finding is lost, invented or counted twice. On success each inline comment, summary finding and follow-up
      finding that was not resolved away has exactly one surface, retained or removed, with its own text, place, lane and
      identity; a resolved one has none; and there are no other surfaces. */
  lemma EveryFindingIsAccountedOnce(h: Matcher, i: Input)
    requires Build(h, i).Some?
    ensures var all := Accounted(Build(h, i).value);
      && (forall o :: |From(all, o)| == if Unresolved(i, o) then 1 else 0)
      && (forall s :: s in all ==> Unresolved(i, OriginOf(s)) && Represents(h, i, s, OriginOf(s)))
  {
    hide Represents, Unresolved, OriginOf, Build, Inputs, FinalKeys, Ordered;
    var r := Build(h, i).value;
    var all := Accounted(r);
    SurfacesAreConserved(h, i);
    InputsAreTheSources(h, i);
    assert multiset(all) == multiset(r.inputs);
    assert forall s :: s in all <==> s in multiset(all);
    assert forall s :: s in r.inputs <==> s in multiset(r.inputs);
    OrderedIsDistinct(r.inputs);
    forall o ensures |From(all, o)| == if Unresolved(i, o) then 1 else 0 {
      if Unresolved(i, o) {
        var x :| x in r.inputs && OriginOf(x) == o;
        forall y | y in all && OriginOf(y) == o ensures y == x { BeforeIsStrict(r.inputs, x, y); }
        SoleMatch(all, o, x);
        DistinctCounts(r.inputs, x);
      } else {
        FilterKeepsNone((x: Surface) => OriginOf(x) == o, all);
      }
    }
  }

  // -------------------------------------------------------------- publication

  ghost predicate Injective(sha: string -> string) { forall x, y :: sha(x) == sha(y) ==> x == y }

  /** Two comments that read the same to the public. */
  predicate SameComment(a: InlineComment, b: InlineComment) {
    && a.lane == b.lane && a.path == b.path && a.line == b.line && a.body == b.body && a.evidence == b.evidence
    && (if a.suggestion.None? then "" else a.suggestion.value) == (if b.suggestion.None? then "" else b.suggestion.value)
  }

  predicate SameFinding(a: SummaryFinding, b: SummaryFinding) { a.lane == b.lane && a.reason == b.reason && a.evidence == b.evidence }

  lemma SameIdSameFields(h: Matcher, f: Fields, g: Fields)
    requires Injective(h.sha) && "surface-" + h.sha(IdentityText(f)) == "surface-" + h.sha(IdentityText(g))
    ensures f == g
  {
    hide IdentityText;
    PrefixCancels("surface-", h.sha(IdentityText(f)), h.sha(IdentityText(g)));
    IdentityIsInjective(f, g);
  }

  /** The retained surfaces are what is published, one for each comment and finding, in order; and each stands for an
      unresolved comment or finding that reads the same, so nothing is published that did not come in. */
  lemma PublishedComment(h: Matcher, i: Input, n: nat) returns (k: nat)
    requires Injective(h.sha) && Build(h, i).Some? && n < |i.finalInline|
    ensures var all := Build(h, i).value.retained;
      && |all| == |i.finalInline| + |i.finalSummary| && OriginOf(all[n]) == OfComment(k)
    ensures Unresolved(i, OfComment(k)) && SameComment(i.inlineComments[k], i.finalInline[n])
  {
    hide Build, Inputs, IdentityText;
    var x := RetainedAs(h, i, n);
    assert FinalKeys(h, i)[n] == (SurfaceId(h, InlineFields(i.finalInline[n])), Inline);
    k := x.sourceIndex;
    var m := i.inlineComments[k];
    SameIdSameFields(h, InlineFields(i.finalInline[n]),
      Fields(Inline, m.lane, m.path, Some(m.line), m.body, m.evidence, if m.suggestion.None? then "" else m.suggestion.value));
  }

  lemma PublishedFinding(h: Matcher, i: Input, n: nat) returns (o: Origin, f: SummaryFinding)
    requires Injective(h.sha) && Build(h, i).Some? && n < |i.finalSummary|
    ensures var all := Build(h, i).value.retained;
      && |all| == |i.finalInline| + |i.finalSummary| && OriginOf(all[|i.finalInline| + n]) == o
    ensures Unresolved(i, o) && !o.OfComment? && f == (if o.OfFinding? then i.summaryFindings[o.n] else i.followUpFindings[o.n])
    ensures SameFinding(f, i.finalSummary[n])
  {
    hide Build, Inputs, IdentityText;
    var x := RetainedAs(h, i, |i.finalInline| + n);
    assert FinalKeys(h, i)[|i.finalInline| + n] == (SurfaceId(h, SummaryFields(i.finalSummary[n])), Summary);
    o := OriginOf(x);
    f := if o.OfFinding? then i.summaryFindings[o.n] else i.followUpFindings[o.n];
    SameIdSameFields(h, SummaryFields(i.finalSummary[n]), Fields(Summary, f.lane, "", None, f.reason, f.evidence, ""));
  }

  lemma RetainedAs(h: Matcher, i: Input, n: nat) returns (x: Surface)
    requires Build(h, i).Some? && n < |i.finalInline| + |i.finalSummary|
    ensures |Build(h, i).value.retained| == |i.finalInline| + |i.finalSummary| && x == Build(h, i).value.retained[n]
    ensures |FinalKeys(h, i)| == |i.finalInline| + |i.finalSummary| && KeyOf(x) == FinalKeys(h, i)[n]
    ensures Unresolved(i, OriginOf(x)) && Represents(h, i, x, OriginOf(x))
  {
    hide Build, Inputs, Represents, Unresolved, OriginOf;
    SurfacesAreConserved(h, i);
    EveryFindingIsAccountedOnce(h, i);
    x := Build(h, i).value.retained[n];
    assert x in Accounted(Build(h, i).value);
  }

  // ------------------------------------------------------- why it was removed

  predicate SamePlace(t: ClaimGraph.Topic, s: Surface) {
    (s.kind == Inline ==> t.path == s.path && t.anchor == s.line) && (s.kind == Summary ==> t.sourceLane == s.lane)
  }

  predicate SameMatter(h: Matcher, t: ClaimGraph.Topic, s: Surface) { t.claimId == s.claimId || h.overlap(t.subject, s.subject) }

  /** The claim of a topic about this surface lost a conflict on record. */
  predicate RefutedBy(h: Matcher, g: ClaimGraph.Graph, s: Surface, id: string) {
    && (exists t :: t in g.topics && t.claimId == id && SamePlace(t, s) && SameMatter(h, t, s))
    && exists c :: c in g.conflicts && c.loser == Some(id)
  }

  /** A topic about this surface that lost no conflict has threads at the current head. */
  predicate ThreadedBy(h: Matcher, g: ClaimGraph.Graph, s: Surface, id: string) {
    && (exists t :: t in g.topics && t.claimId == id && SamePlace(t, s) && SameMatter(h, t, s) && t.existingThreads != [])
    && forall c :: c in g.conflicts ==> c.loser != Some(id)
  }

  /** A retained inline comment makes the same public claim. */
  predicate RepeatedBy(h: Matcher, s: Surface, x: Surface) {
    s.kind == Summary && x.kind == Inline && h.samePublicClaim(x.subject, x.lane, s.subject, s.lane)
  }

  predicate RepeatedAt(h: Matcher, retained: seq<Surface>, s: Surface, k: int) {
    0 <= k < |retained| && forall j :: 0 <= j < |retained| ==> (RepeatedBy(h, s, retained[j]) <==> j == k)
  }

  ghost predicate RepeatedOnce(h: Matcher, retained: seq<Surface>, s: Surface) { exists k :: RepeatedAt(h, retained, s, k) }

  /** The reason given is the first that applies, and what it cites is exactly what makes it apply. */
  ghost predicate Justified(h: Matcher, g: ClaimGraph.Graph, retained: seq<Surface>, s: Surface, e: Explanation) {
    if exists id :: RefutedBy(h, g, s, id) then
      && e.disposition == RefutedByStrongerEvidence && (forall id :: id in e.claims <==> RefutedBy(h, g, s, id))
      && (forall r :: r in e.evidence <==> RefutationCited(g, e.claims, r))
    else if exists id :: ThreadedBy(h, g, s, id) then
      && e.disposition == CoveredByCurrentHeadThread && (forall id :: id in e.claims <==> ThreadedBy(h, g, s, id))
      && (forall r :: r in e.evidence <==> ThreadCited(g, e.claims, r))
    else if RepeatedOnce(h, retained, s) then
      && e.disposition == DuplicateCrossSurface
      && (exists x :: x in retained && RepeatedBy(h, s, x) && e.claims == [x.claimId] && e.evidence == [ClaimRef(x.claimId)])
    else
      && e.disposition == DuplicateIdentical && e.claims == [s.claimId] && e.evidence == [ClaimRef(s.claimId)]
      && exists x :: x in retained && x.id == s.id && x.kind == s.kind
  }

  predicate RefutationCited(g: ClaimGraph.Graph, claims: seq<string>, r: EvidenceRef) {
    || (r.ClaimRef? && r.id in claims)
    || (r.ConflictRef? && r.index < |g.conflicts| && g.conflicts[r.index].loser.Some? && g.conflicts[r.index].loser.value in claims)
  }

  predicate ThreadCited(g: ClaimGraph.Graph, claims: seq<string>, r: EvidenceRef) {
    r.ThreadRef? && exists t :: t in g.topics && t.claimId in claims && r.id in t.existingThreads
  }

  lemma LosersAreRefuted(h: Matcher, g: ClaimGraph.Graph, s: Surface)
    ensures forall id :: id in ClaimIds(LosingTopics(h, g, s)) <==> RefutedBy(h, g, s, id)
  {
    var losers := LosingTopics(h, g, s);
    forall id ensures id in ClaimIds(losers) <==> RefutedBy(h, g, s, id) {
      if id in ClaimIds(losers) {
        var k :| 0 <= k < |losers| && ClaimIds(losers)[k] == id;
        assert losers[k] in losers;
      }
      if RefutedBy(h, g, s, id) {
        var t :| t in g.topics && t.claimId == id && SamePlace(t, s) && SameMatter(h, t, s);
        assert t in losers;
        var k :| 0 <= k < |losers| && losers[k] == t;
        assert ClaimIds(losers)[k] == id;
      }
    }
  }

  lemma ThreadsAreCovering(h: Matcher, g: ClaimGraph.Graph, s: Surface)
    ensures forall id :: id in ClaimIds(ThreadTopics(h, g, s)) <==> ThreadedBy(h, g, s, id)
  {
    var topics := ThreadTopics(h, g, s);
    forall id ensures id in ClaimIds(topics) <==> ThreadedBy(h, g, s, id) {
      if id in ClaimIds(topics) {
        var k :| 0 <= k < |topics| && ClaimIds(topics)[k] == id;
        assert topics[k] in topics;
      }
      if ThreadedBy(h, g, s, id) {
        var t :| t in g.topics && t.claimId == id && SamePlace(t, s) && SameMatter(h, t, s) && t.existingThreads != [];
        assert t in topics;
        var k :| 0 <= k < |topics| && topics[k] == t;
        assert ClaimIds(topics)[k] == id;
      }
    }
  }

  lemma {:induction false} ThreadsOfMeans(topics: seq<ClaimGraph.Topic>, claim: string)
    ensures forall r :: r in ThreadsOf(topics, claim) <==>
      r.ThreadRef? && exists t :: t in topics && t.claimId == claim && r.id in t.existingThreads
  {
    if topics != [] { ThreadsOfMeans(topics[1..], claim); }
  }

  lemma {:induction false} ThreadRefsMean(g: ClaimGraph.Graph, claims: seq<string>)
    ensures forall r :: r in ThreadRefs(g.topics, claims) <==> ThreadCited(g, claims, r)
  {
    if claims != [] {
      ThreadsOfMeans(g.topics, claims[0]);
      ThreadRefsMean(g, claims[1..]);
    }
  }

  lemma SoleRepeat(h: Matcher, retained: seq<Surface>, s: Surface)
    requires s.kind == Summary
    ensures |SamePublicInline(h, retained, s)| == 1 <==> RepeatedOnce(h, retained, s)
    ensures forall k :: RepeatedAt(h, retained, s, k) ==> SamePublicInline(h, retained, s) == [retained[k]]
  {
    var p := (r: Surface) => r.kind.Inline? && h.samePublicClaim(r.subject, r.lane, s.subject, s.lane);
    forall k | RepeatedAt(h, retained, s, k) ensures SamePublicInline(h, retained, s) == [retained[k]] { FilterKeepsOne(p, retained, k); }
    if |SamePublicInline(h, retained, s)| == 1 {
      var k := FilterFindsOne(p, retained);
      assert RepeatedAt(h, retained, s, k);
    }
  }

  lemma ExplanationIsJustified(h: Matcher, s: Surface, retained: seq<Surface>, g: ClaimGraph.Graph)
    requires Explain(h, s, retained, g).Some?
    ensures Justified(h, g, retained, s, Explain(h, s, retained, g).value)
  {
    hide RefutedBy, ThreadedBy, RepeatedOnce, LosingTopics, ThreadTopics, SamePublicInline, ThreadRefs;
    LosersAreRefuted(h, g, s);
    ThreadsAreCovering(h, g, s);
    var losers, threads := ClaimIds(LosingTopics(h, g, s)), ClaimIds(ThreadTopics(h, g, s));
    if losers != [] {
      assert losers[0] in losers;
      forall r ensures r in ClaimRefs(losers) + ConflictRefs(g.conflicts, losers, |g.conflicts|) <==> RefutationCited(g, losers, r) {
        ClaimRefsMean(losers, r);
      }
    } else if threads != [] {
      assert threads[0] in threads;
      ThreadRefsMean(g, threads);
    } else {
      DuplicateIsJustified(h, s, retained, g);
    }
  }

  lemma DuplicateIsJustified(h: Matcher, s: Surface, retained: seq<Surface>, g: ClaimGraph.Graph)
    requires Explain(h, s, retained, g).Some? && LosingTopics(h, g, s) == [] == ThreadTopics(h, g, s)
    ensures var e := Explain(h, s, retained, g).value;
      if RepeatedOnce(h, retained, s) then
        && e.disposition == DuplicateCrossSurface
        && (exists x :: x in retained && RepeatedBy(h, s, x) && e.claims == [x.claimId] && e.evidence == [ClaimRef(x.claimId)])
      else
        && e.disposition == DuplicateIdentical && e.claims == [s.claimId] && e.evidence == [ClaimRef(s.claimId)]
        && exists x :: x in retained && x.id == s.id && x.kind == s.kind
  {
    hide LosingTopics, ThreadTopics, SamePublicInline;
    NotSummaryNotRepeated(h, retained, s);
    if s.kind == Summary { SoleRepeat(h, retained, s); }
    if RepeatedOnce(h, retained, s) {
      var k :| RepeatedAt(h, retained, s, k);
      assert RepeatedBy(h, s, retained[k]) && retained[k] in retained;
    }
  }

  lemma ClaimRefsMean(claims: seq<string>, r: EvidenceRef)
    ensures r in ClaimRefs(claims) <==> r.ClaimRef? && r.id in claims
  {
    if r.ClaimRef? && r.id in claims {
      var k :| 0 <= k < |claims| && claims[k] == r.id;
      assert ClaimRefs(claims)[k] == r;
    }
  }

  lemma NotSummaryNotRepeated(h: Matcher, retained: seq<Surface>, s: Surface)
    ensures RepeatedOnce(h, retained, s) ==> s.kind == Summary
  {
    if RepeatedOnce(h, retained, s) {
      var k :| RepeatedAt(h, retained, s, k);
      assert RepeatedBy(h, s, retained[k]);
    }
  }

  /** On success every removed surface carries the first reason that holds of it. */
  lemma RemovalIsJustified(h: Matcher, i: Input, n: nat)
    requires Build(h, i).Some? && n < |Build(h, i).value.removed|
    ensures var r := Build(h, i).value;
      var x := r.removed[n];
      Justified(h, i.graph, r.retained, Restored(x), Explanation(x.disposition, x.surface.adjudicatingClaimIds, x.evidence))
  {
    hide Explain, Justified, Inputs, FinalKeys, Represents, Unresolved;
    var r := Build(h, i).value;
    var kept := Retain(Inputs(h, i), FinalKeys(h, i), []);
    ExplainedSurfaces(h, kept.available, kept.retained, i.graph);
    var left := RemovedAreLeftovers(h, i);
    ExplanationIsJustified(h, left[n], r.retained, i.graph);
  }
}
