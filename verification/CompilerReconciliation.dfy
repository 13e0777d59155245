/** Accounting for the final compiler's public surfaces (`src/compiler_reconciliation.rs`): every input surface is
    either retained or removed with a receipt, or the review publishes nothing. */
module CompilerReconciliation {
  import opened Collections
  import opened ReviewSurfaces
  import opened SurfaceIdentity
  import ClaimGraph

  /** Helpers of other modules: the SHA-256 hex digest, subject and public-claim comparison, and
      structural claim identities. */
  datatype Matcher = Matcher(
    sha: string -> string,
    overlap: (string, string) -> bool,
    samePublicClaim: (string, string, string, string) -> bool,
    inlineClaimId: InlineComment -> string,
    summaryClaimId: SummaryFinding -> string)

  datatype Surface = Surface(
    id: string, kind: Kind, sourceArtifact: string, sourceIndex: nat, claimId: string, lane: string, subject: string,
    path: Option<string>, line: Option<nat>, adjudicatingClaimIds: seq<string>)

  type Key = (string, Kind)

  function KeyOf(s: Surface): Key { (s.id, s.kind) }

  function OrEmpty(o: Option<string>): string { if o.Some? then o.value else "" }

  function InlineFields(m: InlineComment): Fields {
    Fields(Inline, m.lane, m.path, Some(m.line), m.body, m.evidence, OrEmpty(m.suggestion))
  }

  function SummaryFields(f: SummaryFinding): Fields { Fields(Summary, f.lane, "", None, f.reason, f.evidence, "") }

  function SurfaceId(h: Matcher, f: Fields): string { "surface-" + h.sha(IdentityText(f)) }

  function InlineSurface(h: Matcher, m: InlineComment, artifact: string, index: nat): Surface {
    Surface(SurfaceId(h, InlineFields(m)), Inline, artifact, index, h.inlineClaimId(m), m.lane, m.body, Some(m.path), Some(m.line), [])
  }

  function SummarySurface(h: Matcher, f: SummaryFinding, artifact: string, index: nat): Surface {
    Surface(SurfaceId(h, SummaryFields(f)), Summary, artifact, index, h.summaryClaimId(f), f.lane, f.reason, None, None, [])
  }

  /** Comments with the same surface id are the same publicly, apart from their severity, confidence and
      side, and an empty suggestion that reads as none. */
  lemma InlineIdsCollide(h: Matcher, a: InlineComment, b: InlineComment)
    requires forall x, y :: h.sha(x) == h.sha(y) ==> x == y
    ensures SurfaceId(h, InlineFields(a)) == SurfaceId(h, InlineFields(b)) <==>
      && a.lane == b.lane && a.path == b.path && a.line == b.line && a.body == b.body && a.evidence == b.evidence
      && OrEmpty(a.suggestion) == OrEmpty(b.suggestion)
  {
    IdentityIsInjective(InlineFields(a), InlineFields(b));
    PrefixCancels("surface-", h.sha(IdentityText(InlineFields(a))), h.sha(IdentityText(InlineFields(b))));
  }

  lemma PrefixCancels(p: string, x: string, y: string)
    ensures p + x == p + y <==> x == y
  {
    assert (p + x)[|p|..] == x && (p + y)[|p|..] == y;
  }

  // ----------------------------------------------------------- input surfaces

  datatype Input = Input(
    inlineComments: seq<InlineComment>, summaryFindings: seq<SummaryFinding>, followUpFindings: seq<SummaryFinding>,
    resolvedAway: seq<Candidate>, finalInline: seq<InlineComment>, finalSummary: seq<SummaryFinding>,
    graph: ClaimGraph.Graph)

  const REVIEW := "review/review.json"
  const FOLLOW_UP := "review/follow_up_evidence.json"

  predicate InlineResolved(i: Input, m: InlineComment) { exists c :: c in i.resolvedAway && MatchesInline(c, m) }

  predicate SummaryResolved(i: Input, f: SummaryFinding) { exists c :: c in i.resolvedAway && MatchesSummary(c, f) }

  /** The surfaces of the first `n` inline comments that were not resolved away. */
  function InlineInputs(h: Matcher, i: Input, n: nat): seq<Surface>
    requires n <= |i.inlineComments|
  {
    if n == 0 then []
    else
      var m := i.inlineComments[n - 1];
      InlineInputs(h, i, n - 1) + if InlineResolved(i, m) then [] else [InlineSurface(h, m, REVIEW, n - 1)]
  }

  function SummaryInputs(h: Matcher, i: Input, n: nat): seq<Surface>
    requires n <= |i.summaryFindings|
  {
    if n == 0 then []
    else
      var f := i.summaryFindings[n - 1];
      SummaryInputs(h, i, n - 1) + if SummaryResolved(i, f) then [] else [SummarySurface(h, f, REVIEW, n - 1)]
  }

  function FollowUpInputs(h: Matcher, i: Input, n: nat): seq<Surface>
    requires n <= |i.followUpFindings|
  {
    if n == 0 then [] else FollowUpInputs(h, i, n - 1) + [SummarySurface(h, i.followUpFindings[n - 1], FOLLOW_UP, n - 1)]
  }

  function Inputs(h: Matcher, i: Input): seq<Surface> {
    InlineInputs(h, i, |i.inlineComments|) + SummaryInputs(h, i, |i.summaryFindings|) + FollowUpInputs(h, i, |i.followUpFindings|)
  }

  function FinalKeys(h: Matcher, i: Input): seq<Key> {
    seq(|i.finalInline|, n requires 0 <= n < |i.finalInline| => (SurfaceId(h, InlineFields(i.finalInline[n])), Inline))
    + seq(|i.finalSummary|, n requires 0 <= n < |i.finalSummary| => (SurfaceId(h, SummaryFields(i.finalSummary[n])), Summary))
  }

  /** `input_surfaces`: three loops push the surfaces in order. */
  method CollectInputs(h: Matcher, i: Input) returns (surfaces: seq<Surface>)
    ensures surfaces == Inputs(h, i)
  {
    hide InlineResolved, InlineSurface, SummaryResolved, SummarySurface;
    surfaces := [];
    for n := 0 to |i.inlineComments|
      invariant surfaces == InlineInputs(h, i, n)
    {
      if !InlineResolved(i, i.inlineComments[n]) {
        surfaces := surfaces + [InlineSurface(h, i.inlineComments[n], REVIEW, n)];
      }
    }
    ghost var inlines := surfaces;
    for n := 0 to |i.summaryFindings|
      invariant surfaces == inlines + SummaryInputs(h, i, n)
    {
      if !SummaryResolved(i, i.summaryFindings[n]) {
        surfaces := surfaces + [SummarySurface(h, i.summaryFindings[n], REVIEW, n)];
      }
    }
    ghost var reviewed := surfaces;
    for n := 0 to |i.followUpFindings|
      invariant surfaces == reviewed + FollowUpInputs(h, i, n)
    {
      surfaces := surfaces + [SummarySurface(h, i.followUpFindings[n], FOLLOW_UP, n)];
    }
  }

  // ---------------------------------------------------------------- retention

  /** The first position that carries the key, or the length. */
  function Position(surfaces: seq<Surface>, k: Key): (p: nat)
    ensures p <= |surfaces|
    ensures p < |surfaces| ==> KeyOf(surfaces[p]) == k
    ensures forall j :: 0 <= j < p ==> KeyOf(surfaces[j]) != k
  {
    if surfaces == [] then 0 else if KeyOf(surfaces[0]) == k then 0 else 1 + Position(surfaces[1..], k)
  }

  function Without(surfaces: seq<Surface>, p: nat): seq<Surface>
    requires p < |surfaces|
  {
    surfaces[..p] + surfaces[p + 1..]
  }

  datatype Retention = Kept(retained: seq<Surface>, available: seq<Surface>) | Unknown

  /** Each final key takes the first available surface that carries it. */
  function Retain(available: seq<Surface>, finals: seq<Key>, retained: seq<Surface>): Retention
    decreases |finals|
  {
    if finals == [] then Kept(retained, available)
    else
      var p := Position(available, finals[0]);
      if p == |available| then Unknown else Retain(Without(available, p), finals[1..], retained + [available[p]])
  }

  function OfKey(k: Key, surfaces: seq<Surface>): seq<Surface> { Filter((s: Surface) => KeyOf(s) == k, surfaces) }

  lemma {:induction false} NoneOfKey(k: Key, surfaces: seq<Surface>)
    requires forall s :: s in surfaces ==> KeyOf(s) != k
    ensures OfKey(k, surfaces) == []
  {
    if surfaces != [] { NoneOfKey(k, surfaces[1..]); }
  }

  lemma OfKeyAppend(k: Key, a: seq<Surface>, b: seq<Surface>)
    ensures OfKey(k, a + b) == OfKey(k, a) + OfKey(k, b)
  {
    FilterAppend((s: Surface) => KeyOf(s) == k, a, b);
  }

  lemma OfOne(k: Key, s: Surface)
    ensures OfKey(k, [s]) == if KeyOf(s) == k then [s] else []
  {
  }

  /** Taking the first surface of its key splits off the head of that key's surfaces and no other. */
  lemma TakingFirst(k: Key, available: seq<Surface>, p: nat)
    requires p < |available| && forall j :: 0 <= j < p ==> KeyOf(available[j]) != KeyOf(available[p])
    ensures OfKey(k, available) == OfKey(k, [available[p]]) + OfKey(k, Without(available, p))
  {
    hide KeyOf, OfKey;
    var s := available[p];
    assert available == available[..p] + ([s] + available[p + 1..]);
    OfKeyAppend(k, available[..p], [s] + available[p + 1..]);
    OfKeyAppend(k, [s], available[p + 1..]);
    OfKeyAppend(k, available[..p], available[p + 1..]);
    OfOne(k, s);
    var before, own, after := OfKey(k, available[..p]), OfKey(k, [s]), OfKey(k, available[p + 1..]);
    if KeyOf(s) == k {
      NoneOfKey(k, available[..p]);
      assert before + (own + after) == own + (before + after);
    } else {
      assert own == [] && before + (own + after) == own + (before + after);
    }
  }

  /** Retention splits the surfaces of every key into a retained prefix and an available rest. */
  lemma {:induction false} RetentionSplits(available: seq<Surface>, finals: seq<Key>, retained: seq<Surface>, k: Key)
    ensures var r := Retain(available, finals, retained);
      r.Kept? ==> OfKey(k, r.retained) + OfKey(k, r.available) == OfKey(k, retained) + OfKey(k, available)
    decreases |finals|
  {
    if finals != [] {
      var p := Position(available, finals[0]);
      if p < |available| {
        RetentionSplits(Without(available, p), finals[1..], retained + [available[p]], k);
        TakingFirst(k, available, p);
        OfKeyAppend(k, retained, [available[p]]);
      }
    }
  }

  lemma {:induction false} RetainedKeys(available: seq<Surface>, finals: seq<Key>, retained: seq<Surface>)
    ensures var r := Retain(available, finals, retained);
      r.Kept? ==> (
        && |r.retained| == |retained| + |finals| && r.retained[..|retained|] == retained
        && forall n :: 0 <= n < |finals| ==> KeyOf(r.retained[|retained| + n]) == finals[n])
    decreases |finals|
  {
    if finals != [] {
      var p := Position(available, finals[0]);
      if p < |available| {
        var next := retained + [available[p]];
        RetainedKeys(Without(available, p), finals[1..], next);
        var r := Retain(available, finals, retained);
        if r.Kept? {
          assert r.retained[..|retained|] == r.retained[..|next|][..|retained|];
          assert r.retained[|retained|] == r.retained[..|next|][|retained|];
          forall n | 0 <= n < |finals| ensures KeyOf(r.retained[|retained| + n]) == finals[n] {
            if n > 0 { assert KeyOf(r.retained[|next| + (n - 1)]) == finals[1..][n - 1]; }
          }
        }
      }
    }
  }

  /** Retention loses no surface. */
  lemma {:induction false} RetentionConserves(available: seq<Surface>, finals: seq<Key>, retained: seq<Surface>)
    ensures var r := Retain(available, finals, retained);
      r.Kept? ==> multiset(r.retained) + multiset(r.available) == multiset(retained) + multiset(available)
    decreases |finals|
  {
    if finals != [] {
      var p := Position(available, finals[0]);
      if p < |available| {
        RetentionConserves(Without(available, p), finals[1..], retained + [available[p]]);
        assert available == available[..p] + [available[p]] + available[p + 1..];
      }
    }
  }

  function CountKey(k: Key, keys: seq<Key>): nat { multiset(keys)[k] }

  /** Retention succeeds exactly when no key is published more often than it came in. */
  lemma {:induction false} RetentionSucceeds(available: seq<Surface>, finals: seq<Key>, retained: seq<Surface>)
    ensures Retain(available, finals, retained).Kept? <==> forall k :: CountKey(k, finals) <= |OfKey(k, available)|
    decreases |finals|
  {
    if finals != [] {
      var k0, rest := finals[0], finals[1..];
      assert finals == [k0] + rest;
      var p := Position(available, k0);
      if p == |available| {
        assert OfKey(k0, available) == [] by {
          forall s | s in available ensures KeyOf(s) != k0 {
            var j :| 0 <= j < |available| && available[j] == s;
          }
          NoneOfKey(k0, available);
        }
        assert CountKey(k0, finals) >= 1;
      } else {
        RetentionSucceeds(Without(available, p), rest, retained + [available[p]]);
        forall k
          ensures |OfKey(k, available)| - CountKey(k, finals) == |OfKey(k, Without(available, p))| - CountKey(k, rest)
        {
          TakingFirst(k, available, p);
          assert [available[p]][1..] == [];
        }
      }
    }
  }

  // ------------------------------------------------------------ explanations

  datatype Disposition = RefutedByStrongerEvidence | CoveredByCurrentHeadThread | DuplicateCrossSurface | DuplicateIdentical

  datatype EvidenceRef = ClaimRef(id: string) | ConflictRef(index: nat) | ThreadRef(id: string)

  datatype Explanation = Explanation(disposition: Disposition, claims: seq<string>, evidence: seq<EvidenceRef>)

  predicate Loser(g: ClaimGraph.Graph, t: ClaimGraph.Topic) { ClaimGraph.Defeated(g.conflicts, t.claimId) }

  /** The topic is about this surface: same place for inline, same lane for summary, and the same claim
      or overlapping subjects. */
  predicate About(h: Matcher, t: ClaimGraph.Topic, s: Surface) {
    && (if s.kind.Inline? then t.path == s.path && t.anchor == s.line else t.sourceLane == s.lane)
    && (t.claimId == s.claimId || h.overlap(t.subject, s.subject))
  }

  function ClaimIds(topics: seq<ClaimGraph.Topic>): (r: seq<string>)
    ensures |r| == |topics| && forall n :: 0 <= n < |r| ==> r[n] == topics[n].claimId
  {
    seq(|topics|, n requires 0 <= n < |topics| => topics[n].claimId)
  }

  function LosingTopics(h: Matcher, g: ClaimGraph.Graph, s: Surface): seq<ClaimGraph.Topic> {
    Filter((t: ClaimGraph.Topic) => Loser(g, t) && About(h, t, s), g.topics)
  }

  function ThreadTopics(h: Matcher, g: ClaimGraph.Graph, s: Surface): seq<ClaimGraph.Topic> {
    Filter((t: ClaimGraph.Topic) => !Loser(g, t) && t.existingThreads != [] && About(h, t, s), g.topics)
  }

  function SamePublicInline(h: Matcher, retained: seq<Surface>, s: Surface): seq<Surface> {
    Filter((r: Surface) => r.kind.Inline? && h.samePublicClaim(r.subject, r.lane, s.subject, s.lane), retained)
  }

  /** References to the conflicts, by index, whose loser is among the claims. */
  function ConflictRefs(conflicts: seq<ClaimGraph.Conflict>, claims: seq<string>, n: nat): (r: seq<EvidenceRef>)
    requires n <= |conflicts|
    ensures forall e :: e in r ==> e.ConflictRef? && e.index < n && conflicts[e.index].loser.Some? && conflicts[e.index].loser.value in claims
    ensures forall k: nat :: k < n && conflicts[k].loser.Some? && conflicts[k].loser.value in claims ==> ConflictRef(k) in r
  {
    if n == 0 then []
    else
      ConflictRefs(conflicts, claims, n - 1)
      + if conflicts[n - 1].loser.Some? && conflicts[n - 1].loser.value in claims then [ConflictRef(n - 1)] else []
  }

  function ClaimRefs(claims: seq<string>): seq<EvidenceRef> {
    seq(|claims|, n requires 0 <= n < |claims| => ClaimRef(claims[n]))
  }

  function ThreadRefs(topics: seq<ClaimGraph.Topic>, claims: seq<string>): seq<EvidenceRef> {
    if claims == [] then [] else ThreadsOf(topics, claims[0]) + ThreadRefs(topics, claims[1..])
  }

  function ThreadsOf(topics: seq<ClaimGraph.Topic>, claim: string): seq<EvidenceRef> {
    if topics == [] then []
    else
      (if topics[0].claimId == claim
       then seq(|topics[0].existingThreads|, n requires 0 <= n < |topics[0].existingThreads| => ThreadRef(topics[0].existingThreads[n]))
       else [])
      + ThreadsOf(topics[1..], claim)
  }

  /** `removal_explanation`, in its order of preference. */
  function Explain(h: Matcher, s: Surface, retained: seq<Surface>, g: ClaimGraph.Graph): Option<Explanation> {
    var losers, threads, inlines := LosingTopics(h, g, s), ThreadTopics(h, g, s), SamePublicInline(h, retained, s);
    if losers != [] then
      var claims := ClaimIds(losers);
      Some(Explanation(RefutedByStrongerEvidence, claims, ClaimRefs(claims) + ConflictRefs(g.conflicts, claims, |g.conflicts|)))
    else if threads != [] then
      var claims := ClaimIds(threads);
      Some(Explanation(CoveredByCurrentHeadThread, claims, ThreadRefs(g.topics, claims)))
    else if s.kind.Summary? && |inlines| == 1 then
      Some(Explanation(DuplicateCrossSurface, [inlines[0].claimId], [ClaimRef(inlines[0].claimId)]))
    else if exists r :: r in retained && KeyOf(r) == KeyOf(s) then
      Some(Explanation(DuplicateIdentical, [s.claimId], [ClaimRef(s.claimId)]))
    else None
  }

  /** A true reason to leave a surface out. */
  predicate Witness(h: Matcher, s: Surface, retained: seq<Surface>, g: ClaimGraph.Graph) {
    || (exists t :: t in g.topics && About(h, t, s) && (Loser(g, t) || t.existingThreads != []))
    || (s.kind.Summary? && |SamePublicInline(h, retained, s)| == 1)
    || (exists r :: r in retained && KeyOf(r) == KeyOf(s))
  }

  /** A surface is explained exactly when it has a true reason. */
  lemma ExplainedIsWitnessed(h: Matcher, s: Surface, retained: seq<Surface>, g: ClaimGraph.Graph)
    ensures Explain(h, s, retained, g).Some? <==> Witness(h, s, retained, g)
  {
    hide About, Loser;
    var losers, threads := LosingTopics(h, g, s), ThreadTopics(h, g, s);
    if losers != [] { assert losers[0] in losers; }
    if threads != [] { assert threads[0] in threads; }
    if exists t :: t in g.topics && About(h, t, s) && (Loser(g, t) || t.existingThreads != []) {
      var t :| t in g.topics && About(h, t, s) && (Loser(g, t) || t.existingThreads != []);
      assert t in losers || t in threads;
    }
  }

  /** A refuted removal cites, by index, a conflict on record that one of its claims lost. */
  lemma RefutationCitesAConflict(h: Matcher, s: Surface, retained: seq<Surface>, g: ClaimGraph.Graph) returns (k: nat)
    requires Explain(h, s, retained, g).Some? && Explain(h, s, retained, g).value.disposition == RefutedByStrongerEvidence
    ensures k < |g.conflicts| && g.conflicts[k].loser.Some?
    ensures var e := Explain(h, s, retained, g).value; g.conflicts[k].loser.value in e.claims && ConflictRef(k) in e.evidence
  {
    hide About;
    var losers := LosingTopics(h, g, s);
    var claims := ClaimIds(losers);
    assert losers[0] in losers && claims[0] in claims;
    var c :| c in g.conflicts && c.loser == Some(losers[0].claimId);
    k :| 0 <= k < |g.conflicts| && g.conflicts[k] == c;
    assert ConflictRef(k) in ConflictRefs(g.conflicts, claims, |g.conflicts|);
  }

  // ---------------------------------------------------------------- the receipt

  datatype Removed = Removed(surface: Surface, disposition: Disposition, evidence: seq<EvidenceRef>)

  datatype Receipt = Receipt(inputs: seq<Surface>, retained: seq<Surface>, removed: seq<Removed>)

  function RemovedAs(s: Surface, e: Explanation): Removed {
    Removed(s.(adjudicatingClaimIds := e.claims), e.disposition, e.evidence)
  }

  /** The surface as it came in. */
  function Restored(r: Removed): Surface { r.surface.(adjudicatingClaimIds := []) }

  function RestoredAll(removed: seq<Removed>): (r: seq<Surface>)
    ensures |r| == |removed| && forall n :: 0 <= n < |r| ==> r[n] == Restored(removed[n])
  {
    seq(|removed|, n requires 0 <= n < |removed| => Restored(removed[n]))
  }

  function ExplainAll(h: Matcher, rest: seq<Surface>, retained: seq<Surface>, g: ClaimGraph.Graph): Option<seq<Removed>> {
    if rest == [] then Some([])
    else match (Explain(h, rest[0], retained, g), ExplainAll(h, rest[1..], retained, g))
         case (Some(e), Some(more)) => Some([RemovedAs(rest[0], e)] + more)
         case _ => None
  }

  function Build(h: Matcher, i: Input): Option<Receipt> {
    var inputs := Inputs(h, i);
    match Retain(inputs, FinalKeys(h, i), [])
    case Unknown => None
    case Kept(retained, available) =>
      match ExplainAll(h, available, retained, i.graph)
      case None => None
      case Some(removed) => Some(Receipt(inputs, retained, removed))
  }

  /** `build_compiler_reconciliation_receipt`: surfaces leave `available` one by one, and what is left is explained. */
  method BuildReceipt(h: Matcher, i: Input) returns (receipt: Option<Receipt>)
    ensures receipt == Build(h, i)
  {
    hide Explain, KeyOf, Inputs, FinalKeys, Retain, ExplainAll;
    var inputs := CollectInputs(h, i);
    var kept := TakeFinals(inputs, FinalKeys(h, i));
    if kept.Unknown? { return None; }
    var removed := ExplainRest(h, kept.available, kept.retained, i.graph);
    if removed.None? { return None; }
    receipt := Some(Receipt(inputs, kept.retained, removed.value));
  }

  method TakeFinals(inputs: seq<Surface>, finals: seq<Key>) returns (kept: Retention)
    ensures kept == Retain(inputs, finals, [])
  {
    hide KeyOf;
    var available, retained := inputs, [];
    assert finals[0..] == finals;
    for n := 0 to |finals|
      invariant Retain(inputs, finals, []) == Retain(available, finals[n..], retained)
    {
      assert finals[n..][1..] == finals[n + 1..];
      var p := Position(available, finals[n]);
      if p == |available| { return Unknown; }
      retained := retained + [available[p]];
      available := Without(available, p);
    }
    kept := Kept(retained, available);
  }

  method ExplainRest(h: Matcher, available: seq<Surface>, retained: seq<Surface>, g: ClaimGraph.Graph)
    returns (removed: Option<seq<Removed>>)
    ensures removed == ExplainAll(h, available, retained, g)
  {
    hide Explain;
    var done: seq<Removed> := [];
    assert available[0..] == available;
    PrependNothing(ExplainAll(h, available, retained, g));
    for n := 0 to |available|
      invariant ExplainAll(h, available, retained, g) == Prepend(done, ExplainAll(h, available[n..], retained, g))
    {
      assert available[n..][1..] == available[n + 1..];
      var e := Explain(h, available[n], retained, g);
      if e.None? { return None; }
      var next := RemovedAs(available[n], e.value);
      PrependOne(done, next, ExplainAll(h, available[n + 1..], retained, g));
      done := done + [next];
    }
    assert done + [] == done;
    removed := Some(done);
  }

  function Prepend(done: seq<Removed>, rest: Option<seq<Removed>>): Option<seq<Removed>> {
    if rest.None? then None else Some(done + rest.value)
  }

  lemma PrependOne(done: seq<Removed>, next: Removed, rest: Option<seq<Removed>>)
    ensures Prepend(done, Prepend([next], rest)) == Prepend(done + [next], rest)
  {
    if rest.Some? { assert done + ([next] + rest.value) == done + [next] + rest.value; }
  }

  lemma PrependNothing(rest: Option<seq<Removed>>)
    ensures Prepend([], rest) == rest
  {
    if rest.Some? { assert [] + rest.value == rest.value; }
  }

  // -------------------------------------------------------------- conservation

  lemma {:induction false} ExplainedSurfaces(h: Matcher, rest: seq<Surface>, retained: seq<Surface>, g: ClaimGraph.Graph)
    ensures var r := ExplainAll(h, rest, retained, g);
      && (r.Some? <==> forall s :: s in rest ==> Witness(h, s, retained, g))
      && (r.Some? ==> |r.value| == |rest| && forall n :: 0 <= n < |rest| ==>
            Explain(h, rest[n], retained, g).Some? && r.value[n] == RemovedAs(rest[n], Explain(h, rest[n], retained, g).value))
  {
    hide Explain, Witness;
    if rest != [] {
      ExplainedIsWitnessed(h, rest[0], retained, g);
      ExplainedSurfaces(h, rest[1..], retained, g);
      assert forall s :: s in rest <==> s == rest[0] || s in rest[1..];
    }
  }

  lemma InputsAreUnadjudicated(h: Matcher, i: Input)
    ensures forall s :: s in Inputs(h, i) ==> s.adjudicatingClaimIds == []
  {
    InlineUnadjudicated(h, i, |i.inlineComments|);
    SummaryUnadjudicated(h, i, |i.summaryFindings|);
    FollowUpUnadjudicated(h, i, |i.followUpFindings|);
  }

  lemma {:induction false} InlineUnadjudicated(h: Matcher, i: Input, n: nat)
    requires n <= |i.inlineComments|
    ensures forall s :: s in InlineInputs(h, i, n) ==> s.adjudicatingClaimIds == []
  {
    if n > 0 { InlineUnadjudicated(h, i, n - 1); }
  }

  lemma {:induction false} SummaryUnadjudicated(h: Matcher, i: Input, n: nat)
    requires n <= |i.summaryFindings|
    ensures forall s :: s in SummaryInputs(h, i, n) ==> s.adjudicatingClaimIds == []
  {
    if n > 0 { SummaryUnadjudicated(h, i, n - 1); }
  }

  lemma {:induction false} FollowUpUnadjudicated(h: Matcher, i: Input, n: nat)
    requires n <= |i.followUpFindings|
    ensures forall s :: s in FollowUpInputs(h, i, n) ==> s.adjudicatingClaimIds == []
  {
    if n > 0 { FollowUpUnadjudicated(h, i, n - 1); }
  }

  /** What the removed surfaces were before their removal. */
  lemma RemovedAreLeftovers(h: Matcher, i: Input) returns (left: seq<Surface>)
    requires Build(h, i).Some?
    ensures Retain(Inputs(h, i), FinalKeys(h, i), []) == Kept(Build(h, i).value.retained, left)
    ensures RestoredAll(Build(h, i).value.removed) == left
    ensures forall s :: s in left ==> Witness(h, s, Build(h, i).value.retained, i.graph)
  {
    hide Explain, Witness, Inputs, FinalKeys;
    var inputs := Inputs(h, i);
    var r := Retain(inputs, FinalKeys(h, i), []);
    left := r.available;
    ExplainedSurfaces(h, left, r.retained, i.graph);
    InputsAreUnadjudicated(h, i);
    RetentionConserves(inputs, FinalKeys(h, i), []);
    assert multiset(r.retained) + multiset(left) == multiset(inputs);
    forall n | 0 <= n < |left| ensures left[n].adjudicatingClaimIds == [] {
      assert left[n] in left && left[n] in multiset(left) && left[n] in multiset(inputs);
    }
  }

  /** Accounting conserves surfaces. On success the inputs are, as a multiset, the retained and removed
      surfaces together; the retained ones carry the final keys in order; the surfaces of each key
      are a retained prefix (the earliest sources) followed by the removed ones; and every
      removed surface has a true reason. */
  lemma SurfacesAreConserved(h: Matcher, i: Input)
    requires Build(h, i).Some?
    ensures var r := Build(h, i).value;
      && r.inputs == Inputs(h, i)
      && multiset(r.inputs) == multiset(r.retained) + multiset(RestoredAll(r.removed))
      && |r.retained| == |FinalKeys(h, i)| && (forall n :: 0 <= n < |r.retained| ==> KeyOf(r.retained[n]) == FinalKeys(h, i)[n])
      && (forall k :: OfKey(k, r.inputs) == OfKey(k, r.retained) + OfKey(k, RestoredAll(r.removed)))
      && forall n :: 0 <= n < |r.removed| ==> Witness(h, Restored(r.removed[n]), r.retained, i.graph)
  {
    hide Explain, Witness, Inputs, FinalKeys, OfKey, Retain;
    var r := Build(h, i).value;
    var left := RemovedAreLeftovers(h, i);
    RetentionConserves(Inputs(h, i), FinalKeys(h, i), []);
    RetainedKeys(Inputs(h, i), FinalKeys(h, i), []);
    forall k ensures OfKey(k, r.inputs) == OfKey(k, r.retained) + OfKey(k, left) {
      RetentionSplits(Inputs(h, i), FinalKeys(h, i), [], k);
      NoneOfKey(k, []);
    }
    forall n | 0 <= n < |r.removed| ensures Witness(h, Restored(r.removed[n]), r.retained, i.graph) {
      assert RestoredAll(r.removed)[n] in left;
    }
  }

  /** When the accounting succeeds: nothing is published more often than it came in, and everything
      left over has a true reason. So a surface without one is never lost. */
  lemma AccountingSucceedsExactlyWhen(h: Matcher, i: Input)
    ensures Build(h, i).Some? <==>
      && (forall k :: CountKey(k, FinalKeys(h, i)) <= |OfKey(k, Inputs(h, i))|)
      && var r := Retain(Inputs(h, i), FinalKeys(h, i), []);
         r.Kept? && forall s :: s in r.available ==> Witness(h, s, r.retained, i.graph)
  {
    hide Explain, Witness, Inputs, FinalKeys, OfKey, CountKey;
    RetentionSucceeds(Inputs(h, i), FinalKeys(h, i), []);
    var r := Retain(Inputs(h, i), FinalKeys(h, i), []);
    if r.Kept? { ExplainedSurfaces(h, r.available, r.retained, i.graph); }
  }

  // ---------------------------------------------------------------- finalizing

  /** What is about to be published, and the issues reported with it. */
  class Outbox {
    var inlineComments: seq<InlineComment>
    var summaryFindings: seq<SummaryFinding>
    var sensorIssues: seq<string>

    constructor (i: Input)
      ensures inlineComments == i.finalInline && summaryFindings == i.finalSummary && sensorIssues == []
    {
      inlineComments, summaryFindings, sensorIssues := i.finalInline, i.finalSummary, [];
    }

    /** `finalize_compiler_reconciliation`: a failed accounting publishes nothing and reports an issue. */
    method Finalize(receipt: Option<Receipt>)
      modifies this
      ensures receipt.Some? ==>
        inlineComments == old(inlineComments) && summaryFindings == old(summaryFindings) && sensorIssues == old(sensorIssues)
      ensures receipt.None? ==>
        inlineComments == [] && summaryFindings == [] && sensorIssues == old(sensorIssues) + ["compiler-reconciliation"]
    {
      if receipt.None? {
        sensorIssues := sensorIssues + ["compiler-reconciliation"];
        inlineComments := [];
        summaryFindings := [];
      }
    }
  }

  /** Reconcile, then finalize: whatever is still published has a conserving receipt. */
  method Publish(h: Matcher, i: Input) returns (out: Outbox, receipt: Option<Receipt>)
    ensures fresh(out) && receipt == Build(h, i)
    ensures receipt.Some? ==> out.inlineComments == i.finalInline && out.summaryFindings == i.finalSummary && out.sensorIssues == []
    ensures receipt.None? ==> out.inlineComments == [] && out.summaryFindings == [] && out.sensorIssues != []
  {
    receipt := BuildReceipt(h, i);
    out := new Outbox(i);
    out.Finalize(receipt);
  }
}
