/** What a batch leaves behind, in the words of the graph itself: the conflicts it records, the states of claims, and
    the status and delivery of topics, for every graph, whatever conflicts it already holds. */
module ClaimOutcomes {
  import opened Collections
  import opened ClaimGraph
  import opened ClaimConfluence

  /** Evidence classes, strongest first. */
  const LADDER := [ProofReceipt, ValidatedFact, ExactCitation, ModelInterpretation, UnsupportedAssertion]

  const STATE_NAMES := [
    (Hypothesized, "hypothesized"), (NeedsEvidence, "needs_evidence"), (Supported, "supported"), (Confirmed, "confirmed"),
    (Refuted, "refuted"), (Conflicted, "conflicted"), (Inconclusive, "inconclusive"), (Parked, "parked"), (Dropped, "dropped")]

  // ---------------------------------------------------------- the ruling

  predicate HasAt(evidence: seq<Evidence>, n: int) { 0 <= n < |LADDER| && exists e :: e in evidence && e.tier == LADDER[n] }

  /** Some evidence of `x` stands higher on the ladder than everything `y` has. */
  ghost predicate Outranks(x: Claim, y: Claim) {
    exists n :: HasAt(x.supporting, n) && forall m :: HasAt(y.supporting, m) ==> n < m
  }

  lemma LadderIsPrecedence(c: EvidenceClass)
    ensures Precedence(c) < |LADDER| && LADDER[Precedence(c)] == c
  {
  }

  lemma BestIsHighest(evidence: seq<Evidence>)
    ensures BestClass(evidence).None? <==> forall n :: !HasAt(evidence, n)
    ensures BestClass(evidence).Some? ==>
      var n := Precedence(BestClass(evidence).value); HasAt(evidence, n) && forall m :: HasAt(evidence, m) ==> n <= m
  {
    var best := BestClass(evidence);
    if best.None? {
      assert forall e :: e !in evidence;
    } else {
      LadderIsPrecedence(best.value);
      var e :| e in evidence && e.tier == best.value;
      forall m | HasAt(evidence, m) ensures Precedence(best.value) <= m {
        var f :| f in evidence && f.tier == LADDER[m];
        LadderIsPrecedence(f.tier);
      }
      assert HasAt(evidence, Precedence(best.value));
    }
    if evidence != [] {
      LadderIsPrecedence(evidence[0].tier);
      assert HasAt(evidence, Precedence(evidence[0].tier));
    }
  }

  /** How a conflict is resolved in favour of `x`. */
  function WonBy(x: Claim, y: Claim): Ruling {
    Ruling(Some(x.id), Some(y.id), if HasAt(x.supporting, 0) then ResolvedByProof else ResolvedByPrecedence)
  }

  /** One side wins when its evidence outranks the other's, by proof exactly when it has a proof receipt. Otherwise nobody
      does, and the conflict is unresolved, or to be verified when both sides came without evidence. */
  lemma RulingMeans(a: Claim, b: Claim)
    ensures Outranks(a, b) ==> AdjudicateConflict(a, b) == WonBy(a, b)
    ensures Outranks(b, a) ==> AdjudicateConflict(a, b) == WonBy(b, a)
    ensures !Outranks(a, b) && !Outranks(b, a) ==>
      AdjudicateConflict(a, b) == Ruling(None, None, if a.supporting == [] == b.supporting then SurfacedAsVerification else Unresolved)
  {
    hide HasAt;
    BestIsHighest(a.supporting);
    BestIsHighest(b.supporting);
  }

  /** Strength is the place on the ladder. */
  lemma OutranksIsStronger(claims: seq<Claim>, a: string, b: string)
    requires Recordable(claims, a, b)
    ensures Strength(claims, a) < Strength(claims, b) <==> Outranks(FindClaim(claims, a).value, FindClaim(claims, b).value)
  {
    hide HasAt;
    BestIsHighest(FindClaim(claims, a).value.supporting);
    BestIsHighest(FindClaim(claims, b).value.supporting);
  }

  // -------------------------------------------------------- what is recorded

  /** The conflict `c` was recorded for the pair `p` of claims that exist and differ. */
  ghost predicate RecordedFor(claims: seq<Claim>, c: Conflict, p: Pair) {
    && p.0 != p.1 && c.claimIds == [p.0, p.1]
    && exists a, b :: FirstClaim(claims, p.0, a) && FirstClaim(claims, p.1, b) && Ruled(c, claims[a], claims[b])
  }

  /** Position `k` holds the first claim with that id. */
  predicate FirstClaim(claims: seq<Claim>, id: string, k: int) {
    0 <= k < |claims| && claims[k].id == id && forall m :: 0 <= m < k ==> claims[m].id != id
  }

  /** The conflict says what the evidence of its two claims decides. */
  ghost predicate Ruled(c: Conflict, a: Claim, b: Claim) {
    && c.description == "Explicit cross-lane conflict between `" + a.sourceLane + "` and `" + b.sourceLane + "`"
    && (Outranks(a, b) ==> Ruling(c.winner, c.loser, c.resolution) == WonBy(a, b))
    && (Outranks(b, a) ==> Ruling(c.winner, c.loser, c.resolution) == WonBy(b, a))
    && (!Outranks(a, b) && !Outranks(b, a) ==>
          && c.winner == c.loser == None
          && c.resolution == if a.supporting == [] == b.supporting then SurfacedAsVerification else Unresolved)
  }

  lemma {:induction false} FoundIsFirst(claims: seq<Claim>, id: string) returns (k: nat)
    ensures FindClaim(claims, id).Some? ==> FirstClaim(claims, id, k) && FindClaim(claims, id).value == claims[k]
  {
    k := 0;
    if claims != [] && claims[0].id != id {
      var n := FoundIsFirst(claims[1..], id);
      k := n + 1;
    }
  }

  lemma FirstIsFound(claims: seq<Claim>, id: string, k: int)
    requires FirstClaim(claims, id, k)
    ensures FindClaim(claims, id) == Some(claims[k])
  {
    var n := FoundIsFirst(claims, id);
    assert claims[k] in claims;
  }

  lemma OneRecordIsRuled(claims: seq<Claim>, conflicts: seq<Conflict>, p: Pair)
    ensures forall k :: |conflicts| <= k < |RecordPair(claims, conflicts, p)| ==>
      RecordedFor(claims, RecordPair(claims, conflicts, p)[k], p)
  {
    hide Outranks;
    if Recordable(claims, p.0, p.1) {
      var a := FoundIsFirst(claims, p.0);
      var b := FoundIsFirst(claims, p.1);
      RulingMeans(claims[a], claims[b]);
      assert Ruled(NewConflict(claims[a], claims[b]), claims[a], claims[b]);
    }
  }

  ghost predicate FromBatch(claims: seq<Claim>, c: Conflict, pairs: seq<Pair>) { exists p :: p in pairs && RecordedFor(claims, c, p) }

  /** Every conflict a batch adds was recorded for one of its pairs, as their evidence decides; and afterwards every pair of
      two claims that exist and differ is on record. */
  lemma {:induction false} BatchRecords(claims: seq<Claim>, conflicts: seq<Conflict>, pairs: seq<Pair>)
    ensures var all := RecordPairs(claims, conflicts, pairs);
      && conflicts <= all
      && forall k :: |conflicts| <= k < |all| ==> FromBatch(claims, all[k], pairs)
    decreases |pairs|
  {
    hide RecordedFor, RecordPair;
    RecordGrows(claims, conflicts, pairs);
    if pairs != [] {
      var next := RecordPair(claims, conflicts, pairs[0]);
      OneRecordIsRuled(claims, conflicts, pairs[0]);
      BatchRecords(claims, next, pairs[1..]);
      var all := RecordPairs(claims, conflicts, pairs);
      forall k | |conflicts| <= k < |all| ensures FromBatch(claims, all[k], pairs) {
        if k < |next| {
          assert all[k] == next[k] && pairs[0] in pairs;
        } else {
          var p :| p in pairs[1..] && RecordedFor(claims, all[k], p);
          assert p in pairs;
        }
      }
    }
  }

  /** What adjudicating a batch records. */
  lemma ConflictsOfABatch(g: Graph, pairs: seq<Pair>)
    ensures var all := Adjudicate(g, pairs).conflicts;
      && g.conflicts <= all
      && (forall k :: |g.conflicts| <= k < |all| ==> FromBatch(g.claims, all[k], pairs))
      && forall p, a, b :: p in pairs && p.0 != p.1 && FirstClaim(g.claims, p.0, a) && FirstClaim(g.claims, p.1, b) ==>
           exists c :: c in all && |c.claimIds| == 2 && p.0 in c.claimIds && p.1 in c.claimIds
  {
    hide RecordedFor;
    BatchRecords(g.claims, g.conflicts, pairs);
    AllAreRecorded(g.claims, g.conflicts, pairs);
    forall p, a, b | p in pairs && p.0 != p.1 && FirstClaim(g.claims, p.0, a) && FirstClaim(g.claims, p.1, b)
      ensures exists c :: c in Adjudicate(g, pairs).conflicts && |c.claimIds| == 2 && p.0 in c.claimIds && p.1 in c.claimIds
    {
      FirstIsFound(g.claims, p.0, a);
      FirstIsFound(g.claims, p.1, b);
      assert Covered(g.claims, Adjudicate(g, pairs).conflicts, p);
    }
  }

  // ------------------------------------------------------- claims and topics

  /** Some conflict that involves the claim ended that way for it. */
  ghost predicate Lost(conflicts: seq<Conflict>, id: string) { exists c :: c in conflicts && id in c.claimIds && c.loser == Some(id) }

  ghost predicate Stuck(conflicts: seq<Conflict>, id: string, r: Resolution) {
    exists c :: c in conflicts && id in c.claimIds && c.resolution == r
  }

  ghost predicate Won(conflicts: seq<Conflict>, id: string) {
    exists c :: c in conflicts && id in c.claimIds && c.winner == Some(id) && c.resolution in {ResolvedByProof, ResolvedByPrecedence}
  }

  /** The state of a claim is read off all conflicts on record, older batches included: a loss outweighs an unresolved
      conflict, that one a conflict to be verified, and that one a win. Nothing else about the claim changes. */
  lemma ClaimOutcome(g: Graph, pairs: seq<Pair>, i: nat)
    requires i < |g.claims|
    ensures var r, was := Adjudicate(g, pairs), g.claims[i];
      var now, all := r.claims[i], r.conflicts;
      && now.(state := was.state) == was
      && now.state == if Lost(all, was.id) then Refuted
                      else if Stuck(all, was.id, Unresolved) then Conflicted
                      else if Stuck(all, was.id, SurfacedAsVerification) then Inconclusive
                      else if Won(all, was.id) then Confirmed else was.state
  {
    hide RecordPairs;
    var all, id := RecordPairs(g.claims, g.conflicts, pairs), g.claims[i].id;
    assert Lost(all, id) <==> Tally(all, id) == 3;
  }

  lemma NameIsListed(s: ClaimState)
    ensures (s, StateKey(s)) in STATE_NAMES
  {
    var n := match s
      case Hypothesized => 0 case NeedsEvidence => 1 case Supported => 2 case Confirmed => 3 case Refuted => 4
      case Conflicted => 5 case Inconclusive => 6 case Parked => 7 case Dropped => 8;
    assert STATE_NAMES[n] == (s, StateKey(s));
  }

  /** A topic follows its claim: it takes the written name of the claim's final state, and once the claim has lost a conflict
      the topic has no human surface. Nothing else about it changes. */
  lemma TopicOutcome(g: Graph, pairs: seq<Pair>, i: nat)
    requires i < |g.topics|
    ensures var r, was := Adjudicate(g, pairs), g.topics[i];
      var now := r.topics[i];
      && now.(status := was.status, delivery := was.delivery) == was
      && now.delivery == (if exists c :: c in r.conflicts && c.loser == Some(was.claimId) then "no-human-surface" else was.delivery)
      && (forall k :: FirstClaim(r.claims, was.claimId, k) ==> (r.claims[k].state, now.status) in STATE_NAMES)
      && ((forall c :: c in r.claims ==> c.id != was.claimId) ==> now.status == was.status)
  {
    hide RecordPairs, ReduceClaims;
    var r, was := Adjudicate(g, pairs), g.topics[i];
    forall k | FirstClaim(r.claims, was.claimId, k) ensures (r.claims[k].state, r.topics[i].status) in STATE_NAMES {
      FirstIsFound(r.claims, was.claimId, k);
      NameIsListed(r.claims[k].state);
    }
  }

  /** An opponent in the batch whose evidence outranks that of the claim. */
  ghost predicate Outranked(claims: seq<Claim>, pairs: seq<Pair>, id: string) {
    exists b, x, y ::
      Mentions(pairs, id, b) && b != id && FirstClaim(claims, b, x) && FirstClaim(claims, id, y) && Outranks(claims[x], claims[y])
  }

  /** Where no conflict was on record, a topic loses its surface exactly when an opponent outranks its claim. */
  lemma TopicIsSuppressed(g: Graph, pairs: seq<Pair>, i: nat)
    requires g.conflicts == [] && i < |g.topics| && g.topics[i].delivery != "no-human-surface"
    ensures Adjudicate(g, pairs).topics[i].delivery == "no-human-surface" <==> Outranked(g.claims, pairs, g.topics[i].claimId)
  {
    hide Adjudicate, Outranked;
    TopicOutcome(g, pairs, i);
    LosesExactlyWhenOutranked(g, pairs, g.topics[i].claimId);
  }

  lemma LosesExactlyWhenOutranked(g: Graph, pairs: seq<Pair>, id: string)
    requires g.conflicts == []
    ensures (exists c :: c in Adjudicate(g, pairs).conflicts && c.loser == Some(id)) <==> Outranked(g.claims, pairs, id)
  {
    hide Outranks, Mentions, RecordedFor, Adjudicate;
    var all := Adjudicate(g, pairs).conflicts;
    ConflictsOfABatch(g, pairs);
    if exists c :: c in all && c.loser == Some(id) {
      var c :| c in all && c.loser == Some(id);
      var p := PairBehind(g.claims, pairs, all, c);
      LoserIsOutranked(g.claims, pairs, c, p, id);
    }
    if Outranked(g.claims, pairs, id) {
      var b, x, y :|
        Mentions(pairs, id, b) && b != id && FirstClaim(g.claims, b, x) && FirstClaim(g.claims, id, y) && Outranks(g.claims[x], g.claims[y]);
      var c := MentionedIsRecorded(g, pairs, id, b, y, x);
      var p := PairBehind(g.claims, pairs, all, c);
      OutrankedLoses(g.claims, c, p, id, b, x, y);
    }
  }

  lemma PairBehind(claims: seq<Claim>, pairs: seq<Pair>, all: seq<Conflict>, c: Conflict) returns (p: Pair)
    requires c in all && forall k :: 0 <= k < |all| ==> FromBatch(claims, all[k], pairs)
    ensures p in pairs && RecordedFor(claims, c, p)
  {
    hide RecordedFor;
    var k :| 0 <= k < |all| && all[k] == c;
    p :| p in pairs && RecordedFor(claims, all[k], p);
  }

  lemma LoserIsOutranked(claims: seq<Claim>, pairs: seq<Pair>, c: Conflict, p: Pair, id: string)
    requires p in pairs && RecordedFor(claims, c, p) && c.loser == Some(id)
    ensures Outranked(claims, pairs, id)
  {
    hide Outranks;
    var a, b :| FirstClaim(claims, p.0, a) && FirstClaim(claims, p.1, b) && Ruled(c, claims[a], claims[b]);
    assert Mentions(pairs, p.0, p.1) && Mentions(pairs, p.1, p.0);
    assert Outranks(claims[a], claims[b]) || Outranks(claims[b], claims[a]);
  }

  lemma MentionedIsRecorded(g: Graph, pairs: seq<Pair>, id: string, b: string, x: int, y: int) returns (c: Conflict)
    requires Mentions(pairs, id, b) && b != id && FirstClaim(g.claims, id, x) && FirstClaim(g.claims, b, y)
    ensures c in Adjudicate(g, pairs).conflicts && |c.claimIds| == 2 && id in c.claimIds && b in c.claimIds
  {
    hide Adjudicate, FirstClaim, RecordedFor;
    ConflictsOfABatch(g, pairs);
    var p := if (id, b) in pairs then (id, b) else (b, id);
    assert p in pairs && p.0 != p.1;
    assert exists m, n :: FirstClaim(g.claims, p.0, m) && FirstClaim(g.claims, p.1, n);
    c :| c in Adjudicate(g, pairs).conflicts && |c.claimIds| == 2 && p.0 in c.claimIds && p.1 in c.claimIds;
  }

  lemma OutrankedLoses(claims: seq<Claim>, c: Conflict, p: Pair, id: string, b: string, x: int, y: int)
    requires RecordedFor(claims, c, p) && id in c.claimIds && b in c.claimIds && b != id
    requires FirstClaim(claims, b, x) && FirstClaim(claims, id, y) && Outranks(claims[x], claims[y])
    ensures c.loser == Some(id)
  {
    hide Outranks;
    var m, n :| FirstClaim(claims, p.0, m) && FirstClaim(claims, p.1, n) && Ruled(c, claims[m], claims[n]);
    assert {m, n} == {x, y};
  }
}
