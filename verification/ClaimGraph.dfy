/** Claim-graph adjudication (`src/claim_graph.rs`): explicit conflict pairs arrive in batches, each new pair is
    decided by evidence precedence, and every claim is then reduced again from all conflicts on record. */
module ClaimGraph {
  import opened Collections

  datatype ClaimState =
    | Hypothesized | NeedsEvidence | Supported | Confirmed | Refuted | Conflicted | Inconclusive | Parked | Dropped

  function StateKey(s: ClaimState): string {
    match s
    case Hypothesized => "hypothesized"
    case NeedsEvidence => "needs_evidence"
    case Supported => "supported"
    case Confirmed => "confirmed"
    case Refuted => "refuted"
    case Conflicted => "conflicted"
    case Inconclusive => "inconclusive"
    case Parked => "parked"
    case Dropped => "dropped"
  }

  datatype EvidenceClass = ProofReceipt | ValidatedFact | ExactCitation | ModelInterpretation | UnsupportedAssertion

  /** Lower is stronger. */
  function Precedence(c: EvidenceClass): nat {
    match c
    case ProofReceipt => 0
    case ValidatedFact => 1
    case ExactCitation => 2
    case ModelInterpretation => 3
    case UnsupportedAssertion => 4
  }

  datatype Evidence = Evidence(tier: EvidenceClass, reference: string, detail: string)

  datatype Claim = Claim(
    id: string, subject: string, sourceLane: string, state: ClaimState,
    supporting: seq<Evidence>, contradicting: seq<Evidence>, severity: string)

  datatype Topic = Topic(
    claimId: string, status: string, delivery: string, path: Option<string>, anchor: Option<nat>,
    sourceLane: string, subject: string, existingThreads: seq<string>)

  datatype Resolution = Unresolved | ResolvedByPrecedence | ResolvedByProof | SurfacedAsVerification | NotMaterial

  datatype Conflict = Conflict(
    claimIds: seq<string>, winner: Option<string>, loser: Option<string>, description: string, resolution: Resolution)

  type Pair = (string, string)

  datatype Graph = Graph(claims: seq<Claim>, topics: seq<Topic>, conflicts: seq<Conflict>)

  // ------------------------------------------------------------ one conflict

  /** The first class of highest precedence. */
  function BestClass(evidence: seq<Evidence>): (r: Option<EvidenceClass>)
    ensures r.None? <==> evidence == []
    ensures r.Some? ==> exists e :: e in evidence && e.tier == r.value
    ensures r.Some? ==> forall e :: e in evidence ==> Precedence(r.value) <= Precedence(e.tier)
  {
    if evidence == [] then None
    else
      var rest := BestClass(evidence[1..]);
      assert forall e :: e in evidence ==> e == evidence[0] || e in evidence[1..];
      if rest.None? || Precedence(evidence[0].tier) <= Precedence(rest.value) then Some(evidence[0].tier) else rest
  }

  datatype Ruling = Ruling(winner: Option<string>, loser: Option<string>, resolution: Resolution)

  function ResolutionFor(c: EvidenceClass): Resolution {
    if c == ProofReceipt then ResolvedByProof else ResolvedByPrecedence
  }

  function AdjudicateConflict(a: Claim, b: Claim): Ruling {
    match (BestClass(a.supporting), BestClass(b.supporting))
    case (None, None) => Ruling(None, None, SurfacedAsVerification)
    case (Some(x), None) => Ruling(Some(a.id), Some(b.id), ResolutionFor(x))
    case (None, Some(y)) => Ruling(Some(b.id), Some(a.id), ResolutionFor(y))
    case (Some(x), Some(y)) =>
      if Precedence(x) < Precedence(y) then Ruling(Some(a.id), Some(b.id), ResolutionFor(x))
      else if Precedence(y) < Precedence(x) then Ruling(Some(b.id), Some(a.id), ResolutionFor(y))
      else Ruling(None, None, Unresolved)
  }

  // -------------------------------------------------------- recording pairs

  function FindClaim(claims: seq<Claim>, id: string): (r: Option<Claim>)
    ensures r.Some? ==> r.value in claims && r.value.id == id
    ensures r.None? <==> forall c :: c in claims ==> c.id != id
  {
    if claims == [] then None else if claims[0].id == id then Some(claims[0]) else FindClaim(claims[1..], id)
  }

  predicate Recorded(conflicts: seq<Conflict>, a: string, b: string) {
    exists c :: c in conflicts && |c.claimIds| == 2 && a in c.claimIds && b in c.claimIds
  }

  /** Both claims exist and differ. */
  predicate Recordable(claims: seq<Claim>, a: string, b: string) {
    FindClaim(claims, a).Some? && FindClaim(claims, b).Some? && a != b
  }

  function NewConflict(a: Claim, b: Claim): Conflict {
    var r := AdjudicateConflict(a, b);
    Conflict([a.id, b.id], r.winner, r.loser,
             "Explicit cross-lane conflict between `" + a.sourceLane + "` and `" + b.sourceLane + "`", r.resolution)
  }

  function RecordPair(claims: seq<Claim>, conflicts: seq<Conflict>, p: Pair): seq<Conflict> {
    if !Recordable(claims, p.0, p.1) || Recorded(conflicts, p.0, p.1) then conflicts
    else conflicts + [NewConflict(FindClaim(claims, p.0).value, FindClaim(claims, p.1).value)]
  }

  function RecordPairs(claims: seq<Claim>, conflicts: seq<Conflict>, pairs: seq<Pair>): seq<Conflict>
    decreases |pairs|
  {
    if pairs == [] then conflicts
    else RecordPairs(claims, RecordPair(claims, conflicts, pairs[0]), pairs[1..])
  }

  // --------------------------------------------------------------- reduction

  /** The priority one conflict gives a claim, or -1 for none. */
  function Vote(c: Conflict, id: string): (v: int)
    ensures -1 <= v <= 3
  {
    if id !in c.claimIds then -1
    else if c.loser == Some(id) then 3
    else match c.resolution
      case Unresolved => 2
      case SurfacedAsVerification => 1
      case ResolvedByProof => if c.winner == Some(id) then 0 else -1
      case ResolvedByPrecedence => if c.winner == Some(id) then 0 else -1
      case NotMaterial => -1
  }

  /** The highest priority among the conflicts. */
  function Tally(conflicts: seq<Conflict>, id: string): (v: int)
    ensures -1 <= v <= 3
    ensures forall c :: c in conflicts ==> Vote(c, id) <= v
    ensures v >= 0 ==> exists c :: c in conflicts && Vote(c, id) == v
  {
    if conflicts == [] then -1
    else
      var rest := Tally(conflicts[1..], id);
      assert forall c :: c in conflicts ==> c == conflicts[0] || c in conflicts[1..];
      if Vote(conflicts[0], id) < rest then rest else Vote(conflicts[0], id)
  }

  function Verdict(priority: int): ClaimState
    requires 0 <= priority <= 3
  {
    if priority == 3 then Refuted else if priority == 2 then Conflicted else if priority == 1 then Inconclusive else Confirmed
  }

  function ReduceClaim(conflicts: seq<Conflict>, c: Claim): Claim {
    var v := Tally(conflicts, c.id);
    if v < 0 then c else c.(state := Verdict(v))
  }

  function ReduceClaims(conflicts: seq<Conflict>, claims: seq<Claim>): (r: seq<Claim>)
    ensures |r| == |claims| && forall i :: 0 <= i < |r| ==> r[i] == ReduceClaim(conflicts, claims[i])
  {
    seq(|claims|, i requires 0 <= i < |claims| => ReduceClaim(conflicts, claims[i]))
  }

  predicate Defeated(conflicts: seq<Conflict>, id: string) { exists c :: c in conflicts && c.loser == Some(id) }

  function ReduceTopic(conflicts: seq<Conflict>, claims: seq<Claim>, t: Topic): Topic {
    var claim := FindClaim(claims, t.claimId);
    var t1 := if claim.Some? then t.(status := StateKey(claim.value.state)) else t;
    if Defeated(conflicts, t.claimId) then t1.(delivery := "no-human-surface") else t1
  }

  function ReduceTopics(conflicts: seq<Conflict>, claims: seq<Claim>, topics: seq<Topic>): (r: seq<Topic>)
    ensures |r| == |topics| && forall i :: 0 <= i < |r| ==> r[i] == ReduceTopic(conflicts, claims, topics[i])
  {
    seq(|topics|, i requires 0 <= i < |topics| => ReduceTopic(conflicts, claims, topics[i]))
  }

  function Settle(g: Graph): Graph {
    var claims := ReduceClaims(g.conflicts, g.claims);
    Graph(claims, ReduceTopics(g.conflicts, claims, g.topics), g.conflicts)
  }

  function Adjudicate(g: Graph, pairs: seq<Pair>): (r: Graph)
    ensures |r.claims| == |g.claims| && |r.topics| == |g.topics|
  {
    Settle(g.(conflicts := RecordPairs(g.claims, g.conflicts, pairs)))
  }

  // ------------------------------------------------------ the mutating pass

  /** The `max_by_key` of one claim's votes. */
  method BestVote(conflicts: seq<Conflict>, id: string) returns (best: int)
    ensures best == Tally(conflicts, id)
  {
    best := -1;
    for j := 0 to |conflicts|
      invariant best == Tally(conflicts[..j], id)
    {
      assert conflicts[..j + 1] == conflicts[..j] + [conflicts[j]];
      TallySnoc(conflicts[..j], conflicts[j], id);
      if best < Vote(conflicts[j], id) { best := Vote(conflicts[j], id); }
    }
    assert conflicts[..|conflicts|] == conflicts;
  }

  class Store {
    var claims: seq<Claim>
    var topics: seq<Topic>
    var conflicts: seq<Conflict>

    constructor (g: Graph)
      ensures Value() == g
    {
      claims, topics, conflicts := g.claims, g.topics, g.conflicts;
    }

    function Value(): Graph
      reads this
    {
      Graph(claims, topics, conflicts)
    }

    /** `adjudicate_claim_graph_conflicts`: record the new pairs, then rewrite claims and topics in place. */
    method AdjudicateConflicts(pairs: seq<Pair>)
      modifies this
      ensures Value() == Adjudicate(old(Value()), pairs)
    {
      var n := 0;
      while n < |pairs|
        invariant 0 <= n <= |pairs|
        invariant claims == old(claims) && topics == old(topics)
        invariant RecordPairs(claims, old(conflicts), pairs) == RecordPairs(claims, conflicts, pairs[n..])
      {
        var left, right := FindClaim(claims, pairs[n].0), FindClaim(claims, pairs[n].1);
        if left.Some? && right.Some? {
          if left.value.id != right.value.id && !Recorded(conflicts, left.value.id, right.value.id) {
            conflicts := conflicts + [NewConflict(left.value, right.value)];
          }
        }
        assert pairs[n..][1..] == pairs[n + 1..];
        n := n + 1;
      }
      ReduceInPlace();
    }

    method ReduceInPlace()
      modifies `claims, `topics
      ensures Value() == Settle(old(Value()))
    {
      for i := 0 to |claims|
        invariant |claims| == |old(claims)| && topics == old(topics) && conflicts == old(conflicts)
        invariant forall k :: 0 <= k < i ==> claims[k] == ReduceClaim(conflicts, old(claims)[k])
        invariant forall k :: i <= k < |claims| ==> claims[k] == old(claims)[k]
      {
        var claim := claims[i];
        var best := BestVote(conflicts, claim.id);
        if best >= 0 { claims := claims[i := claim.(state := Verdict(best))]; }
      }
      assert claims == ReduceClaims(conflicts, old(claims));
      for i := 0 to |topics|
        invariant |topics| == |old(topics)| && claims == ReduceClaims(conflicts, old(claims)) && conflicts == old(conflicts)
        invariant forall k :: 0 <= k < i ==> topics[k] == ReduceTopic(conflicts, claims, old(topics)[k])
        invariant forall k :: i <= k < |topics| ==> topics[k] == old(topics)[k]
      {
        var topic := topics[i];
        var claim := FindClaim(claims, topic.claimId);
        if claim.Some? { topics := topics[i := topics[i].(status := StateKey(claim.value.state))]; }
        if Defeated(conflicts, topic.claimId) { topics := topics[i := topics[i].(delivery := "no-human-surface")]; }
      }
    }
  }

  lemma {:induction false} TallySnoc(conflicts: seq<Conflict>, c: Conflict, id: string)
    ensures Tally(conflicts + [c], id) == if Tally(conflicts, id) < Vote(c, id) then Vote(c, id) else Tally(conflicts, id)
  {
    var all := conflicts + [c];
    assert forall x :: x in all <==> x in conflicts || x == c;
  }
}
