/** What claim-graph adjudication guarantees for every graph and every batch: batches compose, repeats and orderings
    do not matter, and the final state of a claim is decided by how it compares with its opponents. */
module ClaimConfluence {
  import opened Collections
  import opened ClaimGraph

  // ----------------------------------------------------- recording composes

  lemma {:induction false} RecordSplit(claims: seq<Claim>, conflicts: seq<Conflict>, p: seq<Pair>, q: seq<Pair>)
    ensures RecordPairs(claims, conflicts, p + q) == RecordPairs(claims, RecordPairs(claims, conflicts, p), q)
    decreases |p|
  {
    if p == [] {
      assert p + q == q;
    } else {
      assert (p + q)[0] == p[0] && (p + q)[1..] == p[1..] + q;
      RecordSplit(claims, RecordPair(claims, conflicts, p[0]), p[1..], q);
    }
  }

  /** Recorded conflicts keep their indices. */
  lemma {:induction false} RecordGrows(claims: seq<Claim>, conflicts: seq<Conflict>, p: seq<Pair>)
    ensures conflicts <= RecordPairs(claims, conflicts, p)
    decreases |p|
  {
    if p != [] { RecordGrows(claims, RecordPair(claims, conflicts, p[0]), p[1..]); }
  }

  /** Two claim lists that differ at most in adjudicated states. */
  predicate SameEvidence(a: seq<Claim>, b: seq<Claim>) {
    |a| == |b| && forall i :: 0 <= i < |a| ==> a[i].(state := b[i].state) == b[i]
  }

  lemma {:induction false} FindSameEvidence(a: seq<Claim>, b: seq<Claim>, id: string)
    requires SameEvidence(a, b)
    ensures FindClaim(a, id).Some? == FindClaim(b, id).Some?
    ensures FindClaim(a, id).Some? ==>
      FindClaim(a, id).value.(state := FindClaim(b, id).value.state) == FindClaim(b, id).value
  {
    if a != [] {
      assert a[0].(state := b[0].state) == b[0];
      FindSameEvidence(a[1..], b[1..], id);
    }
  }

  lemma OneRecordIgnoresStates(a: seq<Claim>, b: seq<Claim>, conflicts: seq<Conflict>, p: Pair)
    requires SameEvidence(a, b)
    ensures RecordPair(a, conflicts, p) == RecordPair(b, conflicts, p)
  {
    hide SameEvidence;
    FindSameEvidence(a, b, p.0);
    FindSameEvidence(a, b, p.1);
  }

  /** Recording looks at evidence, never at states. */
  lemma {:induction false} RecordIgnoresStates(a: seq<Claim>, b: seq<Claim>, conflicts: seq<Conflict>, p: seq<Pair>)
    requires SameEvidence(a, b)
    ensures RecordPairs(a, conflicts, p) == RecordPairs(b, conflicts, p)
    decreases |p|
  {
    hide RecordPair, SameEvidence;
    if p != [] {
      OneRecordIgnoresStates(a, b, conflicts, p[0]);
      RecordIgnoresStates(a, b, RecordPair(a, conflicts, p[0]), p[1..]);
    }
  }

  // ------------------------------------------------------ reduction composes

  /** More conflicts never lower a claim's priority, so a later win cannot erase a loss. */
  lemma TallyGrows(few: seq<Conflict>, many: seq<Conflict>, id: string)
    requires forall c :: c in few ==> c in many
    ensures Tally(few, id) <= Tally(many, id)
  {
  }

  lemma SettleAgain(g: Graph, later: seq<Conflict>)
    requires g.conflicts <= later
    ensures Settle(Settle(g).(conflicts := later)) == Settle(g.(conflicts := later))
  {
    var once := Settle(g);
    assert forall c :: c in g.conflicts ==> c in later;
    forall i | 0 <= i < |g.claims| ensures ReduceClaim(later, once.claims[i]) == ReduceClaim(later, g.claims[i]) {
      TallyGrows(g.conflicts, later, g.claims[i].id);
    }
    var claims := ReduceClaims(later, g.claims);
    assert ReduceClaims(later, once.claims) == claims;
    forall i | 0 <= i < |g.topics|
      ensures ReduceTopic(later, claims, once.topics[i]) == ReduceTopic(later, claims, g.topics[i])
    {
      ReduceKeepsEvidence(g.conflicts, g.claims);
      ReduceKeepsEvidence(later, g.claims);
      FindSameEvidence(g.claims, once.claims, g.topics[i].claimId);
      FindSameEvidence(g.claims, claims, g.topics[i].claimId);
    }
  }

  lemma ReduceKeepsEvidence(conflicts: seq<Conflict>, claims: seq<Claim>)
    ensures SameEvidence(claims, ReduceClaims(conflicts, claims))
  {
  }

  /** Adjudicating one batch after another is adjudicating both at once. */
  lemma BatchesCompose(g: Graph, p: seq<Pair>, q: seq<Pair>)
    ensures Adjudicate(Adjudicate(g, p), q) == Adjudicate(g, p + q)
  {
    var first := RecordPairs(g.claims, g.conflicts, p);
    ReduceKeepsEvidence(first, g.claims);
    RecordIgnoresStates(g.claims, Adjudicate(g, p).claims, first, q);
    RecordSplit(g.claims, g.conflicts, p, q);
    RecordGrows(g.claims, first, q);
    SettleAgain(g.(conflicts := first), RecordPairs(g.claims, first, q));
  }

  /** A batch already on record changes nothing, neither conflicts nor states. */
  lemma RepeatingIsIdentity(g: Graph, p: seq<Pair>)
    ensures Adjudicate(Adjudicate(g, p), p) == Adjudicate(g, p)
  {
    var first := RecordPairs(g.claims, g.conflicts, p);
    BatchesCompose(g, p, p);
    RecordSplit(g.claims, g.conflicts, p, p);
    AllAreRecorded(g.claims, g.conflicts, p);
    NothingNew(g.claims, first, p);
  }

  predicate Covered(claims: seq<Claim>, conflicts: seq<Conflict>, p: Pair) {
    Recordable(claims, p.0, p.1) ==> Recorded(conflicts, p.0, p.1)
  }

  lemma {:induction false} AllAreRecorded(claims: seq<Claim>, conflicts: seq<Conflict>, p: seq<Pair>)
    ensures forall x :: x in p ==> Covered(claims, RecordPairs(claims, conflicts, p), x)
    decreases |p|
  {
    if p != [] {
      var next := RecordPair(claims, conflicts, p[0]);
      if Recordable(claims, p[0].0, p[0].1) && !Recorded(conflicts, p[0].0, p[0].1) {
        assert next[|conflicts|] in next;
        assert Recorded(next, p[0].0, p[0].1);
      }
      AllAreRecorded(claims, next, p[1..]);
      RecordGrows(claims, next, p[1..]);
      assert forall c :: c in next ==> c in RecordPairs(claims, next, p[1..]);
      forall x | x in p ensures Covered(claims, RecordPairs(claims, conflicts, p), x) {
        assert x == p[0] || x in p[1..];
      }
    }
  }

  lemma {:induction false} NothingNew(claims: seq<Claim>, conflicts: seq<Conflict>, p: seq<Pair>)
    requires forall x :: x in p ==> Covered(claims, conflicts, x)
    ensures RecordPairs(claims, conflicts, p) == conflicts
    decreases |p|
  {
    if p != [] {
      assert Covered(claims, conflicts, p[0]);
      NothingNew(claims, conflicts, p[1..]);
    }
  }

  // -------------------------------------------------- order does not matter

  /** A conflict without the order of its claims and its description. */
  datatype Record = Record(ids: set<string>, size: nat, winner: Option<string>, loser: Option<string>, resolution: Resolution)

  function RecordOf(c: Conflict): Record {
    Record(set id | id in c.claimIds, |c.claimIds|, c.winner, c.loser, c.resolution)
  }

  function Records(conflicts: seq<Conflict>): (r: seq<Record>)
    ensures |r| == |conflicts| && forall i :: 0 <= i < |r| ==> r[i] == RecordOf(conflicts[i])
  {
    seq(|conflicts|, i requires 0 <= i < |conflicts| => RecordOf(conflicts[i]))
  }

  predicate Mentions(p: seq<Pair>, a: string, b: string) { (a, b) in p || (b, a) in p }

  /** The record the pair {a, b} leaves, whichever way round it came. */
  function PairRecord(claims: seq<Claim>, a: string, b: string): Record
    requires Recordable(claims, a, b)
  {
    RecordOf(NewConflict(FindClaim(claims, a).value, FindClaim(claims, b).value))
  }

  lemma PairRecordFlips(claims: seq<Claim>, a: string, b: string)
    requires Recordable(claims, a, b)
    ensures Recordable(claims, b, a) && PairRecord(claims, a, b) == PairRecord(claims, b, a)
    ensures PairRecord(claims, a, b).ids == {a, b}
  {
  }

  /** `r` is the record of a pair of the batch that was not on record before it. */
  ghost predicate Fresh(claims: seq<Claim>, conflicts: seq<Conflict>, p: seq<Pair>, r: Record) {
    exists a, b :: Mentions(p, a, b) && Recordable(claims, a, b) && !Recorded(conflicts, a, b)
                   && r == PairRecord(claims, a, b)
  }

  /** A batch appends the record of each new unordered pair, once. */
  lemma {:induction false} AppendedRecords(claims: seq<Claim>, conflicts: seq<Conflict>, p: seq<Pair>)
    ensures conflicts <= RecordPairs(claims, conflicts, p)
    ensures var added := Records(RecordPairs(claims, conflicts, p)[|conflicts|..]);
            Distinct(added) && forall r :: r in added <==> Fresh(claims, conflicts, p, r)
    decreases |p|
  {
    RecordGrows(claims, conflicts, p);
    var all := RecordPairs(claims, conflicts, p);
    var added := Records(all[|conflicts|..]);
    if p == [] {
      assert forall r :: !Fresh(claims, conflicts, p, r);
    } else {
      var rest, next := p[1..], RecordPair(claims, conflicts, p[0]);
      AppendedRecords(claims, next, rest);
      var later := Records(all[|next|..]);
      assert forall a, b :: Mentions(p, a, b) <==> Mentions(rest, a, b) || (a, b) == p[0] || (b, a) == p[0];
      if next == conflicts {
        forall r ensures Fresh(claims, conflicts, p, r) <==> Fresh(claims, next, rest, r) {
          SkippedPairAddsNothing(claims, conflicts, p, r);
        }
      } else {
        var head := PairRecord(claims, p[0].0, p[0].1);
        assert added == [head] + later;
        FirstPairIsNew(claims, conflicts, p, later, head);
      }
    }
  }

  lemma RecordedFlips(conflicts: seq<Conflict>, a: string, b: string)
    ensures Recorded(conflicts, a, b) <==> Recorded(conflicts, b, a)
  {
  }

  lemma SkippedPairAddsNothing(claims: seq<Claim>, conflicts: seq<Conflict>, p: seq<Pair>, r: Record)
    requires p != [] && RecordPair(claims, conflicts, p[0]) == conflicts
    ensures Fresh(claims, conflicts, p, r) <==> Fresh(claims, conflicts, p[1..], r)
  {
    assert forall x :: x in p <==> x == p[0] || x in p[1..];
    RecordedFlips(conflicts, p[0].0, p[0].1);
    assert forall a, b :: Mentions(p, a, b) <==> Mentions(p[1..], a, b) || (a, b) == p[0] || (b, a) == p[0];
  }

  lemma FirstPairIsNew(claims: seq<Claim>, conflicts: seq<Conflict>, p: seq<Pair>, later: seq<Record>, head: Record)
    requires p != [] && Recordable(claims, p[0].0, p[0].1) && !Recorded(conflicts, p[0].0, p[0].1)
    requires head == PairRecord(claims, p[0].0, p[0].1)
    requires forall r :: r in later <==> Fresh(claims, RecordPair(claims, conflicts, p[0]), p[1..], r)
    ensures head !in later
    ensures forall r :: r in [head] + later <==> Fresh(claims, conflicts, p, r)
  {
    hide Fresh, RecordPair, PairRecord;
    forall r ensures r in [head] + later <==> Fresh(claims, conflicts, p, r) { FreshOrHead(claims, conflicts, p, r); }
    FreshOrHead(claims, conflicts, p, head);
  }

  /** What is new for a batch is the record of its first pair, or new for the rest once that is on record. */
  lemma FreshOrHead(claims: seq<Claim>, conflicts: seq<Conflict>, p: seq<Pair>, r: Record)
    requires p != [] && Recordable(claims, p[0].0, p[0].1) && !Recorded(conflicts, p[0].0, p[0].1)
    ensures var head := PairRecord(claims, p[0].0, p[0].1);
      Fresh(claims, conflicts, p, r) <==> r == head || Fresh(claims, RecordPair(claims, conflicts, p[0]), p[1..], r)
    ensures !Fresh(claims, RecordPair(claims, conflicts, p[0]), p[1..], PairRecord(claims, p[0].0, p[0].1))
  {
    hide RecordPair, Recordable, PairRecord;
    var x, y := p[0].0, p[0].1;
    var head, next := PairRecord(claims, x, y), RecordPair(claims, conflicts, p[0]);
    RecordedFlips(conflicts, x, y);
    assert forall z :: z in p <==> z == p[0] || z in p[1..];
    forall a, b ensures Recorded(next, a, b) <==> Recorded(conflicts, a, b) || (a in {x, y} && b in {x, y}) {
      RecordedAfter(claims, conflicts, p[0], a, b);
    }
    if Fresh(claims, next, p[1..], r) {
      var a, b :| Mentions(p[1..], a, b) && Recordable(claims, a, b) && !Recorded(next, a, b) && r == PairRecord(claims, a, b);
      assert Mentions(p, a, b);
    }
    if Fresh(claims, conflicts, p, r) && r != head {
      var a, b :| Mentions(p, a, b) && Recordable(claims, a, b) && !Recorded(conflicts, a, b) && r == PairRecord(claims, a, b);
      SamePairSameRecord(claims, x, y, a, b);
      assert Mentions(p[1..], a, b) && !Recorded(next, a, b);
    }
    PairRecordFlips(claims, x, y);
    forall a, b | Recordable(claims, a, b) ensures head == PairRecord(claims, a, b) ==> Recorded(next, a, b) {
      PairRecordFlips(claims, a, b);
    }
    assert Mentions(p, x, y);
  }

  lemma SamePairSameRecord(claims: seq<Claim>, x: string, y: string, a: string, b: string)
    requires Recordable(claims, x, y) && Recordable(claims, a, b)
    ensures a in {x, y} && b in {x, y} ==> PairRecord(claims, a, b) == PairRecord(claims, x, y)
  {
    PairRecordFlips(claims, x, y);
  }

  lemma RecordedAfter(claims: seq<Claim>, conflicts: seq<Conflict>, p: Pair, a: string, b: string)
    requires Recordable(claims, p.0, p.1) && !Recorded(conflicts, p.0, p.1)
    ensures Recorded(RecordPair(claims, conflicts, p), a, b)
       <==> Recorded(conflicts, a, b) || (a in {p.0, p.1} && b in {p.0, p.1})
  {
    var next := RecordPair(claims, conflicts, p);
    var c := next[|conflicts|];
    assert c.claimIds == [p.0, p.1] && c in next;
    assert forall x :: x in next <==> x in conflicts || x == c;
  }

  /** A claim's priority depends only on which records there are. */
  lemma TallyByRecords(a: seq<Conflict>, b: seq<Conflict>, id: string)
    requires forall r :: r in Records(a) ==> r in Records(b)
    ensures Tally(a, id) <= Tally(b, id)
  {
    if Tally(a, id) >= 0 {
      var c :| c in a && Vote(c, id) == Tally(a, id);
      var i :| 0 <= i < |a| && a[i] == c;
      assert Records(a)[i] in Records(b);
      var j :| 0 <= j < |b| && Records(b)[j] == RecordOf(c);
      assert id in RecordOf(c).ids && id in RecordOf(b[j]).ids;
      assert Vote(b[j], id) == Vote(c, id) && b[j] in b;
    }
  }

  lemma SameRecordsRecorded(claims: seq<Claim>, conflicts: seq<Conflict>, p: seq<Pair>, q: seq<Pair>)
    requires forall a, b :: Mentions(p, a, b) <==> Mentions(q, a, b)
    ensures multiset(Records(RecordPairs(claims, conflicts, p))) == multiset(Records(RecordPairs(claims, conflicts, q)))
  {
    hide Fresh, RecordPairs, Mentions;
    var cp, cq := RecordPairs(claims, conflicts, p), RecordPairs(claims, conflicts, q);
    var n := |conflicts|;
    AppendedRecords(claims, conflicts, p);
    AppendedRecords(claims, conflicts, q);
    FreshByMention(claims, conflicts, p, q);
    SameDistinctElements(Records(cp[n..]), Records(cq[n..]));
    assert Records(cp) == Records(conflicts) + Records(cp[n..]);
    assert Records(cq) == Records(conflicts) + Records(cq[n..]);
  }

  lemma SameRecordsSettle(g: Graph, cp: seq<Conflict>, cq: seq<Conflict>)
    requires multiset(Records(cp)) == multiset(Records(cq))
    ensures Settle(g.(conflicts := cp)).claims == Settle(g.(conflicts := cq)).claims
    ensures Settle(g.(conflicts := cp)).topics == Settle(g.(conflicts := cq)).topics
  {
    hide Tally, Defeated;
    assert forall r :: r in Records(cp) <==> r in multiset(Records(cp));
    assert forall r :: r in Records(cq) <==> r in multiset(Records(cq));
    forall i | 0 <= i < |g.claims| ensures ReduceClaim(cp, g.claims[i]) == ReduceClaim(cq, g.claims[i]) {
      TallyByRecords(cp, cq, g.claims[i].id);
      TallyByRecords(cq, cp, g.claims[i].id);
    }
    var claims := ReduceClaims(cp, g.claims);
    assert claims == ReduceClaims(cq, g.claims);
    forall i | 0 <= i < |g.topics| ensures ReduceTopic(cp, claims, g.topics[i]) == ReduceTopic(cq, claims, g.topics[i]) {
      DefeatedByRecords(cp, cq, g.topics[i].claimId);
      DefeatedByRecords(cq, cp, g.topics[i].claimId);
    }
  }

  /** Permuting, flipping or repeating the pairs of a batch changes neither claims nor topics,
      and leaves the same conflicts up to order, orientation and description. */
  lemma OrderDoesNotMatter(g: Graph, p: seq<Pair>, q: seq<Pair>)
    requires forall a, b :: Mentions(p, a, b) <==> Mentions(q, a, b)
    ensures Adjudicate(g, p).claims == Adjudicate(g, q).claims
    ensures Adjudicate(g, p).topics == Adjudicate(g, q).topics
    ensures multiset(Records(Adjudicate(g, p).conflicts)) == multiset(Records(Adjudicate(g, q).conflicts))
    ensures g.conflicts <= Adjudicate(g, p).conflicts
  {
    SameRecordsRecorded(g.claims, g.conflicts, p, q);
    SameRecordsSettle(g, RecordPairs(g.claims, g.conflicts, p), RecordPairs(g.claims, g.conflicts, q));
    RecordGrows(g.claims, g.conflicts, p);
  }

  lemma FreshByMention(claims: seq<Claim>, conflicts: seq<Conflict>, p: seq<Pair>, q: seq<Pair>)
    requires forall a, b :: Mentions(p, a, b) <==> Mentions(q, a, b)
    ensures forall r :: Fresh(claims, conflicts, p, r) <==> Fresh(claims, conflicts, q, r)
  {
    hide Mentions, Recordable, Recorded, PairRecord;
  }

  lemma DefeatedByRecords(a: seq<Conflict>, b: seq<Conflict>, id: string)
    requires forall r :: r in Records(a) ==> r in Records(b)
    ensures Defeated(a, id) ==> Defeated(b, id)
  {
    if Defeated(a, id) {
      var c :| c in a && c.loser == Some(id);
      var i :| 0 <= i < |a| && a[i] == c;
      assert Records(a)[i] in Records(b);
      var j :| 0 <= j < |b| && Records(b)[j] == RecordOf(c);
      assert b[j] in b;
    }
  }

  // -------------------------------------------------- what decides a claim

  /** Precedence of the best evidence of the claim named `id`; 5 when it has none. */
  function Strength(claims: seq<Claim>, id: string): (n: nat)
    requires FindClaim(claims, id).Some?
    ensures n <= 5
  {
    var best := BestClass(FindClaim(claims, id).value.supporting);
    if best.None? then 5 else Precedence(best.value)
  }

  predicate Opposes(claims: seq<Claim>, p: seq<Pair>, a: string, b: string) {
    Mentions(p, a, b) && Recordable(claims, a, b)
  }

  ghost predicate Contested(claims: seq<Claim>, p: seq<Pair>, id: string) { exists b :: Opposes(claims, p, id, b) }

  /** The priority a pair gives its first claim: a loss, a tie, a shared lack of evidence, or a win. */
  function Bout(claims: seq<Claim>, a: string, b: string): int
    requires Recordable(claims, a, b)
  {
    if Strength(claims, b) < Strength(claims, a) then 3
    else if Strength(claims, a) < Strength(claims, b) then 0
    else if Strength(claims, a) < 5 then 2 else 1
  }

  lemma VoteIsBout(claims: seq<Claim>, a: string, b: string)
    requires Recordable(claims, a, b)
    ensures Vote(NewConflict(FindClaim(claims, a).value, FindClaim(claims, b).value), a) == Bout(claims, a, b)
  {
  }

  /** On a graph without earlier conflicts, the tally is the worst bout of the claim. */
  lemma TallyIsWorstBout(claims: seq<Claim>, p: seq<Pair>, id: string)
    ensures var v := Tally(RecordPairs(claims, [], p), id);
      && (forall b :: Opposes(claims, p, id, b) ==> Bout(claims, id, b) <= v)
      && (v >= 0 ==> exists b :: Opposes(claims, p, id, b) && Bout(claims, id, b) == v)
  {
    hide RecordPairs, Mentions, Recorded, Vote;
    var all := RecordPairs(claims, [], p);
    AppendedRecords(claims, [], p);
    assert all[0..] == all;
    var v := Tally(all, id);
    forall b | Opposes(claims, p, id, b) ensures Bout(claims, id, b) <= v {
      BoutIsRecorded(claims, p, id, b, all);
    }
    if v >= 0 {
      var c :| c in all && Vote(c, id) == v;
      var i :| 0 <= i < |all| && all[i] == c;
      assert Records(all)[i] in Records(all);
      var b := VoteIsFought(claims, p, c, id);
    }
  }

  lemma BoutIsRecorded(claims: seq<Claim>, p: seq<Pair>, id: string, b: string, all: seq<Conflict>)
    requires Opposes(claims, p, id, b)
    requires forall r :: r in Records(all) <==> Fresh(claims, [], p, r)
    ensures Bout(claims, id, b) <= Tally(all, id)
  {
    VoteIsBout(claims, id, b);
    assert Fresh(claims, [], p, PairRecord(claims, id, b));
    var i :| 0 <= i < |all| && Records(all)[i] == PairRecord(claims, id, b);
    VoteByRecord(all[i], NewConflict(FindClaim(claims, id).value, FindClaim(claims, b).value), id);
    assert all[i] in all;
  }

  lemma VoteIsFought(claims: seq<Claim>, p: seq<Pair>, c: Conflict, id: string) returns (o: string)
    requires Fresh(claims, [], p, RecordOf(c)) && Vote(c, id) >= 0
    ensures Opposes(claims, p, id, o) && Bout(claims, id, o) == Vote(c, id)
  {
    var a, b :| Mentions(p, a, b) && Recordable(claims, a, b) && RecordOf(c) == PairRecord(claims, a, b);
    PairRecordFlips(claims, a, b);
    assert id in RecordOf(c).ids;
    o := if id == a then b else a;
    VoteIsBout(claims, id, o);
    VoteByRecord(c, NewConflict(FindClaim(claims, id).value, FindClaim(claims, o).value), id);
  }

  lemma VoteByRecord(c: Conflict, d: Conflict, id: string)
    requires RecordOf(c) == RecordOf(d)
    ensures Vote(c, id) == Vote(d, id)
  {
    assert id in c.claimIds <==> id in RecordOf(c).ids;
    assert id in d.claimIds <==> id in RecordOf(d).ids;
  }

  /** Where no conflict was on record, the batch decides each claim by comparing its best
      evidence with its opponents': refuted by a stronger one, else conflicted with an equal
      one, else inconclusive without evidence, else confirmed. Nothing else changes. */
  lemma StateIsDecidedByOpponents(g: Graph, p: seq<Pair>, i: nat)
    requires g.conflicts == [] && i < |g.claims|
    ensures var id, state := g.claims[i].id, Adjudicate(g, p).claims[i].state;
      && (!Contested(g.claims, p, id) ==> state == g.claims[i].state)
      && (Contested(g.claims, p, id) ==>
        && (state == Refuted <==> exists b :: Opposes(g.claims, p, id, b) && Strength(g.claims, b) < Strength(g.claims, id))
        && (state == Conflicted <==>
              && (forall b :: Opposes(g.claims, p, id, b) ==> Strength(g.claims, id) <= Strength(g.claims, b))
              && (exists b :: Opposes(g.claims, p, id, b) && Strength(g.claims, b) == Strength(g.claims, id) < 5))
        && (state == Inconclusive <==>
              Strength(g.claims, id) == 5 && forall b :: Opposes(g.claims, p, id, b) ==> Strength(g.claims, b) == 5)
        && (state == Confirmed <==> forall b :: Opposes(g.claims, p, id, b) ==> Strength(g.claims, id) < Strength(g.claims, b)))
  {
    hide RecordPairs, Opposes, Tally, Strength;
    TallyIsWorstBout(g.claims, p, g.claims[i].id);
  }

  /** No two opponents are both confirmed. */
  lemma OpponentsAreNotBothConfirmed(g: Graph, p: seq<Pair>, i: nat, j: nat)
    requires g.conflicts == [] && i < |g.claims| && j < |g.claims|
    requires Opposes(g.claims, p, g.claims[i].id, g.claims[j].id)
    ensures !(Adjudicate(g, p).claims[i].state == Confirmed == Adjudicate(g, p).claims[j].state)
  {
    StateIsDecidedByOpponents(g, p, i);
    StateIsDecidedByOpponents(g, p, j);
    assert Opposes(g.claims, p, g.claims[j].id, g.claims[i].id);
  }

  /** A path of opponents. */
  ghost predicate Linked(claims: seq<Claim>, p: seq<Pair>, path: seq<string>) {
    path != [] && forall k :: 0 <= k < |path| - 1 ==> Opposes(claims, p, path[k], path[k + 1])
  }

  /** A claim at least as strong as everything it is linked to is never refuted. */
  lemma StrongestIsNeverRefuted(g: Graph, p: seq<Pair>, i: nat)
    requires g.conflicts == [] && i < |g.claims| && Contested(g.claims, p, g.claims[i].id)
    requires forall path :: Linked(g.claims, p, path) && path[0] == g.claims[i].id && FindClaim(g.claims, path[|path| - 1]).Some?
               ==> Strength(g.claims, g.claims[i].id) <= Strength(g.claims, path[|path| - 1])
    ensures Adjudicate(g, p).claims[i].state != Refuted
  {
    hide Adjudicate, Strength;
    StateIsDecidedByOpponents(g, p, i);
    var id := g.claims[i].id;
    forall b | Opposes(g.claims, p, id, b) ensures Strength(g.claims, id) <= Strength(g.claims, b) {
      assert Linked(g.claims, p, [id, b]);
      var path := [id, b];
      assert path[|path| - 1] == b;
    }
  }

  lemma OpposesBothWays(claims: seq<Claim>, p: seq<Pair>, a: string, b: string)
    requires Opposes(claims, p, a, b)
    ensures Opposes(claims, p, b, a) && FindClaim(claims, a).Some? && FindClaim(claims, b).Some?
  {
  }

  /** From every claim, opponents lead to one the batch does not refute: no conflict takes down everybody. */
  lemma {:induction false} SomebodyStands(g: Graph, p: seq<Pair>, id: string) returns (path: seq<string>, k: nat)
    requires g.conflicts == [] && FindClaim(g.claims, id).Some? && Contested(g.claims, p, id)
    ensures Linked(g.claims, p, path) && path[0] == id
    ensures k < |g.claims| && g.claims[k].id == path[|path| - 1] && Adjudicate(g, p).claims[k].state != Refuted
    decreases Strength(g.claims, id)
  {
    hide Opposes, Strength, Adjudicate;
    k :| 0 <= k < |g.claims| && g.claims[k] == FindClaim(g.claims, id).value;
    path := [id];
    if Adjudicate(g, p).claims[k].state == Refuted {
      var b := RefutedByStronger(g, p, k);
      OpposesBothWays(g.claims, p, id, b);
      var rest;
      rest, k := SomebodyStands(g, p, b);
      path := [id] + rest;
      forall n | 0 <= n < |path| - 1 ensures Opposes(g.claims, p, path[n], path[n + 1]) {
        if n > 0 { assert path[n] == rest[n - 1] && path[n + 1] == rest[n]; }
      }
    }
  }

  lemma RefutedByStronger(g: Graph, p: seq<Pair>, k: nat) returns (b: string)
    requires g.conflicts == [] && k < |g.claims| && Contested(g.claims, p, g.claims[k].id)
    requires Adjudicate(g, p).claims[k].state == Refuted
    ensures Opposes(g.claims, p, g.claims[k].id, b) && Strength(g.claims, b) < Strength(g.claims, g.claims[k].id)
  {
    hide Adjudicate;
    StateIsDecidedByOpponents(g, p, k);
    b :| Opposes(g.claims, p, g.claims[k].id, b) && Strength(g.claims, b) < Strength(g.claims, g.claims[k].id);
  }

  /** A refutation outlives every later batch. */
  lemma RefutationIsFinal(g: Graph, p: seq<Pair>, q: seq<Pair>, i: nat)
    requires i < |g.claims|
    requires exists c :: c in Adjudicate(g, p).conflicts && c.loser == Some(g.claims[i].id) && g.claims[i].id in c.claimIds
    ensures Adjudicate(Adjudicate(g, p), q).claims[i].state == Refuted
  {
    BatchesCompose(g, p, q);
    var first := RecordPairs(g.claims, g.conflicts, p);
    RecordSplit(g.claims, g.conflicts, p, q);
    RecordGrows(g.claims, first, q);
    var c :| c in first && c.loser == Some(g.claims[i].id) && g.claims[i].id in c.claimIds;
    assert c in RecordPairs(g.claims, g.conflicts, p + q) && Vote(c, g.claims[i].id) == 3;
  }
}
