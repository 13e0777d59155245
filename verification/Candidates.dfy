/** The candidate queue and the evidence groups of the orchestrator plan (`src/candidate.rs`). */
module Candidates {
  import opened Collections
  import opened ReviewSurfaces
  import opened Strings
  import Sorting
  import Decimal
  import Text

  const SCHEMA := "ub-review.candidate.v1"

  /** What the queue takes from elsewhere: the short digest, the parked-follow-up test, and the suggestion gate. */
  datatype Helpers = Helpers(short: string -> string, parked: SummaryFinding -> bool, normalize: Option<string> -> Option<string>)

  // --------------------------------------------------------------------- queue

  const POLISH := ["submaterial polish", "sub-material polish", "below materiality", "below the materiality",
                   "polish suggestion", "style/polish"]

  predicate IsPolish(f: SummaryFinding) {
    f.severity == "low" && ContainsAny(Lower(f.reason + "\n" + f.evidence), POLISH)
  }

  function Disposition(h: Helpers, f: SummaryFinding): string {
    var reason := Lower(f.reason);
    if h.parked(f) then "parked-follow-up"
    else if ContainsAny(reason, ["false premise", "refuted"]) || ContainsAny(Lower(f.evidence), ["false premise", "refuted"])
    then "refuted"
    else if ContainsAny(reason, ["duplicate inline candidate merged", "summary-only guard rejected candidate"]) || IsPolish(f)
    then "dropped"
    else "summary-only"
  }

  function InlineText(c: InlineComment): string {
    "inline-comment\n" + c.lane + "\n" + c.path + "\n" + Decimal.Digits(c.line) + "\n" + c.body + "\n" + c.evidence + "\n" +
    (if c.suggestion.Some? then c.suggestion.value else "")
  }

  function FindingText(f: SummaryFinding): string {
    "summary-only-finding\n" + f.lane + "\n" + f.reason + "\n" + f.evidence
  }

  function Id(index: nat, short: string): string { "candidate-" + Decimal.Padded(index, 4) + "-" + short }

  function FromInline(h: Helpers, index: nat, c: InlineComment): Candidate {
    Candidate(SCHEMA, Id(index, h.short(InlineText(c))), c.lane, "inline-comment", "accepted-inline", "inline", c.severity,
      c.confidence, c.body, c.evidence, Some(c.path), Some(c.line), Some(c.side), c.suggestion)
  }

  function FromFinding(h: Helpers, index: nat, f: SummaryFinding): Candidate {
    Candidate(SCHEMA, Id(index, h.short(FindingText(f))), f.lane, "summary-only-finding", "summary-only", Disposition(h, f),
      f.severity, f.confidence, f.reason, f.evidence, None, None, None, None)
  }

  /** The queue: the comments, then the findings, numbered from zero throughout. */
  function Queue(h: Helpers, comments: seq<InlineComment>, findings: seq<SummaryFinding>): (q: seq<Candidate>)
    ensures |q| == |comments| + |findings|
    ensures forall i :: 0 <= i < |comments| ==> q[i] == FromInline(h, i, comments[i])
    ensures forall i :: 0 <= i < |findings| ==> q[|comments| + i] == FromFinding(h, |comments| + i, findings[i])
  {
    seq(|comments| + |findings|, i requires 0 <= i < |comments| + |findings| =>
      if i < |comments| then FromInline(h, i, comments[i]) else FromFinding(h, i, findings[i - |comments|]))
  }

  /** `build_candidate_records`. */
  method BuildCandidates(h: Helpers, comments: seq<InlineComment>, findings: seq<SummaryFinding>) returns (candidates: seq<Candidate>)
    ensures candidates == Queue(h, comments, findings)
  {
    hide FromInline, FromFinding;
    candidates := [];
    for i := 0 to |comments|
      invariant |candidates| == i
      invariant forall j :: 0 <= j < i ==> candidates[j] == FromInline(h, j, comments[j])
    {
      candidates := candidates + [FromInline(h, |candidates|, comments[i])];
    }
    for i := 0 to |findings|
      invariant |candidates| == |comments| + i
      invariant forall j :: 0 <= j < |comments| ==> candidates[j] == FromInline(h, j, comments[j])
      invariant forall j :: 0 <= j < i ==> candidates[|comments| + j] == FromFinding(h, |comments| + j, findings[j])
    {
      candidates := candidates + [FromFinding(h, |candidates|, findings[i])];
    }
    var q := Queue(h, comments, findings);
    forall j | 0 <= j < |q| ensures candidates[j] == q[j] {
      if j >= |comments| { assert candidates[|comments| + (j - |comments|)] == q[|comments| + (j - |comments|)]; }
    }
  }

  /** The zero-padded index alone keeps identifiers apart, whatever the digests. */
  lemma IdsDiffer(h: Helpers, comments: seq<InlineComment>, findings: seq<SummaryFinding>, i: nat, j: nat)
    requires i < j < |comments| + |findings|
    ensures Queue(h, comments, findings)[i].id != Queue(h, comments, findings)[j].id
  {
    hide Disposition, InlineText, FindingText;
    var q := Queue(h, comments, findings);
    var a := h.short(if i < |comments| then InlineText(comments[i]) else FindingText(findings[i - |comments|]));
    var b := h.short(if j < |comments| then InlineText(comments[j]) else FindingText(findings[j - |comments|]));
    IdIsNumbered(h, comments, findings, i);
    IdIsNumbered(h, comments, findings, j);
    NumberIsReadable(i, a);
    NumberIsReadable(j, b);
    Decimal.PaddedDiffer(i, j, 4);
  }

  lemma IdIsNumbered(h: Helpers, comments: seq<InlineComment>, findings: seq<SummaryFinding>, i: nat)
    requires i < |comments| + |findings|
    ensures Queue(h, comments, findings)[i].id ==
      Id(i, h.short(if i < |comments| then InlineText(comments[i]) else FindingText(findings[i - |comments|])))
  {
    hide Disposition, InlineText, FindingText, Id;
    if i >= |comments| {
      assert Queue(h, comments, findings)[|comments| + (i - |comments|)] == FromFinding(h, i, findings[i - |comments|]);
    }
  }

  lemma NumberIsReadable(index: nat, short: string)
    ensures Text.Split(Id(index, short)[10..], '-')[0] == Decimal.Padded(index, 4)
  {
    hide Decimal.Padded;
    Decimal.PaddedIsDigits(index, 4);
    assert forall ch :: ch in Decimal.DIGITS ==> ch != '-';
    var number := Decimal.Padded(index, 4);
    assert Id(index, short)[10..] == number + ['-'] + short;
    Text.SplitFirst(number, short, '-');
  }

  // ------------------------------------------------------------------- reading

  predicate KnownDisposition(d: string) {
    d == "inline" || d == "summary-only" || d == "parked-follow-up" || d == "refuted" || d == "dropped"
  }

  datatype Surfaces = Surfaces(comments: seq<InlineComment>, findings: seq<SummaryFinding>)

  datatype Surface = Comment(comment: InlineComment) | Finding(finding: SummaryFinding) | Refused

  /** One candidate read back. */
  function ReadOne(h: Helpers, c: Candidate): Surface {
    if c.schema != SCHEMA || !KnownDisposition(c.disposition) then Refused
    else if c.source == "inline-comment" && c.status == "accepted-inline" then
      if c.disposition != "inline" || c.path.None? || c.line.None? || c.side != Some("RIGHT") then Refused
      else Comment(InlineComment(c.lane, c.severity, c.confidence, c.path.value, c.line.value, c.side.value, c.claim, c.evidence,
                                 h.normalize(c.suggestion)))
    else if c.source == "summary-only-finding" && c.status == "summary-only" then
      if c.disposition == "inline" || c.path.Some? || c.line.Some? || c.side.Some? || c.suggestion.Some? then Refused
      else Finding(SummaryFinding(c.lane, c.severity, c.confidence, c.claim, c.evidence))
    else Refused
  }

  /** The surfaces of the first `n` candidates, unless one is refused. */
  function ReadQueue(h: Helpers, candidates: seq<Candidate>, n: nat): Option<Surfaces>
    requires n <= |candidates|
  {
    if n == 0 then Some(Surfaces([], []))
    else match (ReadQueue(h, candidates, n - 1), ReadOne(h, candidates[n - 1]))
         case (Some(s), Comment(c)) => Some(s.(comments := s.comments + [c]))
         case (Some(s), Finding(f)) => Some(s.(findings := s.findings + [f]))
         case _ => None
  }

  /** `candidate_review_surfaces`. */
  method CandidateReviewSurfaces(h: Helpers, candidates: seq<Candidate>) returns (r: Option<Surfaces>)
    ensures r == ReadQueue(h, candidates, |candidates|)
  {
    var comments, findings := [], [];
    for n := 0 to |candidates|
      invariant ReadQueue(h, candidates, n) == Some(Surfaces(comments, findings))
    {
      var c := candidates[n];
      var one := ReadOne(h, c);
      if one.Refused? {
        ReadStops(h, candidates, n + 1, |candidates|);
        return None;
      }
      if one.Comment? { comments := comments + [one.comment]; } else { findings := findings + [one.finding]; }
    }
    r := Some(Surfaces(comments, findings));
  }

  lemma {:induction false} ReadStops(h: Helpers, candidates: seq<Candidate>, n: nat, m: nat)
    requires n <= m <= |candidates| && ReadQueue(h, candidates, n).None?
    ensures ReadQueue(h, candidates, m).None?
  {
    if n < m { ReadStops(h, candidates, n, m - 1); }
  }

  function Normalized(h: Helpers, comments: seq<InlineComment>): (r: seq<InlineComment>)
    ensures |r| == |comments|
  {
    seq(|comments|, i requires 0 <= i < |comments| => comments[i].(suggestion := h.normalize(comments[i].suggestion)))
  }

  predicate AllRight(comments: seq<InlineComment>) { forall i :: 0 <= i < |comments| ==> comments[i].side == "RIGHT" }

  /**
   * The queue returns what was put in exactly when every comment is on the RIGHT side: the comments in order with only their
   * suggestions normalized, and the findings as they were. Otherwise it refuses.
   */
  lemma QueueRoundTrip(h: Helpers, comments: seq<InlineComment>, findings: seq<SummaryFinding>)
    ensures var q := Queue(h, comments, findings);
      ReadQueue(h, q, |q|) == if AllRight(comments) then Some(Surfaces(Normalized(h, comments), findings)) else None
  {
    hide ReadOne, FromInline, FromFinding, AllRight, Normalized;
    ReadComments(h, comments, findings, |comments|);
    assert comments[..|comments|] == comments && findings[..|findings|] == findings;
    ReadFindings(h, comments, findings, |findings|);
  }

  lemma {:induction false} ReadComments(h: Helpers, comments: seq<InlineComment>, findings: seq<SummaryFinding>, n: nat)
    requires n <= |comments|
    ensures ReadQueue(h, Queue(h, comments, findings), n) ==
      if AllRight(comments[..n]) then Some(Surfaces(Normalized(h, comments[..n]), [])) else None
  {
    hide Disposition, InlineText, Id;
    if n > 0 {
      ReadComments(h, comments, findings, n - 1);
      var c := comments[n - 1];
      assert comments[..n] == comments[..n - 1] + [c];
      assert Normalized(h, comments[..n]) == Normalized(h, comments[..n - 1]) + [c.(suggestion := h.normalize(c.suggestion))];
      assert AllRight(comments[..n]) <==> AllRight(comments[..n - 1]) && c.side == "RIGHT";
    }
  }

  lemma DispositionIsKnown(h: Helpers, f: SummaryFinding)
    ensures KnownDisposition(Disposition(h, f)) && Disposition(h, f) != "inline"
  {
    hide ContainsAny, IsPolish;
  }

  lemma {:induction false} ReadFindings(h: Helpers, comments: seq<InlineComment>, findings: seq<SummaryFinding>, n: nat)
    requires n <= |findings|
    requires ReadQueue(h, Queue(h, comments, findings), |comments|) ==
      if AllRight(comments) then Some(Surfaces(Normalized(h, comments), [])) else None
    ensures ReadQueue(h, Queue(h, comments, findings), |comments| + n) ==
      if AllRight(comments) then Some(Surfaces(Normalized(h, comments), findings[..n])) else None
  {
    hide Queue, ReadQueue, ReadOne, AllRight, Normalized;
    if n > 0 {
      ReadFindings(h, comments, findings, n - 1);
      FindingReads(h, comments, findings, n - 1);
      ReadStep(h, Queue(h, comments, findings), |comments| + (n - 1), findings[n - 1]);
      assert findings[..n] == findings[..n - 1] + [findings[n - 1]];
    }
  }

  lemma ReadStep(h: Helpers, q: seq<Candidate>, m: nat, f: SummaryFinding)
    requires m < |q| && ReadOne(h, q[m]) == Finding(f)
    ensures ReadQueue(h, q, m + 1) ==
      if ReadQueue(h, q, m).None? then None
      else Some(Surfaces(ReadQueue(h, q, m).value.comments, ReadQueue(h, q, m).value.findings + [f]))
  {
    hide ReadOne;
  }

  lemma FindingReads(h: Helpers, comments: seq<InlineComment>, findings: seq<SummaryFinding>, n: nat)
    requires n < |findings|
    ensures ReadOne(h, Queue(h, comments, findings)[|comments| + n]) == Finding(findings[n])
  {
    hide Disposition, FindingText, Id, KnownDisposition;
    DispositionIsKnown(h, findings[n]);
    assert Queue(h, comments, findings)[|comments| + n] == FromFinding(h, |comments| + n, findings[n]);
  }

  // ------------------------------------------------------------ evidence groups

  /** `candidate_evidence_need` (src/follow_up_routing.rs). */
  function EvidenceNeed(c: Candidate): string {
    if c.disposition == "inline" then "accepted-inline-review"
    else if c.disposition == "parked-follow-up" then "parked-follow-up-confirmation"
    else if c.disposition == "refuted" then "refutation-confirmation"
    else if c.disposition == "dropped" then "dropped-candidate-audit"
    else
      var text := Lower(c.claim + "\n" + c.evidence);
      if ContainsAny(text, ["proof", "red", "green"]) then "proof-confirmation"
      else if ContainsAny(text, ["route", "sibling"]) then "source-route-confirmation"
      else if ContainsAny(text, ["test", "oracle"]) then "test-oracle-confirmation"
      else "summary-confirmation"
  }

  datatype GroupKey = GroupKey(disposition: string, need: string)

  function KeyOf(c: Candidate): GroupKey { GroupKey(c.disposition, EvidenceNeed(c)) }
  function InGroup(k: GroupKey): Candidate -> bool { (c: Candidate) => KeyOf(c) == k }
  function Members(k: GroupKey, candidates: seq<Candidate>): seq<Candidate> { Filter(InGroup(k), candidates) }

  function IdsOf(candidates: seq<Candidate>): (r: seq<string>)
    ensures |r| == |candidates| && forall i :: 0 <= i < |r| ==> r[i] == candidates[i].id
  {
    seq(|candidates|, i requires 0 <= i < |candidates| => candidates[i].id)
  }

  datatype Group = Group(id: string, need: string, disposition: string, candidateIds: seq<string>, lanes: set<string>, duplicates: nat)

  function GroupFor(h: Helpers, k: GroupKey, members: seq<Candidate>): Group {
    Group("evidence-group-" + h.short(k.disposition + "\n" + k.need), k.need, k.disposition, IdsOf(members),
      (set c | c in members :: c.lane), if |members| == 0 then 0 else |members| - 1)
  }

  predicate KeyLe(a: GroupKey, b: GroupKey) {
    Sorting.Less(a.disposition, b.disposition) || (a.disposition == b.disposition && !Sorting.Less(b.need, a.need))
  }

  lemma KeyOrderIsTotal()
    ensures Sorting.TotalPreorder(KeyLe)
  {
    forall a: string, b: string
      ensures !(Sorting.Less(a, b) && Sorting.Less(b, a)) && (Sorting.Less(a, b) || Sorting.Less(b, a) || a == b)
    {
      Sorting.Trichotomy(a, b);
    }
    forall a: string, b: string, c: string | Sorting.Less(a, b) && Sorting.Less(b, c) ensures Sorting.Less(a, c) {
      Sorting.LessTransitive(a, b, c);
    }
  }

  ghost predicate GroupsAre(groups: seq<Group>, keys: seq<GroupKey>, h: Helpers, candidates: seq<Candidate>) {
    |groups| == |keys| && forall i :: 0 <= i < |keys| ==> groups[i] == GroupFor(h, keys[i], Members(keys[i], candidates))
  }

  /** One group for each key that some candidate has, in the order of the keys. */
  ghost predicate Groups(groups: seq<Group>, h: Helpers, candidates: seq<Candidate>) {
    exists keys :: KeysOf(keys, candidates) && GroupsAre(groups, keys, h, candidates)
  }

  ghost predicate KeysOf(keys: seq<GroupKey>, candidates: seq<Candidate>) {
    Distinct(keys) && Sorting.Ascending(KeyLe, keys) && forall k :: k in keys <==> exists c :: c in candidates && KeyOf(c) == k
  }

  /** The grouping of `build_orchestrator_plan`. */
  method BuildGroups(h: Helpers, candidates: seq<Candidate>) returns (groups: seq<Group>)
    ensures Groups(groups, h, candidates)
  {
    hide KeyOf, GroupFor, Members, KeyLe;
    var grouped := GroupByKey(candidates);
    KeyOrderIsTotal();
    var keys := Sorting.InOrder(KeyLe, grouped.Keys);
    groups := [];
    for i := 0 to |keys|
      invariant |groups| == i && forall j :: 0 <= j < i ==> groups[j] == GroupFor(h, keys[j], Members(keys[j], candidates))
    {
      assert keys[i] in keys;
      groups := groups + [GroupFor(h, keys[i], grouped[keys[i]])];
    }
    TheGroups(groups, keys, h, candidates);
  }

  lemma TheGroups(groups: seq<Group>, keys: seq<GroupKey>, h: Helpers, candidates: seq<Candidate>)
    requires KeysOf(keys, candidates) && GroupsAre(groups, keys, h, candidates)
    ensures Groups(groups, h, candidates)
  {
  }

  ghost predicate Grouped(m: map<GroupKey, seq<Candidate>>, candidates: seq<Candidate>) {
    forall k: GroupKey :: (if k in m then m[k] else []) == Members(k, candidates) && (k in m ==> m[k] != [])
  }

  method GroupByKey(candidates: seq<Candidate>) returns (grouped: map<GroupKey, seq<Candidate>>)
    ensures forall k :: k in grouped <==> exists c :: c in candidates && KeyOf(c) == k
    ensures forall k :: k in grouped ==> grouped[k] == Members(k, candidates)
  {
    hide KeyOf, Filter;
    grouped := NoGroups();
    for n := 0 to |candidates|
      invariant Grouped(grouped, candidates[..n])
    {
      var c := candidates[n];
      assert candidates[..n + 1] == candidates[..n] + [c];
      OneMember(grouped, candidates[..n], c);
      grouped := grouped[KeyOf(c) := (if KeyOf(c) in grouped then grouped[KeyOf(c)] else []) + [c]];
    }
    assert candidates[..|candidates|] == candidates;
    KeysOfGroups(grouped, candidates);
  }

  method NoGroups() returns (m: map<GroupKey, seq<Candidate>>)
    ensures Grouped(m, [])
  {
    m := map[];
  }

  lemma NewMember(c: Candidate)
    ensures forall k: GroupKey :: Members(k, [c]) == if KeyOf(c) == k then [c] else []
  {
    hide KeyOf;
  }

  lemma OneMember(m: map<GroupKey, seq<Candidate>>, candidates: seq<Candidate>, c: Candidate)
    requires Grouped(m, candidates)
    ensures Grouped(m[KeyOf(c) := (if KeyOf(c) in m then m[KeyOf(c)] else []) + [c]], candidates + [c])
  {
    hide KeyOf, Filter;
    NewMember(c);
    forall k: GroupKey ensures Members(k, candidates + [c]) == Members(k, candidates) + (if KeyOf(c) == k then [c] else []) {
      FilterAppend(InGroup(k), candidates, [c]);
      assert Members(k, [c]) == if KeyOf(c) == k then [c] else [];
      assert Members(k, candidates) + [] == Members(k, candidates);
    }
  }

  lemma KeysOfGroups(m: map<GroupKey, seq<Candidate>>, candidates: seq<Candidate>)
    requires Grouped(m, candidates)
    ensures forall k :: k in m <==> exists c :: c in candidates && KeyOf(c) == k
  {
    hide KeyOf;
    forall k ensures k in m <==> exists c :: c in candidates && KeyOf(c) == k {
      var members := Members(k, candidates);
      if k in m { assert members[0] in members; }
      forall c | c in candidates && KeyOf(c) == k ensures k in m { assert InGroup(k)(c) && c in members; }
    }
  }

  /** The members counted by a plan: each group's duplicates and the one they duplicate. */
  function Counted(groups: seq<Group>): nat {
    if groups == [] then 0 else groups[0].duplicates + 1 + Counted(groups[1..])
  }

  /** The groups count every candidate once. */
  lemma GroupsPartition(h: Helpers, candidates: seq<Candidate>, groups: seq<Group>)
    requires Groups(groups, h, candidates)
    ensures Counted(groups) == |candidates|
    ensures forall i :: 0 <= i < |groups| ==> |groups[i].candidateIds| == groups[i].duplicates + 1
  {
    hide EvidenceNeed;
    var keys :| KeysOf(keys, candidates) && GroupsAre(groups, keys, h, candidates);
    forall i | 0 <= i < |keys| ensures |Members(keys[i], candidates)| >= 1 {
      assert keys[i] in keys;
      var c :| c in candidates && KeyOf(c) == keys[i];
      assert InGroup(keys[i])(c);
    }
    CountedMembers(h, candidates, groups, keys);
    forall i | 0 <= i < |candidates| ensures InSome(keys)(candidates[i]) {
      assert KeyOf(candidates[i]) in keys;
    }
    Sorting.CountAll(InSome(keys), candidates);
  }

  function InSome(keys: seq<GroupKey>): Candidate -> bool { (c: Candidate) => KeyOf(c) in keys }

  lemma {:induction false} CountedMembers(h: Helpers, candidates: seq<Candidate>, groups: seq<Group>, keys: seq<GroupKey>)
    requires Distinct(keys) && GroupsAre(groups, keys, h, candidates)
    requires forall i :: 0 <= i < |keys| ==> |Members(keys[i], candidates)| >= 1
    ensures Counted(groups) == |Filter(InSome(keys), candidates)|
  {
    hide EvidenceNeed;
    if keys == [] {
      FilterKeepsNone(InSome(keys), candidates);
    } else {
      CountedMembers(h, candidates, groups[1..], keys[1..]);
      assert forall k :: k in keys <==> k == keys[0] || k in keys[1..];
      Sorting.CountSplits(InGroup(keys[0]), InSome(keys[1..]), InSome(keys), candidates);
    }
  }

  /** A queue's candidate is listed, by its identifier, in exactly one group: that of its disposition and need. */
  lemma ListedInOneGroup(h: Helpers, comments: seq<InlineComment>, findings: seq<SummaryFinding>, groups: seq<Group>, n: nat) returns (i: nat)
    requires Groups(groups, h, Queue(h, comments, findings)) && n < |comments| + |findings|
    ensures i < |groups|
    ensures var c := Queue(h, comments, findings)[n];
      && groups[i].disposition == c.disposition && groups[i].need == EvidenceNeed(c)
      && forall j :: 0 <= j < |groups| ==> (c.id in groups[j].candidateIds <==> j == i)
  {
    hide EvidenceNeed, Queue;
    var q := Queue(h, comments, findings);
    var keys :| KeysOf(keys, q) && GroupsAre(groups, keys, h, q);
    var c := q[n];
    assert c in q && KeyOf(c) in keys;
    i :| 0 <= i < |keys| && keys[i] == KeyOf(c);
    IdsAreDistinct(h, comments, findings);
    forall j | 0 <= j < |groups| ensures c.id in groups[j].candidateIds <==> j == i {
      ListedByKey(q, keys[j], c);
      if j != i { assert keys[j] != keys[i]; }
    }
  }

  lemma IdsAreDistinct(h: Helpers, comments: seq<InlineComment>, findings: seq<SummaryFinding>)
    ensures var q := Queue(h, comments, findings); forall a, b :: a in q && b in q && a.id == b.id ==> a == b
  {
    hide Queue;
    var q := Queue(h, comments, findings);
    forall a, b | a in q && b in q && a.id == b.id ensures a == b {
      var i :| 0 <= i < |q| && q[i] == a;
      var j :| 0 <= j < |q| && q[j] == b;
      if i < j { IdsDiffer(h, comments, findings, i, j); }
      if j < i { IdsDiffer(h, comments, findings, j, i); }
    }
  }

  /** The members of a key are listed by their identifiers, and no others. */
  lemma ListedByKey(candidates: seq<Candidate>, k: GroupKey, c: Candidate)
    requires c in candidates && forall a, b :: a in candidates && b in candidates && a.id == b.id ==> a == b
    ensures c.id in IdsOf(Members(k, candidates)) <==> k == KeyOf(c)
  {
    hide EvidenceNeed;
    var members := Members(k, candidates);
    if k == KeyOf(c) {
      assert InGroup(k)(c) && c in members;
      var n :| 0 <= n < |members| && members[n] == c;
      assert IdsOf(members)[n] == c.id;
    }
    if c.id in IdsOf(members) {
      var n :| 0 <= n < |members| && IdsOf(members)[n] == c.id;
      assert members[n] in members;
    }
  }
}
