/** Where a candidate goes, by what its text mentions, and what a group of the plan holds. */
module CandidateFates {
  import opened Collections
  import opened ReviewSurfaces
  import opened Strings
  import opened Candidates
  import Sorting

  // ---------------------------------------------------------------- mentions

  /** The text mentions the lower-case word at `i`, in any case. */
  predicate MentionsAt(text: string, word: string, i: int) {
    0 <= i <= |text| - |word| && forall k :: 0 <= k < |word| ==> LowerChar(text[i + k]) == word[k]
  }

  ghost predicate Mentions(text: string, word: string) { exists i :: MentionsAt(text, word, i) }

  lemma MentionedExactlyWhenContained(text: string, word: string)
    ensures Contains(Lower(text), word) <==> Mentions(text, word)
  {
    var s := Lower(text);
    if Contains(s, word) {
      var i :| 0 <= i <= |s| && word <= s[i..];
      forall k | 0 <= k < |word| ensures LowerChar(text[i + k]) == word[k] { assert s[i..][k] == s[i + k]; }
      assert MentionsAt(text, word, i);
    }
    if Mentions(text, word) {
      var i :| MentionsAt(text, word, i);
      assert s[i..][..|word|] == word;
    }
  }

  ghost predicate MentionsOne(text: string, words: seq<string>) { exists k :: 0 <= k < |words| && Mentions(text, words[k]) }

  lemma ContainsAnyExactlyWhen(text: string, words: seq<string>)
    ensures ContainsAny(Lower(text), words) <==> MentionsOne(text, words)
  {
    forall k | 0 <= k < |words| ensures Contains(Lower(text), words[k]) <==> Mentions(text, words[k]) {
      MentionedExactlyWhenContained(text, words[k]);
    }
  }

  // ------------------------------------------------------------- disposition

  const REFUTING := ["refuted", "false premise"]
  const MERGED := ["summary-only guard rejected candidate", "duplicate inline candidate merged"]
  const TRIFLES := ["style/polish", "polish suggestion", "below the materiality", "below materiality", "sub-material polish", "submaterial polish"]

  ghost predicate Refuted(f: SummaryFinding) { MentionsOne(f.reason, REFUTING) || MentionsOne(f.evidence, REFUTING) }

  ghost predicate Trifling(f: SummaryFinding) { f.severity == "low" && MentionsOne(f.reason + "\n" + f.evidence, TRIFLES) }

  /** A finding is parked when it is a parked follow-up; else refuted when reason or evidence says so; else dropped when its reason
      says that it was merged or rejected, or it is of low severity and speaks of polish; else it stays. */
  lemma DispositionExactlyWhen(h: Helpers, f: SummaryFinding)
    ensures Disposition(h, f) == "parked-follow-up" <==> h.parked(f)
    ensures Disposition(h, f) == "refuted" <==> !h.parked(f) && Refuted(f)
    ensures Disposition(h, f) == "dropped" <==> !h.parked(f) && !Refuted(f) && (MentionsOne(f.reason, MERGED) || Trifling(f))
    ensures Disposition(h, f) == "summary-only" <==> !h.parked(f) && !Refuted(f) && !MentionsOne(f.reason, MERGED) && !Trifling(f)
  {
    hide ContainsAny, MentionsOne;
    SameWords(f.reason, ["false premise", "refuted"], REFUTING);
    SameWords(f.evidence, ["false premise", "refuted"], REFUTING);
    SameWords(f.reason, ["duplicate inline candidate merged", "summary-only guard rejected candidate"], MERGED);
    SameWords(f.reason + "\n" + f.evidence, POLISH, TRIFLES);
    assert "parked-follow-up"[0] == 'p' && "refuted"[0] == 'r' && "dropped"[0] == 'd' && "summary-only"[0] == 's';
  }

  lemma SameWords(text: string, words: seq<string>, others: seq<string>)
    requires (forall w :: w in words ==> w in others) && forall w :: w in others ==> w in words
    ensures ContainsAny(Lower(text), words) <==> MentionsOne(text, others)
  {
    hide Contains, Mentions;
    ContainsAnyExactlyWhen(text, words);
    if MentionsOne(text, words) {
      var k :| 0 <= k < |words| && Mentions(text, words[k]);
      assert words[k] in words;
      var n :| 0 <= n < |others| && others[n] == words[k];
    }
    if MentionsOne(text, others) {
      var k :| 0 <= k < |others| && Mentions(text, others[k]);
      assert others[k] in others;
      var n :| 0 <= n < |words| && words[n] == others[k];
    }
  }

  /** What evidence a candidate needs: that of its disposition, and for one that stays in the summary the first that its claim or
      evidence mentions: a proof, a route, a test. */
  lemma NeedExactlyWhen(c: Candidate)
    ensures c.disposition == "inline" ==> EvidenceNeed(c) == "accepted-inline-review"
    ensures c.disposition == "parked-follow-up" ==> EvidenceNeed(c) == "parked-follow-up-confirmation"
    ensures c.disposition == "refuted" ==> EvidenceNeed(c) == "refutation-confirmation"
    ensures c.disposition == "dropped" ==> EvidenceNeed(c) == "dropped-candidate-audit"
    ensures c.disposition !in {"inline", "parked-follow-up", "refuted", "dropped"} ==>
      var text := c.claim + "\n" + c.evidence;
      EvidenceNeed(c) ==
        if Mentions(text, "proof") || Mentions(text, "red") || Mentions(text, "green") then "proof-confirmation"
        else if Mentions(text, "route") || Mentions(text, "sibling") then "source-route-confirmation"
        else if Mentions(text, "test") || Mentions(text, "oracle") then "test-oracle-confirmation"
        else "summary-confirmation"
  {
    hide ContainsAny, Mentions;
    var text := c.claim + "\n" + c.evidence;
    ContainsAnyExactlyWhen(text, ["proof", "red", "green"]);
    ContainsAnyExactlyWhen(text, ["route", "sibling"]);
    ContainsAnyExactlyWhen(text, ["test", "oracle"]);
    OneOfThree(text, "proof", "red", "green");
    OneOfTwo(text, "route", "sibling");
    OneOfTwo(text, "test", "oracle");
  }

  lemma OneOfThree(text: string, a: string, b: string, c: string)
    ensures MentionsOne(text, [a, b, c]) <==> Mentions(text, a) || Mentions(text, b) || Mentions(text, c)
  {
    hide Mentions;
    assert [a, b, c][0] == a && [a, b, c][1] == b && [a, b, c][2] == c;
  }

  lemma OneOfTwo(text: string, a: string, b: string)
    ensures MentionsOne(text, [a, b]) <==> Mentions(text, a) || Mentions(text, b)
  {
    hide Mentions;
    assert [a, b][0] == a && [a, b][1] == b;
  }

  // ------------------------------------------------------------------ groups

  function Like(disposition: string, need: string): Candidate -> bool {
    (c: Candidate) => c.disposition == disposition && EvidenceNeed(c) == need
  }

  /** The group lists, in queue order, exactly the candidates of its disposition and need, and their lanes; and it has some. */
  ghost predicate Holds(g: Group, h: Helpers, candidates: seq<Candidate>) {
    var members := Filter(Like(g.disposition, g.need), candidates);
    && g.id == "evidence-group-" + h.short(g.disposition + "\n" + g.need)
    && members != [] && |g.candidateIds| == |members| == g.duplicates + 1
    && (forall n :: 0 <= n < |members| ==> g.candidateIds[n] == members[n].id)
    && forall lane :: lane in g.lanes <==> exists c :: c in members && c.lane == lane
  }

  ghost predicate Earlier(a: Group, b: Group) {
    Sorting.Less(a.disposition, b.disposition) || (a.disposition == b.disposition && Sorting.Less(a.need, b.need))
  }

  /** The groups of a plan: each holds its members, they come in strict order of disposition and need, and every candidate has
      the group of its own. */
  lemma GroupsHoldTheirMembers(h: Helpers, candidates: seq<Candidate>, groups: seq<Group>)
    requires Groups(groups, h, candidates)
    ensures forall i :: 0 <= i < |groups| ==> Holds(groups[i], h, candidates)
    ensures forall i, j :: 0 <= i < j < |groups| ==> Earlier(groups[i], groups[j])
    ensures forall c :: c in candidates ==> exists i :: 0 <= i < |groups| && groups[i].disposition == c.disposition && groups[i].need == EvidenceNeed(c)
  {
    hide EvidenceNeed, Filter, Holds;
    var keys: seq<GroupKey> :| KeysOf(keys, candidates) && GroupsAre(groups, keys, h, candidates);
    forall i | 0 <= i < |groups| ensures Holds(groups[i], h, candidates) {
      assert keys[i] in keys;
      var c :| c in candidates && KeyOf(c) == keys[i];
      GroupHolds(h, candidates, keys[i], c);
    }
    forall i, j | 0 <= i < j < |groups| ensures Earlier(groups[i], groups[j]) {
      assert KeyLe(keys[i], keys[j]) && keys[i] != keys[j];
      Sorting.Trichotomy(keys[i].need, keys[j].need);
    }
    forall c | c in candidates ensures exists i :: 0 <= i < |groups| && groups[i].disposition == c.disposition && groups[i].need == EvidenceNeed(c) {
      assert KeyOf(c) in keys;
      var i :| 0 <= i < |keys| && keys[i] == KeyOf(c);
    }
  }

  lemma GroupHolds(h: Helpers, candidates: seq<Candidate>, k: GroupKey, c: Candidate)
    requires c in candidates && KeyOf(c) == k
    ensures Holds(GroupFor(h, k, Members(k, candidates)), h, candidates)
  {
    hide EvidenceNeed;
    FilterAgrees(InGroup(k), Like(k.disposition, k.need), candidates);
    assert Like(k.disposition, k.need)(c);
  }

  // ------------------------------------------------------------------ reading

  predicate KnownFate(d: string) { d in {"inline", "summary-only", "parked-follow-up", "refuted", "dropped"} }

  /** A candidate of the queue reads back as a comment exactly when it is an accepted inline comment with a place on the right side,
      as a finding exactly when it is a summary-only finding without a place, and not at all otherwise. */
  lemma ReadExactlyWhen(h: Helpers, c: Candidate)
    ensures ReadOne(h, c).Comment? <==>
      && c.schema == "ub-review.candidate.v1" && c.source == "inline-comment" && c.status == "accepted-inline" && c.disposition == "inline"
      && c.path.Some? && c.line.Some? && c.side == Some("RIGHT")
    ensures ReadOne(h, c).Comment? ==>
      && c.path.Some? && c.line.Some?
      && ReadOne(h, c).comment == InlineComment(
           c.lane, c.severity, c.confidence, c.path.value, c.line.value, "RIGHT", c.claim, c.evidence, h.normalize(c.suggestion))
    ensures ReadOne(h, c).Finding? <==>
      && c.schema == "ub-review.candidate.v1" && c.source == "summary-only-finding" && c.status == "summary-only"
      && KnownFate(c.disposition) && c.disposition != "inline" && c.path == None && c.line == None && c.side == None && c.suggestion == None
    ensures ReadOne(h, c).Finding? ==> ReadOne(h, c).finding == SummaryFinding(c.lane, c.severity, c.confidence, c.claim, c.evidence)
  {
  }
}
