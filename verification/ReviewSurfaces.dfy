/** The public surfaces of a review: inline comments, summary-only findings and queued candidates. */
module ReviewSurfaces {
  import opened Collections

  datatype InlineComment = InlineComment(
    lane: string, severity: string, confidence: string, path: string, line: nat, side: string, body: string,
    evidence: string, suggestion: Option<string>)

  datatype SummaryFinding = SummaryFinding(lane: string, severity: string, confidence: string, reason: string, evidence: string)

  datatype Candidate = Candidate(
    schema: string, id: string, lane: string, source: string, status: string, disposition: string, severity: string,
    confidence: string, claim: string, evidence: string, path: Option<string>, line: Option<nat>, side: Option<string>,
    suggestion: Option<string>)

  /** `candidate_matches_inline_comment` (src/issue_broker.rs). */
  predicate MatchesInline(c: Candidate, m: InlineComment) {
    c.source == "inline-comment" && c.lane == m.lane && c.path == Some(m.path) && c.line == Some(m.line) && c.claim == m.body
  }

  /** `candidate_matches_summary_finding` (src/issue_broker.rs). */
  predicate MatchesSummary(c: Candidate, f: SummaryFinding) {
    c.source == "summary-only-finding" && c.lane == f.lane && c.claim == f.reason && c.evidence == f.evidence
  }
}
