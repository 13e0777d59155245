/** Publication-boundary reconciliation: the packet with its bounded issue set, the projections it compares, and the
    final verdict (`scripts/reconcile-publication-boundaries-core.py` through its entry point
    `scripts/reconcile-publication-boundaries.py`). */
module Publication {
  import opened Collections
  import opened Json
  import opened DeliveryMatching
  import RevisionIdentity

  const MAX_ISSUES: nat := 128

  const SKIP_STATUSES := {"skipped_empty_smoke", "skipped_artifact_only_body", "skipped_pass_policy",
                          "skipped_gate_failure_artifact_only"}
  const TERMINAL_STATUSES := {"needs-reviewer-attention", "sufficient", "artifact-only", "failed-to-review"}
  const POST_ERRORS := {("missing_token", "preflight"), ("invalid_repo", "preflight"), ("missing_pull_number", "preflight"),
                        ("invalid_review_payload", "payload_validation"), ("post_http_error", "network_post"),
                        ("post_failed", "network_post"), ("failed", "unknown")}
  const SKIP_FIELDS := {"schema_version", "status", "reason", "review_payload_status", "terminal_state",
                        "github_review_json", "run_pass", "model_mode", "inline_comments", "summary_only_findings",
                        "missing_or_failed_sensor_evidence", "missing_or_failed_model_evidence"}

  /** What the checker takes from its surroundings: SHA-256, the digest of a canonical revision,
      the length of a UTF-8 encoding, blankness of a string, the rendering of a comment's public
      body (`None` for an invalid suggestion), and the bounded label of an identifier. */
  datatype Host = Host(
    sha: string -> string, revisionDigest: string -> string, bytes: string -> int, blank: string -> bool,
    publicBody: Json -> Option<string>, safeLabel: string -> string)

  /** A packet file that exists: readable JSON, or anything that fails to load. */
  datatype File = Unreadable | Data(value: Json)

  datatype Packet = Packet(json: map<string, File>, files: set<string>)

  const ADMISSION := "input/revision-admission.json"
  const GATE := "review/gate_outcome.json"
  const TERMINAL := "review/terminal_state.json"
  const REVIEW := "review/github-review.json"
  const SKIP := "review/github-review-skip.json"
  const RESULT := "review/post-result.json"
  const ERROR := "review/post-error.json"
  const TRANSACTION := "review/delivery-transaction.json"
  const PAYLOAD := "review/github-review-post-payload.json"
  const STDOUT := "review/post-stdout.json"
  const STDERR := "review/post-stderr.txt"

  /** What `load` returns; an absent or unreadable artifact reads as null. */
  function Value(p: Packet, name: string): Json {
    if name in p.json && p.json[name].Data? then p.json[name].value else Null
  }

  predicate Loads(p: Packet, name: string, required: bool) {
    if name in p.json then p.json[name].Data? else !required
  }

  // -------------------------------------------------------------- projections

  datatype Binding = Binding(digest: string, semantics: string, reviewedCommit: string, prHeadCommit: string)

  /** `revision_binding`: the admission restates what its canonical identity says. */
  function BindingOf(h: Host, admission: Json): Option<Binding> {
    if !admission.Obj? || Get(admission, "schema") != Str("ub-review.revision_admission.v1")
       || !Get(admission, "identity_canonical").Str?
    then None
    else
      var text := Get(admission, "identity_canonical").s;
      match RevisionIdentity.Parse(text)
      case None => None
      case Some(id) =>
        var b := Binding(h.revisionDigest(text), RevisionIdentity.Word(id.semantics), id.reviewed.0, id.head.0);
        if && Get(admission, "identity_digest") == Str(b.digest) && Get(admission, "semantics") == Str(b.semantics)
           && Get(admission, "reviewed_commit_oid") == Str(b.reviewedCommit) && Get(admission, "pr_head_commit") == Str(b.prHeadCommit)
           && RevisionIdentity.ValidOid(b.prHeadCommit)
        then Some(b) else None
  }

  function RevisionJson(b: Binding): Json {
    Obj(map["digest" := Str(b.digest), "semantics" := Str(b.semantics), "reviewed_commit" := Str(b.reviewedCommit)])
  }

  /** `gate_projection`: the publication result the gate published. */
  function PublicationOf(gate: Json): Option<string> {
    if !gate.Obj? || Get(gate, "schema") != Str("ub-review.gate_outcome.v1") then None
    else
      var r := Get(gate, "publication_result");
      if r.Str? && r.s in {"posted", "not_needed", "failed", "not_proven"} then Some(r.s) else None
  }

  predicate GateBound(gate: Json, b: Option<Binding>) {
    gate.Obj? && b.Some? ==> Get(gate, "revision") == RevisionJson(b.value)
  }

  datatype Terminal = Terminal(status: string, payload: string, reviewerValue: bool)

  function TerminalOf(t: Json): Option<Terminal> {
    if !t.Obj? || Get(t, "schema") != Str("ub-review.terminal_state.v1") then None
    else
      var status, payload, value := Get(t, "status"), Get(t, "review_payload_status"), Get(t, "reviewer_value_present");
      if status.Str? && status.s in TERMINAL_STATUSES && payload.Str? && payload.s in SKIP_STATUSES + {"prepared"} && value.Bool?
      then Some(Terminal(status.s, payload.s, value.b)) else None
  }

  /** The combinations the terminal state allows. */
  predicate Combines(t: Terminal) {
    if t.status == "needs-reviewer-attention" && !t.reviewerValue then false
    else if t.status in {"sufficient", "artifact-only"} && t.reviewerValue then false
    else if t.payload in {"prepared", "skipped_pass_policy"} then t.status == "needs-reviewer-attention" && t.reviewerValue
    else true
  }

  datatype Comment = Comment(path: string, line: int, side: string, body: string)

  datatype Prepared = Prepared(body: string, comments: seq<Comment>)

  function CommentOf(h: Host, row: Json): Option<Comment> {
    if !row.Obj? then None
    else
      var path, line, side, body := Get(row, "path"), Get(row, "line"), Get(row, "side"), Get(row, "body");
      if NonEmptyStr(path) && line.Num? && line.n > 0 && NonEmptyStr(side) && body.Str? && !h.blank(body.s)
         && h.publicBody(row).Some?
      then Some(Comment(path.s, line.n, side.s, h.publicBody(row).value)) else None
  }

  function CommentsOf(h: Host, rows: seq<Json>): Option<seq<Comment>> {
    if rows == [] then Some([])
    else match (CommentOf(h, rows[0]), CommentsOf(h, rows[1..]))
         case (Some(c), Some(rest)) => Some([c] + rest)
         case _ => None
  }

  /** `expected_post_payload`: the payload the prepared review must have been posted as. */
  function PreparedOf(h: Host, review: Json): Option<Prepared> {
    if review.Obj? && Get(review, "event") == Str("COMMENT") && Get(review, "body").Str? && Get(review, "comments").Arr? then
      match CommentsOf(h, Get(review, "comments").items)
      case None => None
      case Some(comments) => Some(Prepared(Get(review, "body").s, comments))
    else None
  }

  function CommentJson(c: Comment): Json {
    Obj(map["path" := Str(c.path), "line" := Num(c.line), "side" := Str(c.side), "body" := Str(c.body)])
  }

  function PayloadJson(p: Prepared): Json {
    Obj(map["event" := Str("COMMENT"), "body" := Str(p.body),
            "comments" := Arr(seq(|p.comments|, i requires 0 <= i < |p.comments| => CommentJson(p.comments[i])))])
  }

  predicate NonNegative(j: Json) { j.Num? && j.n >= 0 }

  /** `validate_skip_receipt`. */
  predicate SkipValid(s: Json) {
    && s.Obj? && s.fields.Keys == SKIP_FIELDS
    && EqualsInt(Get(s, "schema_version"), 1) && Get(s, "status") == Str("skipped") && NonEmptyStr(Get(s, "reason"))
    && Get(s, "review_payload_status").Str? && Get(s, "review_payload_status").s in SKIP_STATUSES
    && Get(s, "terminal_state").Str? && Get(s, "terminal_state").s in TERMINAL_STATUSES
    && Get(s, "github_review_json") == Null && NonEmptyStr(Get(s, "run_pass")) && NonEmptyStr(Get(s, "model_mode"))
    && NonNegative(Get(s, "inline_comments")) && NonNegative(Get(s, "summary_only_findings"))
    && NonNegative(Get(s, "missing_or_failed_sensor_evidence")) && NonNegative(Get(s, "missing_or_failed_model_evidence"))
  }

  predicate PostErrorValid(e: Json) {
    && e.Obj? && EqualsInt(Get(e, "schema_version"), 1) && Get(e, "status") == Str("failed")
    && Get(e, "error_kind").Str? && Get(e, "failure_stage").Str?
    && (Get(e, "error_kind").s, Get(e, "failure_stage").s) in POST_ERRORS
  }

  // ------------------------------------------------------ delivery transaction

  /** The key of one planned row at the admitted head, or `None` if the row is malformed. */
  function PlanKey(b: Option<Binding>, row: Json): Option<Key> {
    if !row.Obj? || b.None? then None
    else
      var path, line, side, digest := Get(row, "path"), Get(row, "line"), Get(row, "side"), Get(row, "expected_body_digest");
      if && Get(row, "exact_head_sha") == Str(b.value.prHeadCommit) && Get(row, "action") == Str("inline")
         && NonEmptyStr(Get(row, "claim_id")) && path.Str? && line.Num? && side.Str?
         && digest.Str? && RevisionIdentity.Hex(digest.s, 64)
      then Some(Key(path.s, line.n, side.s, digest.s)) else None
  }

  function PlanKeys(b: Option<Binding>, rows: seq<Json>): (r: seq<Option<Key>>)
    ensures |r| == |rows|
  {
    seq(|rows|, i requires 0 <= i < |rows| => PlanKey(b, rows[i]))
  }

  function CommentKeys(h: Host, comments: seq<Comment>): (r: seq<Key>)
    ensures |r| == |comments|
  {
    seq(|comments|, i requires 0 <= i < |comments| =>
      Key(comments[i].path, comments[i].line, comments[i].side, h.sha(comments[i].body)))
  }

  /** The transaction is terminal, clean and about the admitted head. */
  predicate TransactionSettled(t: Json, b: Option<Binding>) {
    && t.Obj? && Get(t, "schema") == Str("ub-review.delivery_transaction.v1")
    && b.Some? && Get(t, "exact_head_sha") == Str(b.value.prHeadCommit)
    && Get(t, "state") == Str("receipts_persisted") && Get(t, "failure") == Null
    && Get(t, "cleanup") == Obj(map["status" := Str("not_attempted")])
    && Get(t, "planned").Arr?
  }

  predicate TransactionValid(h: Host, t: Json, b: Option<Binding>, p: Prepared) {
    TransactionSettled(t, b) && Complete(PlanKeys(b, Get(t, "planned").items), CommentKeys(h, p.comments))
  }

  lemma SettledNeedsBinding(t: Json, b: Option<Binding>)
    ensures TransactionSettled(t, b) ==> b.Some?
  {
  }

  const SUCCESS_FLAGS := ["repo_valid", "review_json_exists", "review_json_valid", "token_present", "payload_written",
                          "post_stdout_written", "post_stderr_written"]

  function ResponseCommit(response: Json): Option<string> {
    if response.Obj? && Get(response, "commit_id").Str? && RevisionIdentity.ValidOid(Get(response, "commit_id").s)
    then Some(Get(response, "commit_id").s) else None
  }

  predicate FlagsSet(receipt: Json, flags: seq<string>)
    requires receipt.Obj?
  {
    forall f :: f in flags ==> Get(receipt, f) == Bool(true)
  }

  /** Everything about a success receipt except the commit it names. */
  predicate ReceiptValid(h: Host, p: Packet, receipt: Json, prepared: Prepared, payloadVerified: bool) {
    && receipt.Obj? && payloadVerified
    && EqualsInt(Get(receipt, "schema_version"), 1) && Get(receipt, "status") == Str("ok")
    && FlagsSet(receipt, SUCCESS_FLAGS)
    && Get(receipt, "review_event") == Str("COMMENT") && EqualsInt(Get(receipt, "review_body_bytes"), h.bytes(prepared.body))
    && EqualsInt(Get(receipt, "review_comment_count"), |prepared.comments|) && EqualsInt(Get(receipt, "comments"), |prepared.comments|)
    && Get(receipt, "pull_number").Num? && Get(receipt, "pull_number").n > 0
    && Get(receipt, "http_status").Num? && 200 <= Get(receipt, "http_status").n < 300
    && STDOUT in p.files && STDERR in p.files
    && Get(receipt, "response").Obj? && Get(Get(receipt, "response"), "state") == Str("COMMENTED")
  }

  datatype DeliveryState = Confirmed | Failed | PreparedOnly | NotNeeded | Unverifiable

  /** `post_result_state`. */
  function PostResult(h: Host, p: Packet, receipt: Json, t: Json, b: Option<Binding>, prepared: Prepared, payloadVerified: bool): DeliveryState {
    if !ReceiptValid(h, p, receipt, prepared, payloadVerified) || !TransactionValid(h, t, b, prepared) then Unverifiable
    else match ResponseCommit(Get(receipt, "response"))
      case None => Unverifiable
      case Some(commit) => if commit == b.value.prHeadCommit then Confirmed else Failed
  }

  /** The retained payload is the prepared one; an absent payload verifies nothing. */
  predicate PayloadVerified(p: Packet, prepared: Prepared) { Value(p, PAYLOAD) == PayloadJson(prepared) }

  predicate PayloadClean(p: Packet, prepared: Prepared) {
    Loads(p, PAYLOAD, false) && (Value(p, PAYLOAD) != Null ==> PayloadVerified(p, prepared))
  }

  // -------------------------------------------------------- what coherent means

  /** The review side of a coherent packet. */
  predicate ReviewCoherent(h: Host, p: Packet, b: Binding, t: Terminal, publication: string) {
    var prepared := PreparedOf(h, Value(p, REVIEW));
    && prepared.Some? && PayloadClean(p, prepared.value) && t.payload == "prepared"
    && if Value(p, RESULT) != Null then
         && publication == "posted"
         && PostResult(h, p, Value(p, RESULT), Value(p, TRANSACTION), Some(b), prepared.value, PayloadVerified(p, prepared.value)) == Confirmed
       else
         publication != "posted" && (Value(p, ERROR) != Null ==> PostErrorValid(Value(p, ERROR)))
  }

  /** The skip side of a coherent packet. */
  predicate SkipCoherent(p: Packet, t: Terminal, publication: string) {
    var skip := Value(p, SKIP);
    && SkipValid(skip)
    && Str(t.payload) == Get(skip, "review_payload_status") && Str(t.status) == Get(skip, "terminal_state")
    && publication != "posted" && Value(p, ERROR) == Null && (Value(p, RESULT) != Null ==> Value(p, RESULT) == skip)
  }

  /** The checks a success receipt passes without raising anything; only its commit may be missing. */
  predicate PostResultClean(h: Host, p: Packet, receipt: Json, t: Json, b: Option<Binding>, prepared: Prepared, payloadVerified: bool) {
    && ReceiptValid(h, p, receipt, prepared, payloadVerified) && TransactionValid(h, t, b, prepared)
    && var commit := ResponseCommit(Get(receipt, "response")); commit.None? || commit == Some(b.value.prHeadCommit)
  }

  function ReviewState(h: Host, p: Packet, b: Option<Binding>, prepared: Prepared): DeliveryState {
    if Value(p, RESULT) != Null then
      PostResult(h, p, Value(p, RESULT), Value(p, TRANSACTION), b, prepared, PayloadVerified(p, prepared))
    else if Value(p, ERROR) != Null then (if PostErrorValid(Value(p, ERROR)) then Failed else Unverifiable)
    else PreparedOnly
  }

  predicate ReviewClean(h: Host, p: Packet, b: Option<Binding>, t: Option<Terminal>) {
    var prepared := PreparedOf(h, Value(p, REVIEW));
    && prepared.Some? && PayloadClean(p, prepared.value) && (t.Some? ==> t.value.payload == "prepared")
    && (Value(p, RESULT) != Null ==>
          PostResultClean(h, p, Value(p, RESULT), Value(p, TRANSACTION), b, prepared.value, PayloadVerified(p, prepared.value)))
    && (Value(p, RESULT) == Null && Value(p, ERROR) != Null ==> PostErrorValid(Value(p, ERROR)))
  }

  lemma ReviewVerdict(h: Host, p: Packet, b: Binding, t: Terminal, publication: string)
    requires !(Value(p, RESULT) != Null && Value(p, ERROR) != Null)
    ensures ReviewCoherent(h, p, b, t, publication) <==>
      && ReviewClean(h, p, Some(b), Some(t))
      && var s := ReviewState(h, p, Some(b), PreparedOf(h, Value(p, REVIEW)).value);
         s != Unverifiable && (publication == "posted" <==> s == Confirmed)
  {
    hide ReceiptValid, TransactionValid, PayloadClean, PayloadVerified, PreparedOf, ResponseCommit;
  }

  lemma ReviewCleanReady(h: Host, p: Packet, b: Option<Binding>, t: Option<Terminal>)
    ensures ReviewClean(h, p, b, t) ==> PreparedOf(h, Value(p, REVIEW)).Some?
  {
  }

  function SkipState(p: Packet): DeliveryState {
    var ready, result, error := SkipValid(Value(p, SKIP)), Value(p, RESULT), Value(p, ERROR);
    if ready && (if result != Null then result == Value(p, SKIP) else error == Null) then NotNeeded
    else if ready && result == Null && PostErrorValid(error) then Failed else Unverifiable
  }

  predicate SkipClean(p: Packet, t: Option<Terminal>) {
    var skip := Value(p, SKIP);
    && SkipValid(skip) && Value(p, ERROR) == Null && (Value(p, RESULT) != Null ==> Value(p, RESULT) == skip)
    && (t.Some? ==> Str(t.value.payload) == Get(skip, "review_payload_status") && Str(t.value.status) == Get(skip, "terminal_state"))
  }

  /** The three required projections load, agree with each other and are well formed. */
  predicate ProjectionsClean(h: Host, p: Packet) {
    var b, t := BindingOf(h, Value(p, ADMISSION)), TerminalOf(Value(p, TERMINAL));
    && Loads(p, ADMISSION, true) && Loads(p, GATE, true) && Loads(p, TERMINAL, true)
    && b.Some? && PublicationOf(Value(p, GATE)).Some? && GateBound(Value(p, GATE), b) && t.Some? && Combines(t.value)
  }

  predicate BoundariesLoad(p: Packet) {
    && Loads(p, REVIEW, false) && Loads(p, SKIP, false) && Loads(p, RESULT, false) && Loads(p, ERROR, false)
    && Loads(p, TRANSACTION, false)
  }

  /** Exactly one of review and skip, at most one of result and error. */
  predicate OneOfEach(p: Packet) {
    (Value(p, REVIEW) != Null) != (Value(p, SKIP) != Null) && !(Value(p, RESULT) != Null && Value(p, ERROR) != Null)
  }

  predicate SidesClean(h: Host, p: Packet, b: Option<Binding>, t: Option<Terminal>) {
    OneOfEach(p) && if Value(p, REVIEW) != Null then ReviewClean(h, p, b, t) else SkipClean(p, t)
  }

  function SidesReady(h: Host, p: Packet): bool {
    OneOfEach(p) && if Value(p, REVIEW) != Null then PreparedOf(h, Value(p, REVIEW)).Some? else SkipValid(Value(p, SKIP))
  }

  function SidesState(h: Host, p: Packet, b: Option<Binding>): DeliveryState {
    if !SidesReady(h, p) then Unverifiable
    else if Value(p, REVIEW) != Null then ReviewState(h, p, b, PreparedOf(h, Value(p, REVIEW)).value)
    else SkipState(p)
  }

  /** A packet whose publication boundaries all agree. */
  predicate Coherent(h: Host, p: Packet) {
    && ProjectionsClean(h, p) && BoundariesLoad(p) && OneOfEach(p)
    && var b, publication, t := BindingOf(h, Value(p, ADMISSION)).value, PublicationOf(Value(p, GATE)).value, TerminalOf(Value(p, TERMINAL)).value;
       if Value(p, REVIEW) != Null then ReviewCoherent(h, p, b, t, publication) else SkipCoherent(p, t, publication)
  }

  lemma SidesVerdict(h: Host, p: Packet)
    requires ProjectionsClean(h, p)
    ensures var b, t := BindingOf(h, Value(p, ADMISSION)), TerminalOf(Value(p, TERMINAL));
      var s, posted := SidesState(h, p, b), PublicationOf(Value(p, GATE)) == Some("posted");
      Coherent(h, p) <==>
        BoundariesLoad(p) && SidesClean(h, p, b, t) && SidesReady(h, p) && s != Unverifiable && (posted <==> s == Confirmed)
  {
    hide Loads, BindingOf, PublicationOf, GateBound, TerminalOf, Combines, PreparedOf, ReviewClean, ReviewCoherent,
      ReviewState, SkipValid, BoundariesLoad, PostErrorValid;
    var b, publication, t := BindingOf(h, Value(p, ADMISSION)), PublicationOf(Value(p, GATE)), TerminalOf(Value(p, TERMINAL));
    if OneOfEach(p) && Value(p, REVIEW) != Null {
      ReviewVerdict(h, p, b.value, t.value, publication.value);
      ReviewCleanReady(h, p, b, t);
    }
  }

  // ------------------------------------------------------------- the checker

  datatype Status = CoherentStatus | Contradictory | UnverifiableStatus

  datatype Report = Report(status: Status, delivery: DeliveryState, inputUnavailable: bool, retained: nat, truncated: bool)

  type Issue = (string, string, string)

  class Checker {
    const host: Host
    const packet: Packet
    var issues: set<Issue>
    var observations: set<Issue>
    var issuesTruncated: bool
    var observationsTruncated: bool
    var inputUnavailable: bool

    constructor (host: Host, packet: Packet)
      ensures Valid() && Clean() && this.host == host && this.packet == packet
    {
      this.host, this.packet := host, packet;
      issues, observations := {}, {};
      issuesTruncated, observationsTruncated, inputUnavailable := false, false, false;
    }

    /** The issue set stays bounded, and an unavailable input always leaves an issue behind. */
    ghost predicate Valid()
      reads this
    {
      && |issues| <= MAX_ISSUES && |observations| <= MAX_ISSUES
      && (inputUnavailable ==> issues != {})
    }

    /** Nothing has been raised yet. */
    predicate Clean()
      reads this
    {
      !inputUnavailable && issues == {} && !issuesTruncated
    }

    method RaiseIssue(code: string, artifact: string, identity: string)
      requires Valid()
      modifies `issues, `issuesTruncated
      ensures Valid() && old(issues) <= issues && issues != {}
      ensures (host.safeLabel(code), host.safeLabel(artifact), host.safeLabel(identity)) in issues || issuesTruncated
      ensures old(issuesTruncated) ==> issuesTruncated
    {
      var row := (host.safeLabel(code), host.safeLabel(artifact), host.safeLabel(identity));
      if row in issues { return; }
      if |issues| >= MAX_ISSUES {
        issuesTruncated := true;
        assert issues != {};
        return;
      }
      issues := issues + {row};
    }

    method Observe(code: string, artifact: string, identity: string)
      requires Valid()
      modifies `observations, `observationsTruncated
      ensures Valid()
    {
      var row := (host.safeLabel(code), host.safeLabel(artifact), host.safeLabel(identity));
      if row in observations { return; }
      if |observations| >= MAX_ISSUES {
        observationsTruncated := true;
        return;
      }
      observations := observations + {row};
    }

    method Unavailable(code: string, artifact: string, identity: string)
      requires Valid()
      modifies this
      ensures Valid() && !Clean() && inputUnavailable
    {
      RaiseIssue(code, artifact, identity);
      inputUnavailable := true;
    }

    /** Raises `code` unless `ok`. */
    method Demand(ok: bool, code: string, artifact: string, identity: string)
      requires Valid()
      modifies this
      ensures Valid() && (Clean() <==> old(Clean()) && ok)
    {
      if !ok { Unavailable(code, artifact, identity); }
    }

    method Load(name: string, required: bool) returns (value: Json)
      requires Valid()
      modifies this
      ensures Valid() && value == Value(packet, name) && (Clean() <==> old(Clean()) && Loads(packet, name, required))
    {
      if name !in packet.json {
        if required { Unavailable("missing_publication_artifact", name, ""); }
        return Null;
      }
      match packet.json[name]
      case Unreadable =>
        Unavailable("invalid_publication_artifact", name, "");
        value := Null;
      case Data(v) =>
        value := v;
    }

    method CheckBinding(admission: Json) returns (b: Option<Binding>)
      requires Valid()
      modifies this
      ensures Valid() && b == BindingOf(host, admission) && (Clean() <==> old(Clean()) && b.Some?)
    {
      if !admission.Obj? {
        Unavailable("invalid_revision_admission", ADMISSION, "");
        return None;
      }
      if Get(admission, "schema") != Str("ub-review.revision_admission.v1") {
        Unavailable("unsupported_revision_admission", ADMISSION, "");
        return None;
      }
      var text := Get(admission, "identity_canonical");
      var id := if text.Str? then RevisionIdentity.Parse(text.s) else None;
      if id.None? {
        Unavailable("invalid_revision_canonical", ADMISSION, "");
        return None;
      }
      var parsed := Binding(host.revisionDigest(text.s), RevisionIdentity.Word(id.value.semantics), id.value.reviewed.0, id.value.head.0);
      var digest := Get(admission, "identity_digest") == Str(parsed.digest);
      var semantics := Get(admission, "semantics") == Str(parsed.semantics);
      var reviewed := Get(admission, "reviewed_commit_oid") == Str(parsed.reviewedCommit);
      var head := Get(admission, "pr_head_commit") == Str(parsed.prHeadCommit);
      Demand(digest, "revision_digest_mismatch", ADMISSION, "");
      Demand(semantics, "revision_semantics_mismatch", ADMISSION, "");
      Demand(reviewed, "reviewed_commit_mismatch", ADMISSION, "");
      Demand(head, "pr_head_commit_mismatch", ADMISSION, "");
      Demand(RevisionIdentity.ValidOid(parsed.prHeadCommit), "pr_head_commit_mismatch", ADMISSION, "");
      b := if digest && semantics && reviewed && head && RevisionIdentity.ValidOid(parsed.prHeadCommit) then Some(parsed) else None;
    }

    method CheckGate(gate: Json, b: Option<Binding>) returns (publication: Option<string>)
      requires Valid()
      modifies this
      ensures Valid() && publication == PublicationOf(gate)
      ensures Clean() <==> old(Clean()) && publication.Some? && GateBound(gate, b)
    {
      publication := None;
      if !gate.Obj? {
        Unavailable("invalid_gate_projection", GATE, "");
        return;
      }
      if Get(gate, "schema") != Str("ub-review.gate_outcome.v1") {
        Unavailable("unsupported_gate_projection", GATE, "");
        return;
      }
      if b.Some? && Get(gate, "revision") != RevisionJson(b.value) {
        RaiseIssue("gate_revision_mismatch", GATE, "");
      }
      publication := PublicationOf(gate);
      if publication.None? { Unavailable("invalid_gate_publication_result", GATE, ""); }
    }

    method CheckTerminal(value: Json) returns (t: Option<Terminal>)
      requires Valid()
      modifies this
      ensures Valid() && t == TerminalOf(value) && (Clean() <==> old(Clean()) && t.Some? && Combines(t.value))
    {
      if !value.Obj? || Get(value, "schema") != Str("ub-review.terminal_state.v1") {
        Unavailable("invalid_terminal_state", TERMINAL, "");
        return None;
      }
      var status, payload := Get(value, "status"), Get(value, "review_payload_status");
      Demand(status.Str? && status.s in TERMINAL_STATUSES, "invalid_terminal_status", TERMINAL, "");
      Demand(payload.Str? && payload.s in SKIP_STATUSES + {"prepared"}, "invalid_terminal_payload_status", TERMINAL, "");
      Demand(Get(value, "reviewer_value_present").Bool?, "invalid_terminal_reviewer_value", TERMINAL, "");
      t := TerminalOf(value);
      if t.Some? {
        Demand(Combines(t.value), "invalid_terminal_state_combination", TERMINAL, t.value.status);
      }
    }

    /** `prepared_review_facts`. */
    method CheckPrepared(review: Json) returns (prepared: Option<Prepared>, payloadVerified: bool)
      requires Valid()
      modifies this
      ensures Valid() && prepared == PreparedOf(host, review)
      ensures prepared.Some? ==> payloadVerified == PayloadVerified(packet, prepared.value)
      ensures Clean() <==> old(Clean()) && prepared.Some? && PayloadClean(packet, prepared.value)
    {
      payloadVerified := false;
      prepared := PreparedOf(host, review);
      if prepared.None? {
        Unavailable("invalid_github_review", REVIEW, "");
        return;
      }
      var actual := Load(PAYLOAD, false);
      payloadVerified := actual != Null;
      if actual != Null && actual != PayloadJson(prepared.value) {
        Unavailable("post_payload_mismatch", PAYLOAD, "");
        payloadVerified := false;
      }
    }

    /** `validate_delivery_transaction` with the completeness check of the entry point. */
    method CheckTransaction(t: Json, b: Option<Binding>, p: Prepared) returns (valid: bool)
      requires Valid()
      modifies this
      ensures Valid() && valid == TransactionValid(host, t, b, p) && (Clean() <==> old(Clean()) && valid)
    {
      if !t.Obj? {
        Unavailable("missing_delivery_transaction", TRANSACTION, "");
        return false;
      }
      if Get(t, "schema") != Str("ub-review.delivery_transaction.v1") {
        Unavailable("invalid_delivery_transaction", TRANSACTION, "schema");
        return false;
      }
      valid := TransactionSettled(t, b);
      Demand(b.Some? && Get(t, "exact_head_sha") == Str(b.value.prHeadCommit), "delivery_transaction_head_mismatch", TRANSACTION, "");
      Demand(Get(t, "state") == Str("receipts_persisted"), "delivery_transaction_not_terminal", TRANSACTION, "");
      Demand(Get(t, "failure") == Null, "delivery_transaction_records_failure", TRANSACTION, "");
      Demand(Get(t, "cleanup") == Obj(map["status" := Str("not_attempted")]), "delivery_transaction_cleanup_mismatch", TRANSACTION, "");
      if !Get(t, "planned").Arr? {
        Unavailable("invalid_delivery_transaction", TRANSACTION, "planned");
        return false;
      }
      var keys, available := PlanKeys(b, Get(t, "planned").items), CommentKeys(host, p.comments);
      var matched := MatchPlan(keys, available);
      Demand(matched, "delivery_transaction_payload_mismatch", TRANSACTION, "");
      Demand(|keys| == |available|, "delivery_transaction_incomplete", TRANSACTION, "");
      valid := valid && matched && |keys| == |available|;
    }

    method CheckFlags(receipt: Json, flags: seq<string>)
      requires Valid() && receipt.Obj?
      modifies this
      ensures Valid() && (Clean() <==> old(Clean()) && FlagsSet(receipt, flags))
    {
      for i := 0 to |flags|
        invariant Valid() && (Clean() <==> old(Clean()) && FlagsSet(receipt, flags[..i]))
      {
        Demand(Get(receipt, flags[i]) == Bool(true), "post_success_precondition_missing", RESULT, flags[i]);
        assert flags[..i + 1] == flags[..i] + [flags[i]];
      }
      assert flags[..|flags|] == flags;
    }

    /** Every check on a success receipt other than the commit it names. */
    method CheckReceipt(receipt: Json, p: Prepared, payloadVerified: bool)
      requires Valid() && receipt.Obj?
      modifies this
      ensures Valid() && (Clean() <==> old(Clean()) && ReceiptValid(host, packet, receipt, p, payloadVerified))
    {
      hide FlagsSet;
      Demand(payloadVerified, "post_success_payload_unverified", RESULT, "");
      Demand(EqualsInt(Get(receipt, "schema_version"), 1) && Get(receipt, "status") == Str("ok"), "invalid_post_result", RESULT, "");
      CheckFlags(receipt, SUCCESS_FLAGS);
      Demand(Get(receipt, "review_event") == Str("COMMENT"), "post_success_payload_mismatch", RESULT, "review_event");
      Demand(EqualsInt(Get(receipt, "review_body_bytes"), host.bytes(p.body)), "post_success_payload_mismatch", RESULT, "review_body_bytes");
      Demand(EqualsInt(Get(receipt, "review_comment_count"), |p.comments|), "post_success_payload_mismatch", RESULT, "review_comment_count");
      Demand(EqualsInt(Get(receipt, "comments"), |p.comments|), "post_success_payload_mismatch", RESULT, "comments");
      Demand(Get(receipt, "pull_number").Num? && Get(receipt, "pull_number").n > 0, "invalid_post_pull_number", RESULT, "");
      var status := Get(receipt, "http_status");
      Demand(status.Num? && 200 <= status.n < 300, "post_success_http_status_invalid", RESULT, "");
      Demand(STDOUT in packet.files, "post_stdout_missing", STDOUT, "");
      Demand(STDERR in packet.files, "post_stderr_missing", STDERR, "");
      var response := Get(receipt, "response");
      Demand(response.Obj? && Get(response, "state") == Str("COMMENTED"), "invalid_post_response_state", RESULT, "");
    }

    method CheckPostResult(receipt: Json, t: Json, b: Option<Binding>, p: Prepared, payloadVerified: bool) returns (s: DeliveryState)
      requires Valid()
      modifies this
      ensures Valid() && s == PostResult(host, packet, receipt, t, b, p, payloadVerified)
      ensures Clean() <==> old(Clean()) && PostResultClean(host, packet, receipt, t, b, p, payloadVerified)
    {
      hide TransactionSettled, Complete, PlanKeys, CommentKeys, EqualsInt, FlagsSet;
      if !receipt.Obj? {
        Unavailable("invalid_post_result", RESULT, "");
        return Unverifiable;
      }
      CheckReceipt(receipt, p, payloadVerified);
      var commit := ResponseCommit(Get(receipt, "response"));
      if commit.None? { Observe("post_response_head_unavailable", RESULT, ""); }
      var settled := CheckTransaction(t, b, p);
      SettledNeedsBinding(t, b);
      if !ReceiptValid(host, packet, receipt, p, payloadVerified) || !settled || commit.None? || b.None? { return Unverifiable; }
      if commit.value != b.value.prHeadCommit {
        RaiseIssue("post_response_head_mismatch", RESULT, commit.value);
        return Failed;
      }
      s := Confirmed;
    }

    method CheckPostError(e: Json) returns (s: DeliveryState)
      requires Valid()
      modifies this
      ensures Valid() && s == (if PostErrorValid(e) then Failed else Unverifiable)
      ensures Clean() <==> old(Clean()) && PostErrorValid(e)
    {
      if !PostErrorValid(e) {
        Unavailable("invalid_post_error", ERROR, "");
        return Unverifiable;
      }
      s := Failed;
    }

    /** The review branch of `reconcile`. */
    method CheckReviewSide(b: Option<Binding>, t: Option<Terminal>) returns (ready: bool, s: DeliveryState)
      requires Valid()
      modifies this
      ensures Valid() && ready == PreparedOf(host, Value(packet, REVIEW)).Some?
      ensures s == if ready then ReviewState(host, packet, b, PreparedOf(host, Value(packet, REVIEW)).value) else Unverifiable
      ensures Clean() <==> old(Clean()) && ReviewClean(host, packet, b, t)
    {
      hide PreparedOf, PayloadClean, PayloadVerified, PostResult, PostResultClean, PostErrorValid;
      s := Unverifiable;
      var prepared, payloadVerified := CheckPrepared(Value(packet, REVIEW));
      ready := prepared.Some?;
      if !ready { return; }
      if t.Some? && t.value.payload != "prepared" { RaiseIssue("terminal_payload_mismatch", TERMINAL, ""); }
      if Value(packet, RESULT) != Null {
        s := CheckPostResult(Value(packet, RESULT), Value(packet, TRANSACTION), b, prepared.value, payloadVerified);
      } else if Value(packet, ERROR) != Null {
        s := CheckPostError(Value(packet, ERROR));
      } else {
        s := PreparedOnly;
        Observe("post_attempt_not_recorded", REVIEW, "");
      }
    }

    /** The skip branch of `reconcile`. */
    method CheckSkipSide(t: Option<Terminal>) returns (ready: bool, s: DeliveryState)
      requires Valid() && !(Value(packet, RESULT) != Null && Value(packet, ERROR) != Null)
      modifies this
      ensures Valid() && ready == SkipValid(Value(packet, SKIP)) && s == SkipState(packet)
      ensures Clean() <==> old(Clean()) && SkipClean(packet, t)
    {
      var skip, result, error := Value(packet, SKIP), Value(packet, RESULT), Value(packet, ERROR);
      s := Unverifiable;
      ready := SkipValid(skip);
      if !ready {
        Unavailable("invalid_github_review_skip", SKIP, "");
        return;
      }
      if t.Some? {
        if Str(t.value.payload) != Get(skip, "review_payload_status") { RaiseIssue("terminal_payload_mismatch", TERMINAL, ""); }
        if Str(t.value.status) != Get(skip, "terminal_state") { RaiseIssue("terminal_status_mismatch", TERMINAL, ""); }
      }
      if result != Null {
        if result == skip { s := NotNeeded; } else { Unavailable("skip_post_result_mismatch", RESULT, ""); }
      } else if error != Null {
        s := CheckPostError(error);
        if s == Failed { RaiseIssue("post_error_present_for_skip", ERROR, ""); }
      } else {
        s := NotNeeded;
      }
    }

    /** The gate's projection must agree with what was delivered. */
    method CheckProjection(publication: Option<string>, s: DeliveryState)
      requires Valid()
      modifies this
      ensures Valid()
      ensures Clean() <==> old(Clean()) && (publication.Some? ==> (publication.value == "posted" <==> s == Confirmed))
    {
      if publication.Some? {
        if s == Confirmed && publication.value != "posted" {
          RaiseIssue("confirmed_delivery_not_projected_posted", GATE, "");
        } else if s == Failed && publication.value == "posted" {
          RaiseIssue("failed_delivery_projected_posted", GATE, "");
        } else if s == PreparedOnly && publication.value == "posted" {
          RaiseIssue("prepared_payload_projected_posted", GATE, "");
        } else if s == NotNeeded && publication.value == "posted" {
          RaiseIssue("skipped_review_projected_posted", GATE, "");
        } else if s == Unverifiable && publication.value == "posted" {
          RaiseIssue("unverifiable_delivery_projected_posted", GATE, "");
        }
      }
    }

    method CheckProjections() returns (b: Option<Binding>, publication: Option<string>, t: Option<Terminal>)
      requires Valid()
      modifies this
      ensures Valid() && (Clean() <==> old(Clean()) && ProjectionsClean(host, packet))
      ensures b == BindingOf(host, Value(packet, ADMISSION)) && publication == PublicationOf(Value(packet, GATE))
      ensures t == TerminalOf(Value(packet, TERMINAL))
    {
      hide Loads, BindingOf, PublicationOf, GateBound, TerminalOf, Combines;
      var admission := Load(ADMISSION, true);
      b := CheckBinding(admission);
      var gate := Load(GATE, true);
      publication := CheckGate(gate, b);
      var value := Load(TERMINAL, true);
      t := CheckTerminal(value);
    }

    method LoadBoundaries()
      requires Valid()
      modifies this
      ensures Valid() && (Clean() <==> old(Clean()) && BoundariesLoad(packet))
    {
      hide Loads;
      var review := Load(REVIEW, false);
      var skip := Load(SKIP, false);
      var result := Load(RESULT, false);
      var error := Load(ERROR, false);
      var transaction := Load(TRANSACTION, false);
    }

    method CheckSides(b: Option<Binding>, t: Option<Terminal>) returns (ready: bool, s: DeliveryState)
      requires Valid()
      modifies this
      ensures Valid() && (Clean() <==> old(Clean()) && SidesClean(host, packet, b, t))
      ensures ready == SidesReady(host, packet) && s == SidesState(host, packet, b)
    {
      hide PreparedOf, ReviewClean, ReviewState, SkipClean, SkipState, SkipValid, Value;
      ready, s := false, Unverifiable;
      var review, skip := Value(packet, REVIEW) != Null, Value(packet, SKIP) != Null;
      var postXor := Value(packet, RESULT) != Null && Value(packet, ERROR) != Null;
      if review == skip {
        RaiseIssue("prepared_review_xor_violation", "review", "");
        if !review { inputUnavailable := true; }
      }
      if postXor { RaiseIssue("post_receipt_xor_violation", "review", ""); }
      if review != skip && !postXor {
        if review {
          ready, s := CheckReviewSide(b, t);
        } else {
          ready, s := CheckSkipSide(t);
          SkipStateNeedsReady(packet);
        }
      }
    }

    /** `reconcile`: coherent exactly when every boundary of the packet agrees. */
    method Reconcile() returns (r: Report)
      requires Valid() && Clean()
      modifies this
      ensures Valid() && (r.status == CoherentStatus <==> Coherent(host, packet))
      ensures r.status == CoherentStatus ==> Clean()
      ensures r.inputUnavailable ==> r.status == UnverifiableStatus && r.retained > 0
    {
      hide ProjectionsClean, BoundariesLoad, SidesClean, SidesReady, SidesState, Coherent;
      var b, publication, t := CheckProjections();
      LoadBoundaries();
      var ready, s := CheckSides(b, t);
      CheckProjection(publication, s);
      if ProjectionsClean(host, packet) { SidesVerdict(host, packet); }
      CoherentNeedsProjections(host, packet);
      var complete := b.Some? && t.Some? && publication.Some? && ready && s != Unverifiable;
      var status :=
        if inputUnavailable then UnverifiableStatus
        else if issues != {} || issuesTruncated then Contradictory
        else if complete then CoherentStatus else UnverifiableStatus;
      r := Report(status, s, inputUnavailable, |issues|, issuesTruncated);
    }
  }

  lemma SkipStateNeedsReady(p: Packet)
    ensures !SkipValid(Value(p, SKIP)) ==> SkipState(p) == Unverifiable
  {
  }

  lemma CoherentNeedsProjections(h: Host, p: Packet)
    ensures Coherent(h, p) ==> ProjectionsClean(h, p)
    ensures ProjectionsClean(h, p) ==>
      BindingOf(h, Value(p, ADMISSION)).Some? && PublicationOf(Value(p, GATE)).Some? && TerminalOf(Value(p, TERMINAL)).Some?
  {
    hide BindingOf, PublicationOf, TerminalOf;
  }

  // -------------------------------------------------- what a coherent verdict implies

  /** In a coherent packet the gate says `posted` exactly when the delivery is confirmed. */
  lemma PostedExactlyWhenConfirmed(h: Host, p: Packet)
    requires Coherent(h, p)
    ensures PublicationOf(Value(p, GATE)) == Some("posted") <==> SidesState(h, p, BindingOf(h, Value(p, ADMISSION))) == Confirmed
    ensures SidesState(h, p, BindingOf(h, Value(p, ADMISSION))) != Unverifiable
  {
    hide Coherent, ProjectionsClean, SidesState, SidesClean, SidesReady, BoundariesLoad;
    CoherentNeedsProjections(h, p);
    SidesVerdict(h, p);
  }

  /** So a packet that does not say `posted` posted no prepared review, and without a review its skip receipt is valid. */
  lemma NotPostedMeansNotConfirmed(h: Host, p: Packet)
    requires Coherent(h, p) && PublicationOf(Value(p, GATE)) != Some("posted")
    ensures SidesState(h, p, BindingOf(h, Value(p, ADMISSION))) != Confirmed
    ensures Value(p, REVIEW) == Null || Value(p, RESULT) == Null
    ensures Value(p, REVIEW) == Null ==> SkipValid(Value(p, SKIP))
  {
    hide SidesState;
    PostedExactlyWhenConfirmed(h, p);
  }
}
