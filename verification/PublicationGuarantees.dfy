/** What a coherent publication packet guarantees, in the fields of its documents: the admission, the prepared review,
    the payload, the delivery transaction, the receipt of the post and the terminal state. */
module PublicationGuarantees {
  import opened Collections
  import opened Json
  import opened DeliveryMatching
  import opened Publication
  import RevisionIdentity

  // ------------------------------------------------------------- the admission

  /** The admission restates the canonical identity `id`. */
  predicate Admits(h: Host, admission: Json, id: RevisionIdentity.Identity) {
    && admission.Obj? && Get(admission, "schema") == Str("ub-review.revision_admission.v1") && RevisionIdentity.Valid(id)
    && Get(admission, "identity_canonical") == Str(RevisionIdentity.Print(id))
    && Get(admission, "identity_digest") == Str(h.revisionDigest(RevisionIdentity.Print(id)))
    && Get(admission, "semantics") == Str(if id.semantics.CandidateHead? then "candidate_head" else "merge_result")
    && Get(admission, "reviewed_commit_oid") == Str(id.reviewed.0) && Get(admission, "pr_head_commit") == Str(id.head.0)
  }

  /** A packet is bound to a revision exactly when its admission restates one, and then to that one. */
  lemma BoundExactlyWhenAdmitted(h: Host, admission: Json)
    ensures BindingOf(h, admission).Some? <==> exists id :: Admits(h, admission, id)
    ensures forall id :: Admits(h, admission, id) ==>
      BindingOf(h, admission) == Some(Binding(
        h.revisionDigest(RevisionIdentity.Print(id)), if id.semantics.CandidateHead? then "candidate_head" else "merge_result",
        id.reviewed.0, id.head.0))
  {
    hide RevisionIdentity.Parse, RevisionIdentity.Print, RevisionIdentity.ValidOid;
    forall id | Admits(h, admission, id)
      ensures BindingOf(h, admission) == Some(Binding(
        h.revisionDigest(RevisionIdentity.Print(id)), if id.semantics.CandidateHead? then "candidate_head" else "merge_result",
        id.reviewed.0, id.head.0))
    {
      RevisionIdentity.ParsePrint(RevisionIdentity.Print(id), id);
    }
    if BindingOf(h, admission).Some? {
      var text := Get(admission, "identity_canonical").s;
      var id := RevisionIdentity.Parse(text).value;
      RevisionIdentity.ParsePrint(text, id);
      assert Admits(h, admission, id);
    }
  }

  // --------------------------------------------------------------- the review

  /** A comment of a prepared review. */
  predicate Publishable(h: Host, row: Json) {
    && row.Obj? && Get(row, "path").Str? && Get(row, "path").s != "" && Get(row, "line").Num? && Get(row, "line").n > 0
    && Get(row, "side").Str? && Get(row, "side").s != "" && Get(row, "body").Str? && !h.blank(Get(row, "body").s)
    && h.publicBody(row).Some?
  }

  predicate ReviewPrepared(h: Host, review: Json) {
    && review.Obj? && Get(review, "event") == Str("COMMENT") && Get(review, "body").Str? && Get(review, "comments").Arr?
    && forall i :: 0 <= i < |Get(review, "comments").items| ==> Publishable(h, Get(review, "comments").items[i])
  }

  /** What is posted for a comment. */
  function PostedComment(h: Host, row: Json): Json
    requires Publishable(h, row)
  {
    Obj(map["path" := Get(row, "path"), "line" := Get(row, "line"), "side" := Get(row, "side"), "body" := Str(h.publicBody(row).value)])
  }

  function PostedReview(h: Host, review: Json): Json
    requires ReviewPrepared(h, review)
  {
    var rows := Get(review, "comments").items;
    Obj(map["event" := Str("COMMENT"), "body" := Get(review, "body"),
            "comments" := Arr(seq(|rows|, i requires 0 <= i < |rows| => PostedComment(h, rows[i])))])
  }

  lemma {:induction false} CommentsArePublishable(h: Host, rows: seq<Json>)
    ensures CommentsOf(h, rows).Some? <==> forall i :: 0 <= i < |rows| ==> Publishable(h, rows[i])
    ensures CommentsOf(h, rows).Some? ==>
      && |CommentsOf(h, rows).value| == |rows|
      && forall i :: 0 <= i < |rows| ==> CommentOf(h, rows[i]) == Some(CommentsOf(h, rows).value[i])
  {
    if rows != [] {
      CommentsArePublishable(h, rows[1..]);
      assert CommentOf(h, rows[0]).Some? <==> Publishable(h, rows[0]);
      if forall i :: 0 <= i < |rows| ==> Publishable(h, rows[i]) {
        assert forall i :: 0 <= i < |rows| - 1 ==> rows[1..][i] == rows[i + 1];
      }
      if CommentsOf(h, rows).Some? {
        forall i | 0 <= i < |rows| ensures Publishable(h, rows[i]) { if i > 0 { assert rows[1..][i - 1] == rows[i]; } }
      }
    }
  }

  /** The payload of a prepared review repeats its body and, in order, each comment's place with its public body; every
      comment has one. */
  lemma PreparedExactlyWhen(h: Host, review: Json)
    ensures PreparedOf(h, review).Some? <==> ReviewPrepared(h, review)
    ensures PreparedOf(h, review).Some? ==>
      && PayloadJson(PreparedOf(h, review).value) == PostedReview(h, review)
      && PreparedOf(h, review).value.body == Get(review, "body").s
      && |PreparedOf(h, review).value.comments| == |Get(review, "comments").items|
      && forall i :: 0 <= i < |Get(review, "comments").items| ==>
           CommentOf(h, Get(review, "comments").items[i]) == Some(PreparedOf(h, review).value.comments[i])
  {
    hide CommentsOf, CommentOf, CommentJson, PostedComment, Publishable;
    if review.Obj? && Get(review, "comments").Arr? {
      var rows := Get(review, "comments").items;
      CommentsArePublishable(h, rows);
      if PreparedOf(h, review).Some? {
        var comments := PreparedOf(h, review).value.comments;
        forall i | 0 <= i < |rows| ensures CommentJson(comments[i]) == PostedComment(h, rows[i]) { CommentIsPosted(h, rows[i]); }
        var payload, posted := PayloadJson(PreparedOf(h, review).value), PostedReview(h, review);
        assert payload.fields["comments"].items == posted.fields["comments"].items;
        assert payload.fields == posted.fields;
      }
    }
  }

  lemma CommentIsPosted(h: Host, row: Json)
    requires CommentOf(h, row).Some? && Publishable(h, row)
    ensures CommentJson(CommentOf(h, row).value) == PostedComment(h, row)
  {
  }

  // ------------------------------------------------------------ the transaction

  /** A planned row: inline, for a claim, at the admitted head, with a SHA-256 digest. */
  predicate PlannedInline(row: Json, head: string) {
    && row.Obj? && Get(row, "exact_head_sha") == Str(head) && Get(row, "action") == Str("inline")
    && Get(row, "claim_id").Str? && Get(row, "claim_id").s != ""
    && Get(row, "path").Str? && Get(row, "line").Num? && Get(row, "side").Str?
    && Get(row, "expected_body_digest").Str? && RevisionIdentity.Hex(Get(row, "expected_body_digest").s, 64)
  }

  /** The row plans the delivery of this comment: its place, and the digest of its public body. */
  predicate Plans(h: Host, row: Json, comment: Json)
    requires row.Obj? && Publishable(h, comment)
  {
    && Get(row, "path") == Get(comment, "path") && Get(row, "line") == Get(comment, "line") && Get(row, "side") == Get(comment, "side")
    && Get(row, "expected_body_digest") == Str(h.sha(h.publicBody(comment).value))
  }

  /** The row plans the comment at `j` and no other. */
  predicate PlansOnly(h: Host, row: Json, comments: seq<Json>, j: int)
    requires row.Obj? && forall k :: 0 <= k < |comments| ==> Publishable(h, comments[k])
  {
    0 <= j < |comments| && forall k :: 0 <= k < |comments| ==> (Plans(h, row, comments[k]) <==> k == j)
  }

  ghost predicate PlansOne(h: Host, row: Json, comments: seq<Json>)
    requires row.Obj? && forall k :: 0 <= k < |comments| ==> Publishable(h, comments[k])
  {
    exists j :: PlansOnly(h, row, comments, j)
  }

  /** The comment is planned by the row at `i` and no other. */
  predicate PlannedOnly(h: Host, rows: seq<Json>, comment: Json, i: int)
    requires Publishable(h, comment) && forall k :: 0 <= k < |rows| ==> rows[k].Obj?
  {
    0 <= i < |rows| && forall k :: 0 <= k < |rows| ==> (Plans(h, rows[k], comment) <==> k == i)
  }

  ghost predicate PlannedOnce(h: Host, rows: seq<Json>, comment: Json)
    requires Publishable(h, comment) && forall k :: 0 <= k < |rows| ==> rows[k].Obj?
  {
    exists i :: PlannedOnly(h, rows, comment, i)
  }

  /** Every row plans exactly one comment, and every comment is planned by exactly one row. */
  ghost predicate OneToOne(h: Host, rows: seq<Json>, comments: seq<Json>)
    requires forall k :: 0 <= k < |comments| ==> Publishable(h, comments[k])
    requires forall k :: 0 <= k < |rows| ==> rows[k].Obj?
  {
    && |rows| == |comments|
    && (forall i :: 0 <= i < |rows| ==> PlansOne(h, rows[i], comments))
    && (forall j :: 0 <= j < |comments| ==> PlannedOnce(h, rows, comments[j]))
  }

  lemma FormedExactlyWhenPlanned(b: Binding, row: Json)
    ensures PlanKey(Some(b), row).Some? <==> PlannedInline(row, b.prHeadCommit)
  {
    hide RevisionIdentity.Hex;
  }

  lemma KeysMatchExactlyWhenPlanned(h: Host, b: Binding, row: Json, comment: Json)
    requires PlannedInline(row, b.prHeadCommit) && Publishable(h, comment)
    ensures PlanKey(Some(b), row).Some? && CommentOf(h, comment).Some?
    ensures var c := CommentOf(h, comment).value;
      PlanKey(Some(b), row).value == Key(c.path, c.line, c.side, h.sha(c.body)) <==> Plans(h, row, comment)
  {
    hide RevisionIdentity.Hex;
  }

  /** The transaction ended cleanly at this head. */
  predicate Settled(t: Json, head: string) {
    && t.Obj? && Get(t, "schema") == Str("ub-review.delivery_transaction.v1") && Get(t, "exact_head_sha") == Str(head)
    && Get(t, "state") == Str("receipts_persisted") && Get(t, "failure") == Null
    && Get(t, "cleanup") == Obj(map["status" := Str("not_attempted")]) && Get(t, "planned").Arr?
  }

  predicate AllPlannedInline(rows: seq<Json>, head: string) { forall i :: 0 <= i < |rows| ==> PlannedInline(rows[i], head) }

  /** A transaction is accepted exactly when it ended cleanly at the admitted head, plans only inline deliveries at that head,
      and its rows and the comments of the review correspond one to one. */
  lemma TransactionExactlyWhen(h: Host, t: Json, b: Binding, review: Json)
    requires ReviewPrepared(h, review) && PreparedOf(h, review).Some?
    ensures TransactionValid(h, t, Some(b), PreparedOf(h, review).value) <==>
      && Settled(t, b.prHeadCommit) && AllPlannedInline(Get(t, "planned").items, b.prHeadCommit)
      && OneToOne(h, Get(t, "planned").items, Get(review, "comments").items)
  {
    hide Complete, OneToOne, PlannedInline, PreparedOf;
    assert TransactionSettled(t, Some(b)) <==> Settled(t, b.prHeadCommit);
    if Settled(t, b.prHeadCommit) { PlanExactlyWhen(h, b, Get(t, "planned").items, review); }
  }

  lemma PlanExactlyWhen(h: Host, b: Binding, rows: seq<Json>, review: Json)
    requires ReviewPrepared(h, review) && PreparedOf(h, review).Some?
    ensures Complete(PlanKeys(Some(b), rows), CommentKeys(h, PreparedOf(h, review).value.comments)) <==>
      AllPlannedInline(rows, b.prHeadCommit) && OneToOne(h, rows, Get(review, "comments").items)
  {
    hide Complete, OneToOne, PlannedInline, PlanKey, PreparedOf, AllFormed, ReviewPrepared;
    var keys, available := PlanKeys(Some(b), rows), CommentKeys(h, PreparedOf(h, review).value.comments);
    CompleteIsBijection(keys, available);
    forall i | 0 <= i < |rows| ensures keys[i].Some? <==> PlannedInline(rows[i], b.prHeadCommit) { FormedExactlyWhenPlanned(b, rows[i]); }
    AllFormedByIndex(keys);
    if AllPlannedInline(rows, b.prHeadCommit) {
      PlannedAreObjects(rows, b.prHeadCommit);
      PlanPairsOff(h, b, rows, review);
    }
  }

  lemma PlannedAreObjects(rows: seq<Json>, head: string)
    requires AllPlannedInline(rows, head)
    ensures forall i :: 0 <= i < |rows| ==> rows[i].Obj?
  {
  }

  lemma AllFormedByIndex(keys: seq<Option<Key>>)
    ensures AllFormed(keys) <==> forall i :: 0 <= i < |keys| ==> keys[i].Some?
  {
  }

  lemma PlanPairsOff(h: Host, b: Binding, rows: seq<Json>, review: Json)
    requires ReviewPrepared(h, review) && PreparedOf(h, review).Some? && AllPlannedInline(rows, b.prHeadCommit)
    requires AllFormed(PlanKeys(Some(b), rows)) && forall i :: 0 <= i < |rows| ==> rows[i].Obj?
    ensures var keys, available := Formed(PlanKeys(Some(b), rows)), CommentKeys(h, PreparedOf(h, review).value.comments);
      multiset(keys) == multiset(available) && Distinct(available) <==> OneToOne(h, rows, Get(review, "comments").items)
  {
    hide PlannedInline, PlanKey, CommentOf, CommentsOf, Plans, Publishable, PreparedOf;
    PreparedExactlyWhen(h, review);
    var comments := Get(review, "comments").items;
    var keys, available := Formed(PlanKeys(Some(b), rows)), CommentKeys(h, PreparedOf(h, review).value.comments);
    PairsOff(keys, available);
    forall i, j | 0 <= i < |rows| && 0 <= j < |comments| ensures keys[i] == available[j] <==> Plans(h, rows[i], comments[j]) {
      KeysMatchExactlyWhenPlanned(h, b, rows[i], comments[j]);
    }
    OneToOneByKeys(h, rows, comments, keys, available);
  }

  lemma OneToOneByKeys(h: Host, rows: seq<Json>, comments: seq<Json>, keys: seq<Key>, available: seq<Key>)
    requires |rows| == |keys| && |comments| == |available| && forall i :: 0 <= i < |rows| ==> rows[i].Obj?
    requires forall j :: 0 <= j < |comments| ==> Publishable(h, comments[j])
    requires forall i, j :: 0 <= i < |rows| && 0 <= j < |comments| ==> (keys[i] == available[j] <==> Plans(h, rows[i], comments[j]))
    ensures |keys| == |available| && HavePlaces(available, keys) && HavePlaces(keys, available) <==> OneToOne(h, rows, comments)
  {
    hide Plans, Publishable;
    forall i | 0 <= i < |rows| ensures HasPlace(available, keys[i]) <==> PlansOne(h, rows[i], comments) {
      forall j ensures OnlyAt(available, keys[i], j) <==> PlansOnly(h, rows[i], comments, j) {}
    }
    forall j | 0 <= j < |comments| ensures HasPlace(keys, available[j]) <==> PlannedOnce(h, rows, comments[j]) {
      forall i ensures OnlyAt(keys, available[j], i) <==> PlannedOnly(h, rows, comments[j], i) {}
    }
  }

  // ----------------------------------------------------- the other documents

  /** The gate publishes this result for the revision of `id`. */
  predicate GateSays(h: Host, gate: Json, id: RevisionIdentity.Identity, publication: string) {
    && gate.Obj? && Get(gate, "schema") == Str("ub-review.gate_outcome.v1") && Get(gate, "publication_result") == Str(publication)
    && publication in {"posted", "not_needed", "failed", "not_proven"}
    && Get(gate, "revision") == Obj(map[
         "digest" := Str(h.revisionDigest(RevisionIdentity.Print(id))),
         "semantics" := Str(if id.semantics.CandidateHead? then "candidate_head" else "merge_result"),
         "reviewed_commit" := Str(id.reviewed.0)])
  }

  /** The run ended in this state. Reviewer attention means that there is something for a reviewer; a prepared review and the
      pass policy need it; `sufficient` and `artifact-only` exclude it. */
  predicate EndedAs(terminal: Json, status: string, payload: string, reviewerValue: bool) {
    && terminal.Obj? && Get(terminal, "schema") == Str("ub-review.terminal_state.v1") && Get(terminal, "status") == Str(status)
    && Get(terminal, "review_payload_status") == Str(payload) && Get(terminal, "reviewer_value_present") == Bool(reviewerValue)
    && var quiet := payload in {"skipped_empty_smoke", "skipped_artifact_only_body", "skipped_gate_failure_artifact_only"};
       || (status == "needs-reviewer-attention" && reviewerValue && (quiet || payload in {"prepared", "skipped_pass_policy"}))
       || (status in {"sufficient", "artifact-only"} && !reviewerValue && quiet)
       || (status == "failed-to-review" && quiet)
  }

  lemma EndedExactlyWhen(terminal: Json, t: Terminal)
    ensures TerminalOf(terminal) == Some(t) && Combines(t) <==> EndedAs(terminal, t.status, t.payload, t.reviewerValue)
  {
  }

  const FLAG_NAMES := {"repo_valid", "review_json_exists", "review_json_valid", "token_present", "payload_written",
                       "post_stdout_written", "post_stderr_written"}

  /** The receipt of a successful post of this review at this head. */
  predicate ReceiptOf(h: Host, receipt: Json, review: Json, head: string)
    requires ReviewPrepared(h, review)
  {
    && receipt.Obj? && EqualsInt(Get(receipt, "schema_version"), 1) && Get(receipt, "status") == Str("ok")
    && (forall name :: name in FLAG_NAMES ==> Get(receipt, name) == Bool(true))
    && Get(receipt, "review_event") == Str("COMMENT") && EqualsInt(Get(receipt, "review_body_bytes"), h.bytes(Get(review, "body").s))
    && EqualsInt(Get(receipt, "review_comment_count"), |Get(review, "comments").items|)
    && EqualsInt(Get(receipt, "comments"), |Get(review, "comments").items|)
    && Get(receipt, "pull_number").Num? && Get(receipt, "pull_number").n > 0
    && Get(receipt, "http_status").Num? && 200 <= Get(receipt, "http_status").n <= 299
    && Get(receipt, "response").Obj? && Get(Get(receipt, "response"), "state") == Str("COMMENTED")
    && Get(Get(receipt, "response"), "commit_id") == Str(head) && RevisionIdentity.ValidOid(head)
  }

  lemma ReceiptExactlyWhen(h: Host, p: Packet, receipt: Json, review: Json, head: string)
    requires ReviewPrepared(h, review) && PreparedOf(h, review).Some?
    ensures receipt.Obj? && ReceiptValid(h, p, receipt, PreparedOf(h, review).value, true) && ResponseCommit(Get(receipt, "response")) == Some(head)
       <==> ReceiptOf(h, receipt, review, head) && "review/post-stdout.json" in p.files && "review/post-stderr.txt" in p.files
  {
    hide RevisionIdentity.ValidOid, PreparedOf;
    PreparedExactlyWhen(h, review);
    if receipt.Obj? { FlagsByName(receipt); }
  }

  lemma FlagsByName(receipt: Json)
    requires receipt.Obj?
    ensures FlagsSet(receipt, SUCCESS_FLAGS) <==> forall name :: name in FLAG_NAMES ==> Get(receipt, name) == Bool(true)
  {
    assert forall name :: name in SUCCESS_FLAGS <==> name in FLAG_NAMES;
  }

  /** The record of a failed post. */
  predicate Failure(e: Json) {
    && e.Obj? && EqualsInt(Get(e, "schema_version"), 1) && Get(e, "status") == Str("failed")
    && Get(e, "error_kind").Str? && Get(e, "failure_stage").Str?
    && var kind, stage := Get(e, "error_kind").s, Get(e, "failure_stage").s;
       || (kind in {"missing_token", "invalid_repo", "missing_pull_number"} && stage == "preflight")
       || (kind == "invalid_review_payload" && stage == "payload_validation")
       || (kind in {"post_http_error", "post_failed"} && stage == "network_post")
       || (kind == "failed" && stage == "unknown")
  }

  lemma FailureExactlyWhen(e: Json)
    ensures PostErrorValid(e) <==> Failure(e)
  {
  }

  /** A skip receipt: these fields and no others, texts that are not empty, and counts that are not negative. */
  predicate Skips(s: Json, status: string, payload: string) {
    && s.Obj? && s.fields.Keys == {
         "schema_version", "status", "reason", "review_payload_status", "terminal_state", "github_review_json", "run_pass", "model_mode",
         "inline_comments", "summary_only_findings", "missing_or_failed_sensor_evidence", "missing_or_failed_model_evidence"}
    && EqualsInt(Get(s, "schema_version"), 1) && Get(s, "status") == Str("skipped") && Get(s, "github_review_json") == Null
    && Get(s, "terminal_state") == Str(status)
    && status in {"needs-reviewer-attention", "sufficient", "artifact-only", "failed-to-review"}
    && Get(s, "review_payload_status") == Str(payload)
    && payload in {"skipped_empty_smoke", "skipped_artifact_only_body", "skipped_pass_policy", "skipped_gate_failure_artifact_only"}
    && (forall name :: name in {"reason", "run_pass", "model_mode"} ==> Get(s, name).Str? && Get(s, name).s != "")
    && forall name :: name in {"inline_comments", "summary_only_findings", "missing_or_failed_sensor_evidence", "missing_or_failed_model_evidence"}
         ==> Get(s, name).Num? && Get(s, name).n >= 0
  }

  lemma SkipExactlyWhen(s: Json)
    ensures SkipValid(s) ==> Skips(s, Get(s, "terminal_state").s, Get(s, "review_payload_status").s)
    ensures forall status, payload :: Skips(s, status, payload) ==> SkipValid(s)
  {
  }

  // --------------------------------------------------------- coherent packets

  /** The document can be read, if it is there. */
  predicate Readable(p: Packet, name: string) { name in p.json ==> p.json[name].Data? }

  /** Admission, gate and terminal state of a packet about the revision of `id`. */
  predicate Framed(h: Host, p: Packet, id: RevisionIdentity.Identity, publication: string, status: string, payload: string, value: bool) {
    && Admits(h, Value(p, "input/revision-admission.json"), id)
    && GateSays(h, Value(p, "review/gate_outcome.json"), id, publication)
    && EndedAs(Value(p, "review/terminal_state.json"), status, payload, value)
    && Readable(p, "review/github-review.json") && Readable(p, "review/github-review-skip.json") && Readable(p, "review/post-result.json")
    && Readable(p, "review/post-error.json") && Readable(p, "review/delivery-transaction.json")
  }

  /** The review was posted as prepared, at the admitted head, by a transaction that delivered each comment once. */
  ghost predicate Posted(h: Host, p: Packet, id: RevisionIdentity.Identity) {
    var review, t := Value(p, "review/github-review.json"), Value(p, "review/delivery-transaction.json");
    && Framed(h, p, id, "posted", "needs-reviewer-attention", "prepared", true)
    && ReviewPrepared(h, review) && Value(p, "review/github-review-post-payload.json") == PostedReview(h, review)
    && Value(p, "review/github-review-skip.json") == Null && Value(p, "review/post-error.json") == Null
    && ReceiptOf(h, Value(p, "review/post-result.json"), review, id.head.0)
    && "review/post-stdout.json" in p.files && "review/post-stderr.txt" in p.files
    && Settled(t, id.head.0) && AllPlannedInline(Get(t, "planned").items, id.head.0)
    && OneToOne(h, Get(t, "planned").items, Get(review, "comments").items)
  }

  /** A review was prepared and not posted: there is no result, and an error, if any, records a failure. */
  predicate Unposted(h: Host, p: Packet, id: RevisionIdentity.Identity, publication: string) {
    var review, payload := Value(p, "review/github-review.json"), Value(p, "review/github-review-post-payload.json");
    && publication != "posted" && Framed(h, p, id, publication, "needs-reviewer-attention", "prepared", true)
    && ReviewPrepared(h, review) && Readable(p, "review/github-review-post-payload.json")
    && (payload == Null || payload == PostedReview(h, review))
    && Value(p, "review/github-review-skip.json") == Null && Value(p, "review/post-result.json") == Null
    && (Value(p, "review/post-error.json") == Null || Failure(Value(p, "review/post-error.json")))
  }

  /** No review was prepared, and the skip receipt says the same as the terminal state; a result only repeats it. */
  predicate Skipped(h: Host, p: Packet, id: RevisionIdentity.Identity, publication: string, status: string, payload: string, value: bool) {
    var skip, result := Value(p, "review/github-review-skip.json"), Value(p, "review/post-result.json");
    && publication != "posted" && Framed(h, p, id, publication, status, payload, value)
    && Value(p, "review/github-review.json") == Null && Skips(skip, status, payload)
    && Value(p, "review/post-error.json") == Null && (result == Null || result == skip)
  }

  lemma FramedExactlyWhen(h: Host, p: Packet, id: RevisionIdentity.Identity, publication: string, t: Terminal)
    requires Admits(h, Value(p, ADMISSION), id)
    ensures Framed(h, p, id, publication, t.status, t.payload, t.reviewerValue) <==>
      ProjectionsClean(h, p) && BoundariesLoad(p) && PublicationOf(Value(p, GATE)) == Some(publication) && TerminalOf(Value(p, TERMINAL)) == Some(t)
  {
    hide RevisionIdentity.Valid, RevisionIdentity.Print, TerminalOf, Combines, EndedAs, BindingOf;
    BoundExactlyWhenAdmitted(h, Value(p, ADMISSION));
    EndedExactlyWhen(Value(p, TERMINAL), t);
    EndedIsObject(Value(p, TERMINAL), t);
  }

  lemma EndedIsObject(terminal: Json, t: Terminal)
    ensures EndedAs(terminal, t.status, t.payload, t.reviewerValue) ==> terminal.Obj?
  {
  }

  predicate PostedSide(h: Host, p: Packet, head: string) {
    var review, t := Value(p, REVIEW), Value(p, TRANSACTION);
    && ReviewPrepared(h, review) && Value(p, PAYLOAD) == PostedReview(h, review) && Value(p, ERROR) == Null
    && ReceiptOf(h, Value(p, RESULT), review, head) && "review/post-stdout.json" in p.files && "review/post-stderr.txt" in p.files
  }

  lemma PostedExactlyWhen(h: Host, p: Packet, b: Binding, t: Terminal)
    requires Value(p, RESULT) != Null
    ensures ReviewCoherent(h, p, b, t, "posted") && Value(p, ERROR) == Null <==>
      && t.payload == "prepared" && PostedSide(h, p, b.prHeadCommit)
      && Settled(Value(p, TRANSACTION), b.prHeadCommit)
      && AllPlannedInline(Get(Value(p, TRANSACTION), "planned").items, b.prHeadCommit)
      && OneToOne(h, Get(Value(p, TRANSACTION), "planned").items, Get(Value(p, REVIEW), "comments").items)
  {
    hide PreparedOf, ReviewPrepared, OneToOne, AllPlannedInline, Settled, TransactionValid, ReceiptValid, ReceiptOf, ResponseCommit, PayloadJson, PostedReview;
    PreparedExactlyWhen(h, Value(p, REVIEW));
    if PreparedOf(h, Value(p, REVIEW)).Some? {
      ReceiptExactlyWhen(h, p, Value(p, RESULT), Value(p, REVIEW), b.prHeadCommit);
      TransactionExactlyWhen(h, Value(p, TRANSACTION), b, Value(p, REVIEW));
      PostedIsNotNull(h, p);
    }
  }

  lemma PostedIsNotNull(h: Host, p: Packet)
    requires ReviewPrepared(h, Value(p, REVIEW))
    ensures PostedReview(h, Value(p, REVIEW)) != Null
    ensures Value(p, PAYLOAD) == PostedReview(h, Value(p, REVIEW)) ==> Loads(p, PAYLOAD, false)
    ensures forall receipt, prepared, verified :: ReceiptValid(h, p, receipt, prepared, verified) ==> receipt.Obj? && verified
  {
  }

  lemma UnpostedExactlyWhen(h: Host, p: Packet, b: Binding, t: Terminal, publication: string)
    requires Value(p, RESULT) == Null
    ensures ReviewCoherent(h, p, b, t, publication) <==>
      && publication != "posted" && t.payload == "prepared" && ReviewPrepared(h, Value(p, REVIEW)) && Readable(p, PAYLOAD)
      && (Value(p, PAYLOAD) == Null || Value(p, PAYLOAD) == PostedReview(h, Value(p, REVIEW)))
      && (Value(p, ERROR) == Null || Failure(Value(p, ERROR)))
  {
    hide PreparedOf, ReviewPrepared, PayloadJson, PostedReview, PostErrorValid, Failure;
    PreparedExactlyWhen(h, Value(p, REVIEW));
    FailureExactlyWhen(Value(p, ERROR));
  }

  lemma SkippedExactlyWhen(p: Packet, t: Terminal, publication: string)
    ensures SkipCoherent(p, t, publication) <==>
      && publication != "posted" && Skips(Value(p, SKIP), t.status, t.payload) && Value(p, ERROR) == Null
      && (Value(p, RESULT) == Null || Value(p, RESULT) == Value(p, SKIP))
  {
    hide SkipValid;
    SkipExactlyWhen(Value(p, SKIP));
  }

  ghost predicate PostedCase(h: Host, p: Packet) { exists id :: Posted(h, p, id) }

  ghost predicate UnpostedCase(h: Host, p: Packet) { exists id, publication :: Unposted(h, p, id, publication) }

  ghost predicate SkippedCase(h: Host, p: Packet) {
    exists id, publication, status, payload, value :: Skipped(h, p, id, publication, status, payload, value)
  }

  lemma CoherentIsOneOf(h: Host, p: Packet)
    requires Coherent(h, p)
    ensures PostedCase(h, p) || UnpostedCase(h, p) || SkippedCase(h, p)
  {
    hide ProjectionsClean, BoundariesLoad, ReviewCoherent, SkipCoherent, Framed, Admits, BindingOf, PublicationOf, TerminalOf, PostedCase,
      UnpostedCase, SkippedCase, ReceiptOf, OneToOne, AllPlannedInline, Settled, ReviewPrepared, PostedReview, Failure, Skips;
    CoherentNeedsProjections(h, p);
    BoundExactlyWhenAdmitted(h, Value(p, ADMISSION));
    var b, publication, t := BindingOf(h, Value(p, ADMISSION)).value, PublicationOf(Value(p, GATE)).value, TerminalOf(Value(p, TERMINAL)).value;
    var id :| Admits(h, Value(p, ADMISSION), id);
    FramedExactlyWhen(h, p, id, publication, t);
    if Value(p, REVIEW) == Null {
      SkippedExactlyWhen(p, t, publication);
      assert Skipped(h, p, id, publication, t.status, t.payload, t.reviewerValue);
      CaseHolds(h, p, id, publication, t);
    } else if Value(p, RESULT) == Null {
      UnpostedExactlyWhen(h, p, b, t, publication);
      PreparedNeedsAttention(h, p, id, publication, t);
      assert Unposted(h, p, id, publication);
      CaseHolds(h, p, id, publication, t);
    } else {
      ResultMeansPosted(h, p, b, t, publication);
      PostedExactlyWhen(h, p, b, t);
      PreparedNeedsAttention(h, p, id, publication, t);
      assert Posted(h, p, id);
      CaseHolds(h, p, id, publication, t);
    }
  }

  lemma ResultMeansPosted(h: Host, p: Packet, b: Binding, t: Terminal, publication: string)
    requires ReviewCoherent(h, p, b, t, publication) && Value(p, RESULT) != Null
    ensures publication == "posted"
  {
    hide PostResult, PreparedOf;
  }

  lemma PreparedNeedsAttention(h: Host, p: Packet, id: RevisionIdentity.Identity, publication: string, t: Terminal)
    requires Framed(h, p, id, publication, t.status, t.payload, t.reviewerValue) && t.payload == "prepared"
    ensures t.status == "needs-reviewer-attention" && t.reviewerValue
  {
    hide Admits, GateSays;
  }

  lemma CaseHolds(h: Host, p: Packet, id: RevisionIdentity.Identity, publication: string, t: Terminal)
    ensures Posted(h, p, id) ==> PostedCase(h, p)
    ensures Unposted(h, p, id, publication) ==> UnpostedCase(h, p)
    ensures Skipped(h, p, id, publication, t.status, t.payload, t.reviewerValue) ==> SkippedCase(h, p)
  {
    hide Posted, Unposted, Skipped;
  }

  lemma FramedIsAdmitted(h: Host, p: Packet, id: RevisionIdentity.Identity, publication: string, status: string, payload: string, value: bool)
    requires Framed(h, p, id, publication, status, payload, value)
    ensures Admits(h, Value(p, ADMISSION), id)
    ensures ProjectionsClean(h, p) && BoundariesLoad(p)
    ensures BindingOf(h, Value(p, ADMISSION)).Some? && BindingOf(h, Value(p, ADMISSION)).value.prHeadCommit == id.head.0
    ensures PublicationOf(Value(p, GATE)) == Some(publication) && TerminalOf(Value(p, TERMINAL)) == Some(Terminal(status, payload, value))
  {
    hide Admits, GateSays, EndedAs, ProjectionsClean, BoundariesLoad, BindingOf, PublicationOf, TerminalOf;
    assert Admits(h, Value(p, ADMISSION), id);
    FramedExactlyWhen(h, p, id, publication, Terminal(status, payload, value));
    BoundExactlyWhenAdmitted(h, Value(p, ADMISSION));
  }

  lemma PostedIsCoherent(h: Host, p: Packet, id: RevisionIdentity.Identity)
    requires Posted(h, p, id)
    ensures Coherent(h, p) && PublicationOf(Value(p, GATE)) == Some("posted")
  {
    hide Framed, ProjectionsClean, BoundariesLoad, BindingOf, PublicationOf, TerminalOf, ReviewCoherent, OneToOne, AllPlannedInline,
      Settled, ReviewPrepared, PostedReview, ReceiptOf;
    FramedIsAdmitted(h, p, id, "posted", "needs-reviewer-attention", "prepared", true);
    var b := BindingOf(h, Value(p, ADMISSION)).value;
    DocumentsAreThere(h, p, id);
    PostedExactlyWhen(h, p, b, Terminal("needs-reviewer-attention", "prepared", true));
  }

  lemma DocumentsAreThere(h: Host, p: Packet, id: RevisionIdentity.Identity)
    requires ReviewPrepared(h, Value(p, REVIEW))
    ensures Value(p, REVIEW) != Null && (ReceiptOf(h, Value(p, RESULT), Value(p, REVIEW), id.head.0) ==> Value(p, RESULT) != Null)
  {
  }

  lemma UnpostedIsCoherent(h: Host, p: Packet, id: RevisionIdentity.Identity, publication: string)
    requires Unposted(h, p, id, publication)
    ensures Coherent(h, p) && PublicationOf(Value(p, GATE)) != Some("posted")
  {
    hide Framed, ProjectionsClean, BoundariesLoad, BindingOf, PublicationOf, TerminalOf, ReviewCoherent, ReviewPrepared, PostedReview, Failure;
    FramedIsAdmitted(h, p, id, publication, "needs-reviewer-attention", "prepared", true);
    var b := BindingOf(h, Value(p, ADMISSION)).value;
    DocumentsAreThere(h, p, id);
    UnpostedExactlyWhen(h, p, b, Terminal("needs-reviewer-attention", "prepared", true), publication);
  }

  lemma SkippedIsCoherent(h: Host, p: Packet, id: RevisionIdentity.Identity, publication: string, status: string, payload: string, value: bool)
    requires Skipped(h, p, id, publication, status, payload, value)
    ensures Coherent(h, p) && PublicationOf(Value(p, GATE)) != Some("posted")
  {
    hide Framed, ProjectionsClean, BoundariesLoad, BindingOf, PublicationOf, TerminalOf, SkipCoherent;
    FramedIsAdmitted(h, p, id, publication, status, payload, value);
    SkippedExactlyWhen(p, Terminal(status, payload, value), publication);
  }

  /** What `coherent` means, in the documents themselves: the review was posted as prepared with each comment delivered once
      at the admitted head, or it was prepared and not posted, or it was skipped; and nothing else is coherent. */
  lemma CoherentExactlyWhen(h: Host, p: Packet)
    ensures Coherent(h, p) <==> PostedCase(h, p) || UnpostedCase(h, p) || SkippedCase(h, p)
  {
    hide Coherent, Posted, Unposted, Skipped;
    if Coherent(h, p) { CoherentIsOneOf(h, p); }
    if PostedCase(h, p) {
      var id :| Posted(h, p, id);
      PostedIsCoherent(h, p, id);
    }
    if UnpostedCase(h, p) {
      var id, publication :| Unposted(h, p, id, publication);
      UnpostedIsCoherent(h, p, id, publication);
    }
    if SkippedCase(h, p) {
      var id, publication, status, payload, value :| Skipped(h, p, id, publication, status, payload, value);
      SkippedIsCoherent(h, p, id, publication, status, payload, value);
    }
  }

  /** A coherent packet whose gate says `posted` delivered exactly what was prepared, at the admitted head. */
  lemma PostedMeansDelivered(h: Host, p: Packet) returns (id: RevisionIdentity.Identity)
    requires Coherent(h, p) && Value(p, "review/gate_outcome.json").Obj?
    requires Get(Value(p, "review/gate_outcome.json"), "publication_result") == Str("posted")
    ensures Posted(h, p, id)
  {
    hide Coherent, Posted, Unposted, Skipped;
    CoherentIsOneOf(h, p);
    if PostedCase(h, p) {
      id :| Posted(h, p, id);
    } else if UnpostedCase(h, p) {
      var other, publication :| Unposted(h, p, other, publication);
      UnpostedIsNotPosted(h, p, other, publication);
      assert false;
    } else {
      var other, publication, status, payload, value :| Skipped(h, p, other, publication, status, payload, value);
      SkippedIsNotPosted(h, p, other, publication, status, payload, value);
      assert false;
    }
  }

  lemma UnpostedIsNotPosted(h: Host, p: Packet, id: RevisionIdentity.Identity, publication: string)
    requires Unposted(h, p, id, publication)
    ensures Value(p, GATE).Obj? && Get(Value(p, GATE), "publication_result") != Str("posted")
  {
    hide Admits, EndedAs, ReviewPrepared, PostedReview, Failure;
  }

  lemma SkippedIsNotPosted(h: Host, p: Packet, id: RevisionIdentity.Identity, publication: string, status: string, payload: string, value: bool)
    requires Skipped(h, p, id, publication, status, payload, value)
    ensures Value(p, GATE).Obj? && Get(Value(p, GATE), "publication_result") != Str("posted")
  {
    hide Admits, EndedAs, Skips;
  }
}
