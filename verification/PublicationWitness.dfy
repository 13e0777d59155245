/** A packet that is coherent and posted: what the publication theorems assume does occur. */
module PublicationWitness {
  import opened Collections
  import opened Strings
  import opened Json
  import opened DeliveryMatching
  import opened Publication
  import RevisionIdentity

  function Oid(): string { Repeat('f', 40) }
  function Hash(): string { Repeat('f', 64) }

  function TheHost(): Host { Host(s => Hash(), s => "r", s => |s|, s => s == "", row => Some("text"), s => s) }

  function TheIdentity(): RevisionIdentity.Identity {
    RevisionIdentity.Identity(RevisionIdentity.CandidateHead, (Oid(), Oid()), (Oid(), Oid()), (Oid(), Oid()), None, Hash(), Hash())
  }

  function TheBinding(): Binding { Binding("r", "candidate_head", Oid(), Oid()) }

  function Admission(): Json {
    Obj(map["schema" := Str("ub-review.revision_admission.v1"), "identity_canonical" := Str(RevisionIdentity.Print(TheIdentity())),
            "identity_digest" := Str("r"), "semantics" := Str("candidate_head"), "reviewed_commit_oid" := Str(Oid()),
            "pr_head_commit" := Str(Oid())])
  }

  function Outcome(): Json {
    Obj(map["schema" := Str("ub-review.gate_outcome.v1"), "publication_result" := Str("posted"), "revision" := RevisionJson(TheBinding())])
  }

  function Ending(): Json {
    Obj(map["schema" := Str("ub-review.terminal_state.v1"), "status" := Str("needs-reviewer-attention"),
            "review_payload_status" := Str("prepared"), "reviewer_value_present" := Bool(true)])
  }

  function TheRow(): Json { Obj(map["path" := Str("p"), "line" := Num(1), "side" := Str("RIGHT"), "body" := Str("b")]) }

  function Review(): Json { Obj(map["event" := Str("COMMENT"), "body" := Str("summary"), "comments" := Arr([TheRow()])]) }

  function ThePrepared(): Prepared { Prepared("summary", [Comment("p", 1, "RIGHT", "text")]) }

  function ThePlan(): Json {
    Obj(map["path" := Str("p"), "line" := Num(1), "side" := Str("RIGHT"), "expected_body_digest" := Str(Hash()),
            "exact_head_sha" := Str(Oid()), "action" := Str("inline"), "claim_id" := Str("c")])
  }

  function Transaction(): Json {
    Obj(map["schema" := Str("ub-review.delivery_transaction.v1"), "exact_head_sha" := Str(Oid()), "state" := Str("receipts_persisted"),
            "cleanup" := Obj(map["status" := Str("not_attempted")]), "planned" := Arr([ThePlan()])])
  }

  function Flags(): map<string, Json> { map f | f in SUCCESS_FLAGS :: Bool(true) }

  function Result(): Json {
    Obj(Flags() + map["schema_version" := Num(1), "status" := Str("ok"), "review_event" := Str("COMMENT"), "review_body_bytes" := Num(7),
                      "review_comment_count" := Num(1), "comments" := Num(1), "pull_number" := Num(3), "http_status" := Num(200),
                      "response" := Obj(map["state" := Str("COMMENTED"), "commit_id" := Str(Oid())])])
  }

  function ThePacket(): Packet {
    Packet(map[ADMISSION := Data(Admission()), GATE := Data(Outcome()), TERMINAL := Data(Ending()), REVIEW := Data(Review()),
               PAYLOAD := Data(PayloadJson(ThePrepared())), TRANSACTION := Data(Transaction()), RESULT := Data(Result())],
      {STDOUT, STDERR})
  }

  lemma TheOidIsValid()
    ensures RevisionIdentity.ValidOid(Oid()) && RevisionIdentity.Hex(Hash(), 64)
  {
    assert RevisionIdentity.HEX[15] == 'f';
  }

  lemma TheBindingHolds()
    ensures BindingOf(TheHost(), Admission()) == Some(TheBinding())
  {
    hide RevisionIdentity.Print, RevisionIdentity.Parse, Oid, Hash, RevisionIdentity.ValidOid, RevisionIdentity.Hex;
    TheOidIsValid();
    RevisionIdentity.ParsePrint(RevisionIdentity.Print(TheIdentity()), TheIdentity());
  }

  lemma TheGatePosted()
    ensures PublicationOf(Outcome()) == Some("posted") && GateBound(Outcome(), Some(TheBinding()))
  {
    hide Oid;
  }

  lemma TheRunEnded()
    ensures TerminalOf(Ending()) == Some(Terminal("needs-reviewer-attention", "prepared", true))
    ensures Combines(Terminal("needs-reviewer-attention", "prepared", true))
  {
  }

  lemma TheReviewIsPrepared()
    ensures PreparedOf(TheHost(), Review()) == Some(ThePrepared())
  {
    hide Hash;
    assert CommentOf(TheHost(), TheRow()) == Some(Comment("p", 1, "RIGHT", "text"));
    assert [TheRow()][1..] == [] && CommentsOf(TheHost(), []) == Some([]);
    assert CommentsOf(TheHost(), [TheRow()]) == Some([Comment("p", 1, "RIGHT", "text")] + []);
    assert [Comment("p", 1, "RIGHT", "text")] + [] == [Comment("p", 1, "RIGHT", "text")];
  }

  lemma ThePlanIsKeyed()
    ensures PlanKey(Some(TheBinding()), ThePlan()) == Some(Key("p", 1, "RIGHT", Hash()))
  {
    hide Oid, Hash, RevisionIdentity.Hex;
    TheOidIsValid();
  }

  lemma TheTransactionIsValid()
    ensures TransactionValid(TheHost(), Transaction(), Some(TheBinding()), ThePrepared())
  {
    hide Oid, Hash, PlanKey, Complete;
    ThePlanIsKeyed();
    var k := Key("p", 1, "RIGHT", Hash());
    assert PlanKeys(Some(TheBinding()), [ThePlan()]) == [Some(k)];
    assert CommentKeys(TheHost(), ThePrepared().comments) == [k];
    CompleteIsBijection([Some(k)], [k]);
    assert Formed([Some(k)]) == [k];
  }

  lemma TheResultSays()
    ensures Get(Result(), "schema_version") == Num(1) && Get(Result(), "status") == Str("ok")
    ensures Get(Result(), "review_event") == Str("COMMENT") && Get(Result(), "review_body_bytes") == Num(7)
    ensures Get(Result(), "review_comment_count") == Num(1) && Get(Result(), "comments") == Num(1)
    ensures Get(Result(), "pull_number") == Num(3) && Get(Result(), "http_status") == Num(200)
    ensures Get(Result(), "response") == Obj(map["state" := Str("COMMENTED"), "commit_id" := Str(Oid())])
  {
    hide Oid, Flags;
  }

  lemma TheReceiptIsValid()
    ensures ReceiptValid(TheHost(), ThePacket(), Result(), ThePrepared(), true)
    ensures ResponseCommit(Get(Result(), "response")) == Some(Oid())
  {
    hide Oid, Result, Admission, Outcome, Ending, Review, Transaction, PayloadJson, RevisionIdentity.ValidOid;
    TheOidIsValid();
    TheResultSays();
    TheFlagsAreSet();
    assert Result().Obj? by { TheResultIsAnObject(); }
    assert |"summary"| == 7;
  }

  lemma TheResultIsAnObject()
    ensures Result().Obj?
  {
  }

  lemma TheFlagsAreSet()
    ensures forall f :: f in SUCCESS_FLAGS ==> Get(Result(), f) == Bool(true)
    ensures Flags().Keys !! {"schema_version", "status", "review_event", "review_body_bytes", "review_comment_count", "comments",
                             "pull_number", "http_status", "response"}
  {
    hide Oid;
  }

  lemma ThePacketIsFiled()
    ensures Value(ThePacket(), ADMISSION) == Admission() && Value(ThePacket(), GATE) == Outcome() && Value(ThePacket(), TERMINAL) == Ending()
    ensures Value(ThePacket(), REVIEW) == Review() && Value(ThePacket(), PAYLOAD) == PayloadJson(ThePrepared())
    ensures Value(ThePacket(), TRANSACTION) == Transaction() && Value(ThePacket(), RESULT) == Result()
    ensures Value(ThePacket(), SKIP) == Null && Value(ThePacket(), ERROR) == Null
    ensures SKIP !in ThePacket().json && ERROR !in ThePacket().json
  {
    hide Admission, Outcome, Ending, Review, PayloadJson, Transaction, Result;
  }

  lemma ThePacketLoads()
    ensures Loads(ThePacket(), ADMISSION, true) && Loads(ThePacket(), GATE, true) && Loads(ThePacket(), TERMINAL, true)
    ensures Loads(ThePacket(), REVIEW, false) && Loads(ThePacket(), SKIP, false) && Loads(ThePacket(), RESULT, false)
    ensures Loads(ThePacket(), ERROR, false) && Loads(ThePacket(), TRANSACTION, false) && Loads(ThePacket(), PAYLOAD, false)
  {
    hide Admission, Outcome, Ending, Review, PayloadJson, Transaction, Result;
  }

  lemma TheProjectionsAgree()
    ensures ProjectionsClean(TheHost(), ThePacket()) && BoundariesLoad(ThePacket())
  {
    hide BindingOf, PublicationOf, GateBound, TerminalOf, Combines, Value, Loads, TheHost, ThePacket, TheBinding;
    ThePacketIsFiled();
    ThePacketLoads();
    TheBindingHolds();
    TheGatePosted();
    TheRunEnded();
  }

  lemma TheStateIsConfirmed()
    ensures PostResult(TheHost(), ThePacket(), Result(), Transaction(), Some(TheBinding()), ThePrepared(), true) == Confirmed
  {
    hide ReceiptValid, TransactionValid, ResponseCommit, Result, Transaction, TheHost, ThePacket, ThePrepared, Oid, Get;
    TheTransactionIsValid();
    TheReceiptIsValid();
  }

  lemma ConfirmedIsCoherent(h: Host, p: Packet, b: Binding, t: Terminal, prepared: Prepared)
    requires PreparedOf(h, Value(p, REVIEW)) == Some(prepared) && Loads(p, PAYLOAD, false) && Value(p, PAYLOAD) == PayloadJson(prepared)
    requires t.payload == "prepared" && Value(p, RESULT) != Null
    requires PostResult(h, p, Value(p, RESULT), Value(p, TRANSACTION), Some(b), prepared, true) == Confirmed
    ensures ReviewCoherent(h, p, b, t, "posted")
  {
    hide PreparedOf, PostResult, PayloadJson, Loads, Value;
  }

  lemma TheDeliveryIsConfirmed()
    ensures ReviewCoherent(TheHost(), ThePacket(), TheBinding(), Terminal("needs-reviewer-attention", "prepared", true), "posted")
  {
    hide PreparedOf, PostResult, PayloadJson, ThePacket, TheHost, Review, Transaction, Result, TheBinding, ThePrepared, Loads, Value,
      ReviewCoherent;
    ThePacketIsFiled();
    ThePacketLoads();
    TheReviewIsPrepared();
    TheStateIsConfirmed();
    TheResultIsAnObject();
    ConfirmedIsCoherent(TheHost(), ThePacket(), TheBinding(), Terminal("needs-reviewer-attention", "prepared", true), ThePrepared());
  }

  /** Some packet is coherent and says `posted`. */
  lemma PostingHappens() returns (h: Host, p: Packet)
    ensures Coherent(h, p) && PublicationOf(Value(p, GATE)) == Some("posted")
  {
    hide BindingOf, PublicationOf, TerminalOf, ProjectionsClean, BoundariesLoad, ReviewCoherent, Review, Result;
    h, p := TheHost(), ThePacket();
    ThePacketIsFiled();
    TheBindingHolds();
    TheGatePosted();
    TheRunEnded();
    TheProjectionsAgree();
    TheDeliveryIsConfirmed();
    assert Review() != Null && Result() != Null by { TheResultIsAnObject(); TheReviewIsAnObject(); }
  }

  lemma TheReviewIsAnObject()
    ensures Review().Obj?
  {
  }
}
