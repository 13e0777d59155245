/** Cross-projection reconciliation of a current review packet (`scripts/reconcile-task-projections.py`): the
    replay-verified task ledger against receipts, sensors, queue, portfolio, gate, leases and routes. Receipt
    references are kept parsed: `CommandRef(i, j)` is command `j` of receipt `i`, `SensorRef` a sensor status file. */
module TaskProjections {
  import opened Collections
  import opened ProofResults
  import opened TaskPacket
  import opened TaskLedger
  import Strings

  datatype Sensor = Sensor(name: string, status: string)

  datatype Lease = Lease(
    id: Option<string>, consumer: Option<string>, status: string, cpu: Option<int>, memory: Option<int>, disk: Option<int>,
    timeout: Option<int>, worktree: bool, network: bool)

  datatype ProofRequest = ProofRequest(id: Option<string>, required: bool, lane: string)

  datatype Counts = Counts(matched: int, passed: int, failed: int, skipped: int)

  datatype Gate = Gate(conclusion: string, required: Option<Counts>)

  datatype Route = Route(id: Option<string>, receiptId: Option<string>, result: Option<string>, leaseIds: seq<string>)

  /** One packet as loaded. `ledger` is the ledger whose replay was verified, `complete` says that it was, against an
      admitted revision, and `otherIssues` are the issues of the comparisons not modelled. */
  datatype View = View(
    binding: Option<string>, complete: bool, ledger: seq<Task>, proofs: seq<Proof>, sensors: map<string, Sensor>,
    queue: map<string, string>, candidates: set<string>, leases: seq<Lease>, requests: seq<ProofRequest>,
    gate: Option<Gate>, routes: seq<Route>, otherIssues: seq<Issue>)

  // ----------------------------------------------------------------- receipts

  predicate Fits(value: Option<int>, bits: nat) { value.Some? && 0 <= value.value < Pow2(bits) }

  function Pow2(n: nat): nat { if n == 0 then 1 else 2 * Pow2(n - 1) }

  predicate CommandShaped(c: Command) {
    c.duration.Some? && Fits(c.duration, 128) && c.side.Some? && c.side.value != "" && c.status.Some?
  }

  predicate Attributed(p: Proof) { ValidId(p.id) && p.requestIds.Some? && p.requestedBy.Some? }

  predicate Joined(v: View, revision: Option<string>) { v.binding.None? || revision == v.binding }

  predicate CommandsShaped(commands: seq<Command>) {
    (forall c :: c in commands ==> CommandShaped(c)) && forall i, j :: 0 <= i < j < |commands| ==> commands[i].side != commands[j].side
  }

  predicate ReceiptClean(v: View, p: Proof) {
    Attributed(p) && p.schemaKnown && Joined(v, p.revision) && Consistent(p, Review) && p.commands != [] && CommandsShaped(p.commands)
  }

  function ProofIds(proofs: seq<Proof>): (r: seq<Option<string>>)
    ensures |r| == |proofs| && forall i :: 0 <= i < |r| ==> r[i] == proofs[i].id
  {
    seq(|proofs|, i requires 0 <= i < |proofs| => proofs[i].id)
  }

  predicate ReceiptsClean(v: View) {
    (forall i :: 0 <= i < |v.proofs| ==> ReceiptClean(v, v.proofs[i])) && UniqueIds(ProofIds(v.proofs))
  }

  predicate IsCommand(v: View, r: Reference) {
    r.CommandRef? && r.proof < |v.proofs| && r.command < |v.proofs[r.proof].commands|
  }

  function CommandAt(v: View, r: Reference): Command
    requires IsCommand(v, r)
  {
    v.proofs[r.proof].commands[r.command]
  }

  /** Checks one receipt's commands. */
  method CheckCommands(p: Packet, commands: seq<Command>)
    requires p.Valid()
    modifies p`issues, p`overflow, p`inputUnavailable
    ensures p.Valid() && (p.Clean() <==> old(p.Clean()) && CommandsShaped(commands))
  {
    var sides: set<Option<string>> := {};
    for j := 0 to |commands|
      invariant p.Valid() && (p.Clean() <==> old(p.Clean()) && CommandsShaped(commands[..j]))
      invariant p.Clean() ==> sides == set c | c in commands[..j] :: c.side
    {
      var c := commands[j];
      assert commands[..j + 1] == commands[..j] + [c];
      ShapedStep(commands[..j], c);
      p.DemandInput(c.duration.Some? && Fits(c.duration, 128), "invalid_command_duration", "", "");
      p.DemandInput(c.side.Some? && c.side.value != "", "invalid_identity", "", "");
      p.Demand(c.side !in sides, "duplicate_or_invalid_side", "", "");
      p.DemandInput(c.status.Some?, "invalid_command_status", "", "");
      sides := sides + {c.side};
    }
    assert commands[..|commands|] == commands;
  }

  lemma ShapedStep(commands: seq<Command>, c: Command)
    ensures CommandsShaped(commands + [c]) <==>
      CommandsShaped(commands) && CommandShaped(c) && c.side !in set x | x in commands :: x.side
  {
    var all := commands + [c];
    assert all[|commands|] == c;
    assert forall x :: x in all <==> x in commands || x == c;
    if CommandsShaped(all) {
      forall i, j | 0 <= i < j < |commands| ensures commands[i].side != commands[j].side { assert all[i].side != all[j].side; }
      forall x | x in commands ensures x.side != c.side {
        var i :| 0 <= i < |commands| && commands[i] == x;
        assert all[i].side != all[|commands|].side;
      }
    }
  }

  method CheckReceipts(p: Packet, v: View)
    requires p.Valid()
    modifies p`issues, p`overflow, p`inputUnavailable
    ensures p.Valid() && (p.Clean() <==> old(p.Clean()) && ReceiptsClean(v))
  {
    for i := 0 to |v.proofs|
      invariant p.Valid() && (p.Clean() <==> old(p.Clean()) && forall k :: 0 <= k < i ==> ReceiptClean(v, v.proofs[k]))
    {
      hide Consistent, CommandsShaped, Joined;
      var q := v.proofs[i];
      p.DemandInput(Attributed(q), "invalid_proof_attribution", "", "");
      if Attributed(q) {
        p.Demand(q.schemaKnown, "unsupported_receipt_schema", "", q.id.value);
        p.Demand(Joined(v, q.revision), "revision_mismatch", "", q.id.value);
        p.Demand(Consistent(q, Review), "proof_result_command_mismatch", "", q.id.value);
        p.Demand(q.commands != [], "empty_proof_receipt", "", q.id.value);
        CheckCommands(p, q.commands);
      }
    }
    var receipts := p.Index(ProofIds(v.proofs), "");
  }

  // ------------------------------------------------------------------- credit

  /** Artifact names are derived from identifiers by `sanitize`. */
  function CommandTaskId(sanitize: string -> string, p: Proof, c: Command): string
    requires p.id.Some? && c.side.Some?
  {
    "proof-command-" + sanitize(p.id.value) + "-" + sanitize(c.side.value)
  }

  function CommandDisposition(c: Command, t: Task): Option<string> {
    if c.status == Some("skipped") && !t.executed && t.disposition == Some("SetupFailed") then Some("SetupFailed")
    else if c.status == Some("passed") then Some("Succeeded")
    else if c.status == Some("failed") then Some("DeterministicFailure")
    else if c.status == Some("timed_out") then Some("TimedOut")
    else if c.status == Some("skipped") then Some("Cancelled")
    else None
  }

  function SensorDisposition(s: Sensor): Option<string> {
    if s.status == "ok" then Some("Succeeded")
    else if s.status == "failed" then Some("DeterministicFailure")
    else if s.status == "timed_out" then Some("TimedOut")
    else None
  }

  /** The reference of a task resolves to the row it owns. */
  predicate RefClean(sanitize: string -> string, v: View, t: Task, r: Reference) {
    if IsCommand(v, r) then
      var q, c := v.proofs[r.proof], CommandAt(v, r);
      && q.id.Some? && c.side.Some? && t.id == CommandTaskId(sanitize, q, c)
      && (t.disposition.Some? ==> CommandDisposition(c, t) == t.disposition)
    else if r.SensorRef? && r.path in v.sensors then
      && t.id == "sensor-" + v.sensors[r.path].name
      && (t.executed ==> SensorDisposition(v.sensors[r.path]) == t.disposition)
    else false
  }

  predicate TaskClean(sanitize: string -> string, v: View, t: Task) {
    && (t.reference.Some? ==> RefClean(sanitize, v, t, t.reference.value))
    && (t.executed && t.reference.None? ==> t.creationFailed)
    && (t.executed ==> t.resourcesReleased)
    && (t.source == "Sensor" && t.executed ==> t.id in v.queue && v.queue[t.id] != "planned")
  }

  /** No two tasks claim one receipt row. */
  predicate CreditedOnce(ledger: seq<Task>) {
    forall i, j :: 0 <= i < j < |ledger| && ledger[i].reference.Some? ==> ledger[i].reference != ledger[j].reference
  }

  predicate CreditClean(sanitize: string -> string, v: View) {
    (forall i :: 0 <= i < |v.ledger| ==> TaskClean(sanitize, v, v.ledger[i])) && CreditedOnce(v.ledger)
  }

  predicate Credited(v: View, r: Reference) { exists t :: t in v.ledger && t.reference == Some(r) }

  /** The checks of the crediting pass on one task, apart from double claims. */
  method CheckTask(p: Packet, sanitize: string -> string, v: View, t: Task)
    requires p.Valid()
    modifies p`issues, p`overflow
    ensures p.Valid() && (p.Clean() <==> old(p.Clean()) && TaskClean(sanitize, v, t))
  {
    if t.reference.Some? {
      var r := t.reference.value;
      if IsCommand(v, r) {
        var q, c := v.proofs[r.proof], CommandAt(v, r);
        p.Demand(q.id.Some? && c.side.Some? && t.id == CommandTaskId(sanitize, q, c), "receipt_task_identity_mismatch", "", t.id);
        p.Demand(t.disposition.None? || CommandDisposition(c, t) == t.disposition, "conflicting_terminal", "", t.id);
      } else if r.SensorRef? && r.path in v.sensors {
        p.Demand(t.id == "sensor-" + v.sensors[r.path].name, "receipt_task_identity_mismatch", "", t.id);
        p.Demand(!t.executed || SensorDisposition(v.sensors[r.path]) == t.disposition, "conflicting_terminal", "", t.id);
      } else {
        p.RaiseIssue("receipt_missing_or_unrecognized", "", t.id);
      }
    }
    p.Demand(!t.executed || t.reference.Some? || t.creationFailed, "task_without_terminal_receipt", "", t.id);
    p.Demand(!t.executed || t.resourcesReleased, "unreleased_resources", "", t.id);
    if t.source == "Sensor" && t.executed {
      if t.id !in v.queue {
        p.RaiseIssue("executed_sensor_missing_from_queue", "", t.id);
      } else {
        p.Demand(v.queue[t.id] != "planned", "terminal_task_left_planned", "", t.id);
      }
    }
  }

  ghost predicate ClaimedIn(ledger: seq<Task>, r: Reference) { exists t :: t in ledger && t.reference == Some(r) }

  /** The crediting pass: `credited` maps each claimed reference to its last claimant. */
  method CheckCredit(p: Packet, sanitize: string -> string, v: View) returns (credited: map<Reference, Task>)
    requires p.Valid()
    modifies p`issues, p`overflow
    ensures p.Valid() && (p.Clean() <==> old(p.Clean()) && CreditClean(sanitize, v))
    ensures forall r :: r in credited <==> Credited(v, r)
    ensures forall r :: r in credited ==> credited[r] in v.ledger && credited[r].reference == Some(r)
  {
    hide TaskClean, CreditedOnce, ClaimedIn;
    credited := map[];
    ClaimsOfNone();
    for i := 0 to |v.ledger|
      invariant p.Valid()
      invariant p.Clean() <==>
        && old(p.Clean()) && (forall k :: 0 <= k < i ==> TaskClean(sanitize, v, v.ledger[k])) && CreditedOnce(v.ledger[..i])
      invariant forall r :: r in credited <==> ClaimedIn(v.ledger[..i], r)
      invariant forall r :: r in credited ==> credited[r] in v.ledger && credited[r].reference == Some(r)
    {
      var t := v.ledger[i];
      assert v.ledger[..i + 1] == v.ledger[..i] + [t];
      CreditStep(v.ledger[..i], t);
      if t.reference.Some? {
        p.Demand(t.reference.value !in credited, "duplicate_receipt_credit", "", t.id);
        credited := credited[t.reference.value := t];
      }
      CheckTask(p, sanitize, v, t);
    }
    assert v.ledger[..|v.ledger|] == v.ledger;
    ClaimedMeansCredited(v);
  }

  lemma ClaimsOfNone()
    ensures CreditedOnce([]) && forall r :: !ClaimedIn([], r)
  {
  }

  lemma ClaimedMeansCredited(v: View)
    ensures forall r :: ClaimedIn(v.ledger, r) <==> Credited(v, r)
  {
  }

  lemma CreditStep(ledger: seq<Task>, t: Task)
    ensures CreditedOnce(ledger + [t]) <==> CreditedOnce(ledger) && (t.reference.Some? ==> !ClaimedIn(ledger, t.reference.value))
    ensures forall r :: ClaimedIn(ledger + [t], r) <==> ClaimedIn(ledger, r) || t.reference == Some(r)
  {
    var all := ledger + [t];
    assert all[|ledger|] == t;
    assert forall u :: u in all <==> u in ledger || u == t;
    if CreditedOnce(all) {
      forall i, j | 0 <= i < j < |ledger| && ledger[i].reference.Some? ensures ledger[i].reference != ledger[j].reference {
        assert all[i].reference != all[j].reference;
      }
      forall u | u in ledger && t.reference.Some? ensures u.reference != t.reference {
        var i :| 0 <= i < |ledger| && ledger[i] == u;
        assert all[i].reference.Some? ==> all[i].reference != all[|ledger|].reference;
      }
    }
  }

  // ------------------------------------------------------- rows without owner

  /** A command that ran must be owned by a task, queued and planned for. */
  predicate RanClean(v: View, r: Reference)
    requires IsCommand(v, r)
  {
    Ran(CommandAt(v, r)) ==>
      && (v.ledger != [] ==> Credited(v, r))
      && v.proofs[r.proof].id.Some? && v.proofs[r.proof].id.value in v.queue && v.proofs[r.proof].id.value in v.candidates
  }

  ghost predicate AllRanClean(v: View) { forall i: nat, j: nat :: IsCommand(v, CommandRef(i, j)) ==> RanClean(v, CommandRef(i, j)) }

  predicate KnownRow(v: View, r: Reference) { IsCommand(v, r) || (r.SensorRef? && r.path in v.sensors) }

  ghost predicate ExistingClean(v: View, t: Task) {
    t.existingReceipt.Some? ==> KnownRow(v, t.existingReceipt.value) && Credited(v, t.existingReceipt.value)
  }

  ghost predicate SensorClean(v: View, path: string)
    requires path in v.sensors
  {
    var s := v.sensors[path];
    s.status in {"ok", "failed", "timed_out"} ==>
      && (v.ledger != [] ==> Credited(v, SensorRef(path)))
      && (s.status == "ok" && "sensor-" + s.name in v.queue ==> v.queue["sensor-" + s.name] != "planned")
  }

  ghost predicate OwnedClean(v: View) {
    && AllRanClean(v) && (forall i :: 0 <= i < |v.ledger| ==> ExistingClean(v, v.ledger[i]))
    && (forall path :: path in v.sensors ==> SensorClean(v, path))
  }

  method CheckRanCommands(p: Packet, v: View, credited: map<Reference, Task>, i: nat)
    requires p.Valid() && i < |v.proofs| && forall r :: r in credited <==> Credited(v, r)
    modifies p`issues, p`overflow
    ensures p.Valid() && (p.Clean() <==> old(p.Clean()) && forall j: nat :: IsCommand(v, CommandRef(i, j)) ==> RanClean(v, CommandRef(i, j)))
  {
    var q := v.proofs[i];
    for j := 0 to |q.commands|
      invariant p.Valid()
      invariant p.Clean() <==> old(p.Clean()) && forall k: nat :: k < j && IsCommand(v, CommandRef(i, k)) ==> RanClean(v, CommandRef(i, k))
    {
      if Ran(q.commands[j]) {
        p.Demand(v.ledger == [] || CommandRef(i, j) in credited, "receipt_without_task", "", "");
        p.Demand(q.id.Some? && q.id.value in v.queue, "executed_proof_missing_from_queue", "", "");
        p.Demand(q.id.Some? && q.id.value in v.candidates, "executed_proof_missing_from_portfolio", "", "");
      }
      assert CommandAt(v, CommandRef(i, j)) == q.commands[j];
    }
  }

  method CheckOwned(p: Packet, v: View, credited: map<Reference, Task>)
    requires p.Valid() && forall r :: r in credited <==> Credited(v, r)
    modifies p`issues, p`overflow
    ensures p.Valid() && (p.Clean() <==> old(p.Clean()) && OwnedClean(v))
  {
    hide Credited, RanClean;
    for i := 0 to |v.proofs|
      invariant p.Valid()
      invariant p.Clean() <==> old(p.Clean()) && forall k: nat, j: nat :: k < i && IsCommand(v, CommandRef(k, j)) ==> RanClean(v, CommandRef(k, j))
    {
      CheckRanCommands(p, v, credited, i);
    }
    for i := 0 to |v.ledger|
      invariant p.Valid()
      invariant p.Clean() <==> old(p.Clean()) && AllRanClean(v) && forall k :: 0 <= k < i ==> ExistingClean(v, v.ledger[k])
    {
      var t := v.ledger[i];
      if t.existingReceipt.Some? {
        if !KnownRow(v, t.existingReceipt.value) {
          p.RaiseIssue("existing_receipt_missing", "", t.id);
        } else {
          p.Demand(t.existingReceipt.value in credited, "existing_receipt_without_executed_owner", "", t.id);
        }
      }
    }
    CheckSensors(p, v, credited);
  }

  method CheckSensors(p: Packet, v: View, credited: map<Reference, Task>)
    requires p.Valid() && forall r :: r in credited <==> Credited(v, r)
    modifies p`issues, p`overflow
    ensures p.Valid() && (p.Clean() <==> old(p.Clean()) && forall path :: path in v.sensors ==> SensorClean(v, path))
  {
    hide Credited;
    var paths := v.sensors.Keys;
    while paths != {}
      invariant p.Valid() && paths <= v.sensors.Keys
      invariant p.Clean() <==> old(p.Clean()) && forall path :: path in v.sensors && path !in paths ==> SensorClean(v, path)
      decreases paths
    {
      var path :| path in paths;
      var s := v.sensors[path];
      if s.status in {"ok", "failed", "timed_out"} {
        p.Demand(v.ledger == [] || SensorRef(path) in credited, "receipt_without_task", path, "");
        if s.status == "ok" && "sensor-" + s.name in v.queue {
          p.Demand(v.queue["sensor-" + s.name] != "planned", "successful_sensor_left_planned", path, "");
        }
      }
      paths := paths - {path};
    }
  }

  // ------------------------------------------------------------ required proof

  function Policy(requests: seq<ProofRequest>): seq<ProofRequest> {
    Filter((r: ProofRequest) => r.required && r.lane == "intelligent-ci-policy", requests)
  }

  predicate Answers(p: Proof, r: ProofRequest) { r.id.Some? && p.requestIds.Some? && r.id.value in p.requestIds.value }

  /** Positions of the first `n` receipts that name the request. */
  function Matching(v: View, r: ProofRequest, n: nat): (m: seq<nat>)
    requires n <= |v.proofs|
    ensures forall i: nat :: i in m <==> i < n && Answers(v.proofs[i], r)
  {
    if n == 0 then []
    else Matching(v, r, n - 1) + if Answers(v.proofs[n - 1], r) then [n - 1] else []
  }

  function Receipts(v: View, r: ProofRequest): (m: seq<nat>)
    ensures forall i: nat :: i in m <==> i < |v.proofs| && Answers(v.proofs[i], r)
  {
    Matching(v, r, |v.proofs|)
  }

  predicate Passing(result: Option<string>) { result in {Some("head_passed"), Some("discriminating")} }

  /** Bound to the revision, consistent, passing, and credited command by command. */
  predicate Satisfying(v: View, i: nat)
    requires i < |v.proofs|
  {
    var q := v.proofs[i];
    && q.revision == v.binding && Passing(q.result) && Consistent(q, Review) && q.commands != []
    && forall j :: 0 <= j < |q.commands| ==> Credited(v, CommandRef(i, j))
  }

  function Bucketed(c: Counts, result: Option<string>): Counts {
    if Passing(result) then c.(passed := c.passed + 1)
    else if result in {Some("head_failed"), Some("timed_out")} then c.(failed := c.failed + 1)
    else c.(skipped := c.skipped + 1)
  }

  function ResultOf(v: View, r: ProofRequest): Option<string> {
    var m := Receipts(v, r);
    if m == [] then None else assert m[0] in m; v.proofs[m[0]].result
  }

  /** The counts of the first `n` required requests. */
  function Classified(v: View, rs: seq<ProofRequest>, n: nat): (c: Counts)
    requires n <= |rs|
    ensures c.matched == |rs| && c.passed + c.failed + c.skipped == n && c.passed >= 0 && c.failed >= 0 && c.skipped >= 0
  {
    if n == 0 then Counts(|rs|, 0, 0, 0) else Bucketed(Classified(v, rs, n - 1), ResultOf(v, rs[n - 1]))
  }

  predicate SatisfiedBy(v: View, i: nat) { i < |v.proofs| && Satisfying(v, i) }

  predicate RequestClean(v: View, r: ProofRequest, conclusion: string) {
    |Receipts(v, r)| <= 1 && (conclusion == "pass" ==> exists k :: 0 <= k < |Receipts(v, r)| && SatisfiedBy(v, Receipts(v, r)[k]))
  }

  function RequestIds(requests: seq<ProofRequest>): (r: seq<Option<string>>)
    ensures |r| == |requests| && forall i :: 0 <= i < |r| ==> r[i] == requests[i].id
  {
    seq(|requests|, i requires 0 <= i < |requests| => requests[i].id)
  }

  predicate RequiredClean(v: View) {
    v.gate.Some? && UniqueIds(RequestIds(v.requests)) &&
    var rs := Policy(v.requests);
    && v.gate.value.required == Some(Classified(v, rs, |rs|))
    && forall i :: 0 <= i < |rs| ==> RequestClean(v, rs[i], v.gate.value.conclusion)
  }

  /** One required request: its receipts and the result that classifies it. */
  method CheckRequest(p: Packet, v: View, credited: map<Reference, Task>, r: ProofRequest, conclusion: string)
    returns (result: Option<string>)
    requires p.Valid() && forall k :: k in credited <==> Credited(v, k)
    modifies p`issues, p`overflow
    ensures p.Valid() && (p.Clean() <==> old(p.Clean()) && RequestClean(v, r, conclusion)) && result == ResultOf(v, r)
  {
    hide Credited, Satisfying, Answers;
    var matching := Receipts(v, r);
    assert forall k :: 0 <= k < |matching| ==> matching[k] in matching;
    p.Demand(|matching| <= 1, "ambiguous_required_receipt", "", "");
    result := if matching == [] then None else v.proofs[matching[0]].result;
    var successful := FirstSatisfying(v, credited, matching);
    p.Demand(conclusion != "pass" || successful, "pass_without_required_receipt", "", "");
  }

  method CheckRequired(p: Packet, v: View, credited: map<Reference, Task>)
    requires p.Valid() && forall r :: r in credited <==> Credited(v, r)
    modifies p`issues, p`overflow
    ensures p.Valid() && (p.Clean() <==> old(p.Clean()) && RequiredClean(v))
  {
    hide Credited, RequestClean, ResultOf, Policy, UniqueIds, RequestIds, Classified;
    var index := p.Index(RequestIds(v.requests), "review/proof_requests.json");
    if v.gate.None? {
      p.RaiseIssue("missing_projection", "review/gate_outcome.json", "");
      return;
    }
    var gate, rs := v.gate.value, Policy(v.requests);
    p.Demand(gate.required.Some? && gate.required.value.matched == |rs|, "required_request_count_mismatch", "", "");
    var classified := ClassifyRequests(p, v, credited, rs, gate.conclusion);
    p.Demand(gate.required == Some(classified), "required_receipt_count_mismatch", "", "");
  }

  /** The requests one by one, with their count by result. */
  method ClassifyRequests(p: Packet, v: View, credited: map<Reference, Task>, rs: seq<ProofRequest>, conclusion: string) returns (classified: Counts)
    requires p.Valid() && forall r :: r in credited <==> Credited(v, r)
    modifies p`issues, p`overflow
    ensures p.Valid() && classified == Classified(v, rs, |rs|)
    ensures p.Clean() <==> old(p.Clean()) && forall k :: 0 <= k < |rs| ==> RequestClean(v, rs[k], conclusion)
  {
    hide Credited, RequestClean, ResultOf;
    classified := Counts(|rs|, 0, 0, 0);
    for n := 0 to |rs|
      invariant p.Valid() && classified == Classified(v, rs, n)
      invariant p.Clean() <==> old(p.Clean()) && forall k :: 0 <= k < n ==> RequestClean(v, rs[k], conclusion)
    {
      var result := CheckRequest(p, v, credited, rs[n], conclusion);
      classified := Bucketed(classified, result);
    }
  }

  /** Whether any matching receipt satisfies its request. */
  method FirstSatisfying(v: View, credited: map<Reference, Task>, matching: seq<nat>) returns (found: bool)
    requires forall k :: 0 <= k < |matching| ==> matching[k] < |v.proofs|
    requires forall r :: r in credited <==> Credited(v, r)
    ensures found <==> exists k :: 0 <= k < |matching| && SatisfiedBy(v, matching[k])
  {
    hide Credited, Consistent;
    found := false;
    for n := 0 to |matching|
      invariant found <==> exists k :: 0 <= k < n && SatisfiedBy(v, matching[k])
    {
      var i := matching[n];
      var q := v.proofs[i];
      var paid := forall j :: 0 <= j < |q.commands| ==> CommandRef(i, j) in credited;
      if q.revision == v.binding && Passing(q.result) && Consistent(q, Review) && q.commands != [] && paid {
        assert SatisfiedBy(v, matching[n]);
        found := true;
      }
    }
  }

  // ------------------------------------------------------------------- leases

  predicate QuantitiesFit(l: Lease) {
    && Fits(l.cpu, 32) && Fits(l.memory, 64) && Fits(l.disk, 64) && Fits(l.timeout, 64)
  }

  function Granted(v: View, consumer: Option<string>): seq<Lease> {
    Filter((l: Lease) => l.consumer == consumer && l.status == "granted", v.leases)
  }

  predicate HeadRan(p: Proof) { exists c :: c in p.commands && c.side == Some("head") && Ran(c) }

  predicate HeadLeased(v: View, p: Proof) { HeadRan(p) ==> Granted(v, p.id) != [] }

  predicate LeaseClean(v: View, l: Lease) {
    QuantitiesFit(l) && (l.status == "granted" ==> l.consumer.Some? && exists p :: p in v.proofs && p.id == l.consumer)
  }

  function LeaseIds(leases: seq<Lease>): (r: seq<Option<string>>)
    ensures |r| == |leases| && forall i :: 0 <= i < |r| ==> r[i] == leases[i].id
  {
    seq(|leases|, i requires 0 <= i < |leases| => leases[i].id)
  }

  predicate LeasesClean(v: View) {
    && UniqueIds(LeaseIds(v.leases)) && (forall i :: 0 <= i < |v.leases| ==> LeaseClean(v, v.leases[i]))
    && (forall i :: 0 <= i < |v.proofs| ==> HeadLeased(v, v.proofs[i]))
  }

  predicate ReservationsShaped(rs: seq<Reservation>) {
    && (forall r :: r in rs ==> r.resource.Some? && Fits(r.units, 64) && r.units.value > 0)
    && forall i, j :: 0 <= i < j < |rs| ==> rs[i].resource != rs[j].resource
  }

  /** Units by resource class; later entries of a class are ignored. */
  function Reserved(rs: seq<Reservation>, n: nat): map<string, int>
    requires n <= |rs|
  {
    if n == 0 then map[]
    else
      var t, r := Reserved(rs, n - 1), rs[n - 1];
      if r.resource.None? || r.units.None? || r.resource.value in t then t else t[r.resource.value := r.units.value]
  }

  /** What a command must reserve under its lease. */
  function Expected(p: Proof, c: Command, l: Lease): map<string, int>
    requires QuantitiesFit(l)
  {
    var cpu := if l.cpu.value > 0 then map["Cpu" := l.cpu.value] else map[];
    var memory := if l.memory.value > 0 then cpu["Memory" := l.memory.value] else cpu;
    var disk := if l.disk.value > 0 then memory["Disk" := l.disk.value] else memory;
    var slot := disk[(if p.kind == Some("focused-build") then "Build" else "Test") := 1];
    var tree := if c.side == Some("base-plus-tests") && l.worktree then slot["Worktree" := 1] else slot;
    if l.network then tree["Network" := 1] else tree
  }

  predicate ReservationClean(v: View, t: Task, r: Reference) {
    ReservationsShaped(t.reservations) &&
    (IsCommand(v, r) ==>
      var grants := Granted(v, v.proofs[r.proof].id);
      |grants| <= 1 && (|grants| == 1 && QuantitiesFit(grants[0]) ==>
        Reserved(t.reservations, |t.reservations|) == Expected(v.proofs[r.proof], CommandAt(v, r), grants[0])))
  }

  predicate ReservationsClean(v: View) {
    forall t :: t in v.ledger && t.reference.Some? ==> ReservationClean(v, t, t.reference.value)
  }

  method CheckLeases(p: Packet, v: View)
    requires p.Valid()
    modifies p`issues, p`overflow, p`inputUnavailable
    ensures p.Valid() && (p.Clean() <==> old(p.Clean()) && LeasesClean(v))
  {
    hide UniqueIds, HeadLeased;
    var index := p.Index(LeaseIds(v.leases), "review/resource_leases.json");
    for i := 0 to |v.leases|
      invariant p.Valid()
      invariant p.Clean() <==> old(p.Clean()) && UniqueIds(LeaseIds(v.leases)) && forall k :: 0 <= k < i ==> LeaseClean(v, v.leases[k])
    {
      var l := v.leases[i];
      p.DemandInput(QuantitiesFit(l), "invalid_lease_quantity", "", "");
      p.Demand(l.status != "granted" || (l.consumer.Some? && exists q :: q in v.proofs && q.id == l.consumer), "granted_lease_without_receipt", "", "");
    }
    for i := 0 to |v.proofs|
      invariant p.Valid()
      invariant p.Clean() <==>
        && old(p.Clean()) && UniqueIds(LeaseIds(v.leases)) && (forall k :: 0 <= k < |v.leases| ==> LeaseClean(v, v.leases[k]))
        && forall k :: 0 <= k < i ==> HeadLeased(v, v.proofs[k])
    {
      p.Demand(HeadLeased(v, v.proofs[i]), "executed_proof_without_lease", "", "");
    }
  }

  /** Reads one task's reservations into a table. */
  method ReadReservations(p: Packet, rs: seq<Reservation>) returns (table: map<string, int>)
    requires p.Valid()
    modifies p`issues, p`overflow, p`inputUnavailable
    ensures p.Valid() && (p.Clean() <==> old(p.Clean()) && ReservationsShaped(rs))
    ensures p.Clean() ==> table == Reserved(rs, |rs|)
  {
    table := map[];
    for i := 0 to |rs|
      invariant p.Valid() && (p.Clean() <==> old(p.Clean()) && ReservationsShaped(rs[..i]))
      invariant p.Clean() ==> table == Reserved(rs, i) && table.Keys == set r | r in rs[..i] && r.resource.Some? :: r.resource.value
    {
      var r := rs[i];
      assert rs[..i + 1] == rs[..i] + [r];
      ReservationStep(rs[..i], r);
      if r.resource.None? || !Fits(r.units, 64) || r.units.value == 0 {
        p.DemandInput(false, "invalid_reservation", "", "");
      } else if r.resource.value in table {
        p.RaiseIssue("duplicate_reservation", "", "");
      } else {
        table := table[r.resource.value := r.units.value];
      }
    }
    assert rs[..|rs|] == rs;
  }

  lemma ReservationStep(rs: seq<Reservation>, r: Reservation)
    ensures ReservationsShaped(rs + [r]) <==>
      && ReservationsShaped(rs) && r.resource.Some? && Fits(r.units, 64) && r.units.value > 0
      && r.resource.value !in set x | x in rs && x.resource.Some? :: x.resource.value
  {
    var all := rs + [r];
    assert all[|rs|] == r;
    assert forall x :: x in all <==> x in rs || x == r;
    if ReservationsShaped(all) {
      forall i, j | 0 <= i < j < |rs| ensures rs[i].resource != rs[j].resource { assert all[i].resource != all[j].resource; }
      forall x | x in rs && x.resource.Some? ensures x.resource != r.resource {
        var i :| 0 <= i < |rs| && rs[i] == x;
        assert all[i].resource != all[|rs|].resource;
      }
    }
  }

  method CheckReservation(p: Packet, v: View, t: Task, r: Reference)
    requires p.Valid()
    modifies p`issues, p`overflow, p`inputUnavailable
    ensures p.Valid() && (p.Clean() <==> old(p.Clean()) && ReservationClean(v, t, r))
  {
    hide ReservationsShaped, Expected, QuantitiesFit;
    var table := ReadReservations(p, t.reservations);
    if IsCommand(v, r) {
      var q, c := v.proofs[r.proof], CommandAt(v, r);
      var grants := Granted(v, q.id);
      p.Demand(|grants| <= 1, "ambiguous_command_lease", "", "");
      if |grants| == 1 && QuantitiesFit(grants[0]) {
        p.Demand(table == Expected(q, c, grants[0]), "lease_reservation_mismatch", "", t.id);
      }
    }
  }

  method CheckReservations(p: Packet, v: View, credited: map<Reference, Task>)
    requires p.Valid() && (p.Clean() ==> CreditedOnce(v.ledger))
    requires forall r :: r in credited <==> Credited(v, r)
    requires forall r :: r in credited ==> credited[r] in v.ledger && credited[r].reference == Some(r)
    modifies p`issues, p`overflow, p`inputUnavailable
    ensures p.Valid() && (p.Clean() <==> old(p.Clean()) && ReservationsClean(v))
  {
    hide ReservationClean;
    ghost var clean := p.Clean();
    var refs := credited.Keys;
    while refs != {}
      invariant p.Valid() && refs <= credited.Keys
      invariant p.Clean() <==> clean && forall r :: r in credited && r !in refs ==> ReservationClean(v, credited[r], r)
      decreases refs
    {
      var r :| r in refs;
      CheckReservation(p, v, credited[r], r);
      refs := refs - {r};
    }
    if clean { ClaimantsAreTasks(v, credited); }
  }

  /** When no reference is claimed twice, the table of claimants covers every crediting task. */
  lemma ClaimantsAreTasks(v: View, credited: map<Reference, Task>)
    requires CreditedOnce(v.ledger) && forall r :: r in credited <==> Credited(v, r)
    requires forall r :: r in credited ==> credited[r] in v.ledger && credited[r].reference == Some(r)
    ensures (forall r :: r in credited ==> ReservationClean(v, credited[r], r)) <==> ReservationsClean(v)
  {
    hide ReservationClean;
    forall t | t in v.ledger && t.reference.Some? ensures t.reference.value in credited && credited[t.reference.value] == t {
      assert Credited(v, t.reference.value);
      var other := credited[t.reference.value];
      var i, j :| 0 <= i < |v.ledger| && v.ledger[i] == t && 0 <= j < |v.ledger| && v.ledger[j] == other;
    }
  }

  // ------------------------------------------------------------------- routes

  predicate LeaseOf(v: View, id: string, receiptId: Option<string>) {
    exists l :: l in v.leases && l.id == Some(id) && l.consumer == receiptId
  }

  /** A route names a receipt, repeats its result and lists exactly its leases. */
  ghost predicate RouteClean(v: View, r: Route) {
    && ValidId(r.receiptId) && (exists p :: p in v.proofs && p.id == r.receiptId && p.result == r.result)
    && Distinct(r.leaseIds) && (forall id :: id in r.leaseIds <==> LeaseOf(v, id, r.receiptId))
  }

  function ReceiptIds(routes: seq<Route>): (r: seq<Option<string>>)
    ensures |r| == |routes| && forall i :: 0 <= i < |r| ==> r[i] == routes[i].receiptId
  {
    seq(|routes|, i requires 0 <= i < |routes| => routes[i].receiptId)
  }

  function RouteIds(routes: seq<Route>): (r: seq<Option<string>>)
    ensures |r| == |routes| && forall i :: 0 <= i < |r| ==> r[i] == routes[i].id
  {
    seq(|routes|, i requires 0 <= i < |routes| => routes[i].id)
  }

  ghost predicate RoutesClean(v: View) {
    && UniqueIds(RouteIds(v.routes)) && (forall i :: 0 <= i < |v.routes| ==> RouteClean(v, v.routes[i]))
    && Distinct(ReceiptIds(v.routes))
    && (forall i :: 0 <= i < |v.proofs| ==> v.proofs[i].id in ReceiptIds(v.routes))
  }

  /** Sets of identifiers, as the code compares them. */
  function LeaseSet(v: View, receiptId: Option<string>): (r: set<string>)
    ensures forall id :: id in r <==> LeaseOf(v, id, receiptId)
  {
    var all := set l | l in v.leases && l.id.Some? :: l.id.value;
    set id | id in all && LeaseOf(v, id, receiptId)
  }

  method CheckRoute(p: Packet, v: View, r: Route, routed: set<Option<string>>)
    requires p.Valid()
    modifies p`issues, p`overflow, p`inputUnavailable
    ensures p.Valid() && (p.Clean() <==> old(p.Clean()) && RouteClean(v, r) && r.receiptId !in routed)
  {
    if !ValidId(r.receiptId) {
      p.DemandInput(false, "invalid_identity", "review/receipt_routes.json", "");
      return;
    }
    p.Demand(r.receiptId !in routed, "duplicate_receipt_route", "", r.receiptId.value);
    p.Demand(exists q :: q in v.proofs && q.id == r.receiptId && q.result == r.result, "route_receipt_mismatch", "", "");
    var listed := set id | id in r.leaseIds;
    p.Demand(Distinct(r.leaseIds) && listed == LeaseSet(v, r.receiptId), "route_lease_inventory_mismatch", "", r.receiptId.value);
    assert listed == LeaseSet(v, r.receiptId) <==> forall id :: id in r.leaseIds <==> LeaseOf(v, id, r.receiptId) by {
      assert forall id :: id in listed <==> id in r.leaseIds;
    }
  }

  lemma DistinctStep<T>(s: seq<T>, x: T)
    ensures Distinct(s + [x]) <==> Distinct(s) && x !in s
  {
    var all := s + [x];
    assert all[|s|] == x;
    if Distinct(all) {
      forall i, j | 0 <= i < j < |s| ensures s[i] != s[j] { assert all[i] != all[j]; }
      forall i | 0 <= i < |s| ensures s[i] != x { assert all[i] != all[|s|]; }
    }
  }

  method CheckRoutes(p: Packet, v: View)
    requires p.Valid()
    modifies p`issues, p`overflow, p`inputUnavailable
    ensures p.Valid() && (p.Clean() <==> old(p.Clean()) && RoutesClean(v))
  {
    hide RouteClean, Distinct, UniqueIds;
    var index := p.Index(RouteIds(v.routes), "review/receipt_routes.json");
    var ids := ReceiptIds(v.routes);
    var routed: set<Option<string>> := {};
    assert Distinct(ids[..0]) by { EmptyIsDistinct(ids[..0]); }
    for i := 0 to |v.routes|
      invariant p.Valid() && routed == set id | id in ids[..i]
      invariant p.Clean() <==>
        && old(p.Clean()) && UniqueIds(RouteIds(v.routes))
        && (forall k :: 0 <= k < i ==> RouteClean(v, v.routes[k])) && Distinct(ids[..i])
    {
      assert ids[..i + 1] == ids[..i] + [ids[i]];
      DistinctStep(ids[..i], ids[i]);
      CheckRoute(p, v, v.routes[i], routed);
      routed := routed + {v.routes[i].receiptId};
    }
    assert ids[..|ids|] == ids;
    for i := 0 to |v.proofs|
      invariant p.Valid()
      invariant p.Clean() <==>
        && old(p.Clean()) && UniqueIds(RouteIds(v.routes))
        && (forall k :: 0 <= k < |v.routes| ==> RouteClean(v, v.routes[k])) && Distinct(ids)
        && forall k :: 0 <= k < i ==> v.proofs[k].id in ids
    {
      p.Demand(v.proofs[i].id in routed, "receipt_without_route", "", "");
    }
  }

  lemma EmptyIsDistinct<T>(s: seq<T>)
    requires s == []
    ensures Distinct(s)
  {
  }

  // ------------------------------------------------------------------ verdict

  datatype Status = Coherent | Contradictory | Unverifiable

  /** Every modelled comparison agrees, and the others raised nothing. */
  ghost predicate Agrees(sanitize: string -> string, v: View) {
    && ReceiptsClean(v) && CreditClean(sanitize, v) && OwnedClean(v) && LeasesClean(v) && ReservationsClean(v)
    && RequiredClean(v) && RoutesClean(v) && v.otherIssues == []
  }

  const MAX_ROWS: nat := 16384

  /** The documents of a packet: the event stream and the snapshot of the ledger, and everything else as loaded. */
  datatype Documents = Documents(events: Option<string>, snapshot: Option<seq<Entry>>, rest: View)

  predicate ReplayVerified(f: Format, d: Documents) {
    d.events.Some? && d.snapshot.Some? && d.rest.binding.Some? && Verified(f, d.events.value, d.snapshot.value)
  }

  function TasksOf(snapshot: seq<Entry>): (tasks: seq<Task>)
    ensures |tasks| == |snapshot| && forall i :: 0 <= i < |tasks| ==> tasks[i] == AsTask(snapshot[i])
  {
    seq(|snapshot|, i requires 0 <= i < |snapshot| => AsTask(snapshot[i]))
  }

  /** The packet with the ledger that the replay vouches for; rows past the limit are not read. */
  function Loaded(f: Format, d: Documents): View {
    d.rest.(
      complete := ReplayVerified(f, d),
      ledger := if ReplayVerified(f, d) && |d.snapshot.value| <= MAX_ROWS then TasksOf(d.snapshot.value) else [])
  }

  /** Both ledger documents are there, a replay that was tried succeeded, and its rows were read. */
  predicate LedgerClean(f: Format, d: Documents) {
    && d.events.Some? && d.snapshot.Some?
    && (d.rest.binding.Some? ==> ReplayVerified(f, d) && |d.snapshot.value| <= MAX_ROWS)
  }

  /** What the verdict `coherent` means. */
  ghost predicate CoherentPacket(f: Format, sanitize: string -> string, d: Documents) {
    LedgerClean(f, d) && Loaded(f, d).complete && Agrees(sanitize, Loaded(f, d))
  }

  /** The ledger section: read, replay, index. */
  method LoadLedger(p: Packet, f: Format, d: Documents) returns (v: View)
    requires p.Valid()
    modifies p`issues, p`overflow, p`inputUnavailable
    ensures v == Loaded(f, d) && p.Valid() && (p.Clean() <==> old(p.Clean()) && LedgerClean(f, d))
  {
    hide Verified;
    v := d.rest.(complete := false, ledger := []);
    p.Demand(d.snapshot.Some?, "missing_projection", "review/task_ledger_snapshot.json", "");
    p.Demand(d.events.Some?, "missing_projection", "task_ledger_events.ndjson", "");
    if d.events.Some? && d.snapshot.Some? && d.rest.binding.Some? {
      var verified := Verify(f, d.events.value, d.snapshot.value);
      p.Demand(verified, "ledger_integrity", "review/task_ledger_snapshot.json", "");
      if verified {
        p.DemandInput(|d.snapshot.value| <= MAX_ROWS, "invalid_projection_rows", "review/task_ledger_snapshot.json", "tasks");
        v := v.(complete := true);
        if |d.snapshot.value| <= MAX_ROWS {
          var first := p.Index(LedgerIds(d.snapshot.value), "review/task_ledger_snapshot.json");
          VerifiedIdsAreUnique(f, d.events.value, d.snapshot.value);
          v := v.(ledger := TasksOf(d.snapshot.value));
        }
      }
    } else if d.events.None? != d.snapshot.None? {
      p.RaiseIssue("incomplete_ledger_pair", "review/task_ledger_snapshot.json", "");
    }
  }

  function LedgerIds(snapshot: seq<Entry>): (ids: seq<Option<string>>)
    ensures |ids| == |snapshot| && forall i :: 0 <= i < |ids| ==> ids[i] == Some(snapshot[i].id)
  {
    seq(|snapshot|, i requires 0 <= i < |snapshot| => Some(snapshot[i].id))
  }

  /** Indexing a verified ledger drops no task. */
  lemma VerifiedIdsAreUnique(f: Format, events: string, snapshot: seq<Entry>)
    requires Verified(f, events, snapshot)
    ensures UniqueIds(LedgerIds(snapshot))
  {
    hide Verified;
    VerifiedLedgerIsClosed(f, events, snapshot);
    forall i | 0 <= i < |snapshot| ensures ValidId(Some(snapshot[i].id)) { CanonicalIsValid(snapshot[i].id); }
  }

  lemma CanonicalIsValid(id: string)
    requires CanonicalId(id)
    ensures ValidId(Some(id))
  {
    assert id[0] in id && !Strings.IsSpace(id[0]);
  }

  /** `reconcile`: coherent exactly when the ledger is replayed and every comparison agrees. */
  method Reconcile(p: Packet, f: Format, sanitize: string -> string, d: Documents) returns (status: Status)
    requires p.Valid() && p.Clean()
    modifies p`issues, p`overflow, p`inputUnavailable
    ensures p.Valid() && (status == Coherent <==> CoherentPacket(f, sanitize, d))
    ensures p.inputUnavailable ==> status == Contradictory
  {
    hide ReceiptsClean, CreditClean, OwnedClean, LeasesClean, ReservationsClean, RequiredClean, RoutesClean, Credited, Loaded, LedgerClean;
    var v := LoadLedger(p, f, d);
    CheckReceipts(p, v);
    var credited := CheckCredit(p, sanitize, v);
    CheckOwned(p, v, credited);
    CheckLeases(p, v);
    CheckRequired(p, v, credited);
    CreditIsOnce(sanitize, v);
    CheckReservations(p, v, credited);
    CheckRoutes(p, v);
    for i := 0 to |v.otherIssues|
      invariant p.Valid()
      invariant p.Clean() <==>
        && LedgerClean(f, d) && ReceiptsClean(v) && CreditClean(sanitize, v) && OwnedClean(v) && LeasesClean(v) && RequiredClean(v)
        && ReservationsClean(v) && RoutesClean(v) && i == 0
    {
      p.RaiseIssue(v.otherIssues[i].0, v.otherIssues[i].1, v.otherIssues[i].2);
    }
    status := if p.issues != {} || p.overflow then Contradictory else if v.complete then Coherent else Unverifiable;
  }

  /** A coherent packet has a ledger, every task of it is closed. */
  lemma CoherentHasALedger(f: Format, sanitize: string -> string, d: Documents)
    requires CoherentPacket(f, sanitize, d)
    ensures Loaded(f, d).ledger != [] && forall t :: t in Loaded(f, d).ledger ==> Closed(t)
  {
    hide Verified, Agrees, Closed;
    VerifiedLedgerIsClosed(f, d.events.value, d.snapshot.value);
  }

  lemma CreditIsOnce(sanitize: string -> string, v: View)
    ensures CreditClean(sanitize, v) ==> CreditedOnce(v.ledger)
  {
  }

  // --------------------------------------- what a coherent packet accounts for

  /** The task that owns a row. */
  ghost predicate Owns(v: View, t: Task, r: Reference) { t in v.ledger && t.reference == Some(r) }

  lemma OwnerIsUnique(v: View, t: Task, u: Task, r: Reference)
    requires CreditedOnce(v.ledger) && Owns(v, t, r) && Owns(v, u, r)
    ensures t == u
  {
    var i, j :| 0 <= i < |v.ledger| && v.ledger[i] == t && 0 <= j < |v.ledger| && v.ledger[j] == u;
  }

  lemma OwnedRowIsKnown(sanitize: string -> string, v: View, t: Task, r: Reference)
    requires CreditClean(sanitize, v) && Owns(v, t, r)
    ensures KnownRow(v, r)
    ensures IsCommand(v, r) ==>
      && v.proofs[r.proof].id.Some? && CommandAt(v, r).side.Some?
      && t.id == CommandTaskId(sanitize, v.proofs[r.proof], CommandAt(v, r))
  {
    var i :| 0 <= i < |v.ledger| && v.ledger[i] == t;
    assert TaskClean(sanitize, v, v.ledger[i]);
  }

  lemma RanIsOwned(v: View, r: Reference) returns (t: Task)
    requires OwnedClean(v) && v.ledger != [] && IsCommand(v, r) && Ran(CommandAt(v, r))
    ensures Owns(v, t, r)
  {
    assert IsCommand(v, CommandRef(r.proof, r.command)) && RanClean(v, r);
    t :| t in v.ledger && t.reference == Some(r);
  }

  lemma {:induction false} PowSum(a: nat, b: nat)
    ensures Pow2(a + b) == Pow2(a) * Pow2(b)
  {
    if a > 0 { PowSum(a - 1, b); }
  }

  lemma U64Fits()
    ensures Pow2(64) == U64_MAX + 1
  {
    assert Pow2(4) == 16;
    PowSum(4, 4);
    PowSum(8, 8);
    PowSum(16, 16);
    PowSum(32, 32);
  }

  /** What the comparisons of a task's receipt, release and reservations would report never occurs in a replayed ledger. */
  lemma ClosedTasksAreNotBlamed(t: Task)
    requires Closed(t)
    ensures ReservationsShaped(t.reservations)
    ensures t.executed ==> (t.reference.Some? || t.creationFailed) && t.resourcesReleased
  {
    U64Fits();
  }

  /** Exactly-once accounting. In a coherent packet crediting is injective, every credited reference is a
      command or sensor row of the packet, and every command that ran has exactly one owner, whose
      identity is derived from the receipt and the side. */
  lemma ExactlyOnce(f: Format, sanitize: string -> string, d: Documents)
    requires CoherentPacket(f, sanitize, d)
    ensures var v := Loaded(f, d);
      && (forall t, u, r :: Owns(v, t, r) && Owns(v, u, r) ==> t == u)
      && (forall t, r :: Owns(v, t, r) ==> KnownRow(v, r))
      && forall r :: IsCommand(v, r) && Ran(CommandAt(v, r)) ==> exists t :: Owns(v, t, r) && DerivedOwner(sanitize, v, t, r)
  {
    hide LedgerClean, Agrees, Loaded;
    CoherentHasALedger(f, sanitize, d);
    OwnedOnce(sanitize, Loaded(f, d));
  }

  lemma OwnedOnce(sanitize: string -> string, v: View)
    requires Agrees(sanitize, v) && v.ledger != []
    ensures forall t, u, r :: Owns(v, t, r) && Owns(v, u, r) ==> t == u
    ensures forall t, r :: Owns(v, t, r) ==> KnownRow(v, r)
    ensures forall r :: IsCommand(v, r) && Ran(CommandAt(v, r)) ==> exists t :: Owns(v, t, r) && DerivedOwner(sanitize, v, t, r)
  {
    hide CreditedOnce, Owns, OwnedClean, KnownRow, Ran, TaskClean, ReceiptsClean, LeasesClean, ReservationsClean, RequiredClean, RoutesClean;
    forall t, u, r | Owns(v, t, r) && Owns(v, u, r) ensures t == u { OwnerIsUnique(v, t, u, r); }
    forall t, r | Owns(v, t, r) ensures KnownRow(v, r) { OwnedRowIsKnown(sanitize, v, t, r); }
    forall r | IsCommand(v, r) && Ran(CommandAt(v, r)) ensures exists t :: Owns(v, t, r) && DerivedOwner(sanitize, v, t, r) {
      var t := RanIsOwned(v, r);
      OwnedRowIsKnown(sanitize, v, t, r);
      assert DerivedOwner(sanitize, v, t, r);
    }
  }

  predicate DerivedOwner(sanitize: string -> string, v: View, t: Task, r: Reference)
    requires IsCommand(v, r)
  {
    && v.proofs[r.proof].id.Some? && CommandAt(v, r).side.Some?
    && t.id == CommandTaskId(sanitize, v.proofs[r.proof], CommandAt(v, r))
  }

  /** With a `pass` conclusion every required policy request has exactly one receipt, bound to the
      revision, whose head side passed and whose every command ran and is owned by a task. */
  lemma PassIsProven(sanitize: string -> string, v: View, request: ProofRequest) returns (i: nat)
    requires Agrees(sanitize, v) && v.gate.Some? && v.gate.value.conclusion == "pass"
    requires request in Policy(v.requests)
    ensures i < |v.proofs| && Receipts(v, request) == [i] && Satisfying(v, i)
    ensures exists c :: c in v.proofs[i].commands && c.side == Some("head") && c.status == Some("passed")
    ensures forall j :: 0 <= j < |v.proofs[i].commands| ==> Ran(v.proofs[i].commands[j]) && Credited(v, CommandRef(i, j))
  {
    hide Consistent, ReceiptsClean, CreditClean, OwnedClean, LeasesClean, ReservationsClean, RoutesClean, Credited, Policy, Ran;
    var rs := Policy(v.requests);
    var n :| 0 <= n < |rs| && rs[n] == request;
    assert RequestClean(v, rs[n], v.gate.value.conclusion);
    i := SoleSatisfying(v, request);
    PassingIsEarned(v.proofs[i]);
    assert forall j :: 0 <= j < |v.proofs[i].commands| ==> v.proofs[i].commands[j] in v.proofs[i].commands;
  }

  lemma SoleSatisfying(v: View, request: ProofRequest) returns (i: nat)
    requires RequestClean(v, request, "pass")
    ensures i < |v.proofs| && Receipts(v, request) == [i] && Satisfying(v, i)
  {
    hide Satisfying, Answers;
    var k :| 0 <= k < |Receipts(v, request)| && SatisfiedBy(v, Receipts(v, request)[k]);
    i := Receipts(v, request)[k];
  }

  /** In that case the gate's own counts say that everything required passed. */
  lemma {:induction false} PassCountsAgree(sanitize: string -> string, v: View, n: nat)
    requires Agrees(sanitize, v) && v.gate.Some? && v.gate.value.conclusion == "pass" && n <= |Policy(v.requests)|
    ensures Classified(v, Policy(v.requests), n).passed == n
  {
    hide Agrees, Policy, Satisfying;
    if n > 0 {
      PassCountsAgree(sanitize, v, n - 1);
      var request := Policy(v.requests)[n - 1];
      var i := PassIsProven(sanitize, v, request);
      SatisfyingPasses(v, i);
    }
  }

  lemma SatisfyingPasses(v: View, i: nat)
    requires i < |v.proofs| && Satisfying(v, i)
    ensures Passing(v.proofs[i].result)
  {
  }

  /** Routes and receipts correspond one to one. */
  lemma RoutesMatchReceipts(sanitize: string -> string, v: View)
    requires Agrees(sanitize, v)
    ensures Distinct(ProofIds(v.proofs)) && Distinct(ReceiptIds(v.routes))
    ensures forall id :: id in ProofIds(v.proofs) <==> id in ReceiptIds(v.routes)
  {
    hide ReceiptClean, CreditClean, OwnedClean, LeasesClean, ReservationsClean, RequiredClean;
    forall i | 0 <= i < |v.routes| ensures v.routes[i].receiptId in ProofIds(v.proofs) {
      assert RouteClean(v, v.routes[i]);
      var q :| q in v.proofs && q.id == v.routes[i].receiptId;
      var k :| 0 <= k < |v.proofs| && v.proofs[k] == q;
      assert ProofIds(v.proofs)[k] == q.id;
    }
  }

  lemma {:induction false} PowExceeds(n: nat)
    ensures Pow2(n) > n
  {
    if n > 0 { PowExceeds(n - 1); }
  }

  lemma SmallReceipt(v: View, p: Proof, c: Command)
    requires c == Command(Some("head"), Some("passed"), Some(1)) && v.binding == p.revision
    requires p.id == Some("p") && p.schemaKnown && p.kind == Some("focused-head") && p.result == Some("head_passed")
    requires p.mode == Some("head-only") && p.requestIds.Some? && p.requestedBy.Some? && p.commands == [c]
    ensures ReceiptClean(v, p) && ValidId(p.id)
  {
    PowExceeds(128);
    assert SideTable(p.commands, 0) == map[] && SideTable(p.commands, 1) == map["head" := Some("passed")];
    assert 'p' in "p";
  }

  lemma SmallLease(v: View, l: Lease, p: Proof)
    requires l == Lease(Some("l"), Some("p"), "granted", Some(2), Some(4096), Some(0), Some(60), false, true)
    requires v.leases == [l] && v.proofs == [p] && p.id == Some("p")
    ensures LeasesClean(v)
  {
    PowExceeds(32);
    U64Fits();
    assert p in v.proofs && l in v.leases && 'l' in "l";
    assert l in Granted(v, p.id);
  }

  lemma SmallRoute(v: View, route: Route, p: Proof, l: Lease)
    requires route == Route(Some("t"), Some("p"), Some("head_passed"), ["l"]) && v.routes == [route]
    requires v.proofs == [p] && p.id == Some("p") && p.result == Some("head_passed") && ValidId(p.id)
    requires v.leases == [l] && l.id == Some("l") && l.consumer == Some("p")
    ensures RoutesClean(v)
  {
    assert RouteIds(v.routes) == [Some("t")] && 't' in "t";
    assert RouteClean(v, route) by {
      assert LeaseOf(v, "l", Some("p")) by { assert l in v.leases; }
      assert forall id :: LeaseOf(v, id, Some("p")) ==> id == "l";
      assert p in v.proofs;
    }
    assert ReceiptIds(v.routes) == [Some("p")];
    assert ProofIds(v.proofs) == [Some("p")];
  }
}
