/** What a coherent packet guarantees, in the fields of its tasks, receipts, leases, requests and routes. */
module TaskGuarantees {
  import opened Collections
  import opened ProofResults
  import opened TaskPacket
  import opened TaskLedger
  import opened TaskProjections

  // -------------------------------------------------------------- reservations

  predicate Holds(t: Task, resource: string, units: int) {
    exists r :: r in t.reservations && r.resource == Some(resource) && r.units == Some(units)
  }

  /** What the lease of a receipt entitles its command to. */
  predicate Entitled(p: Proof, c: Command, l: Lease, resource: string, units: int) {
    || (resource == "Cpu" && units > 0 && l.cpu == Some(units))
    || (resource == "Memory" && units > 0 && l.memory == Some(units))
    || (resource == "Disk" && units > 0 && l.disk == Some(units))
    || (resource == "Build" && units == 1 && p.kind == Some("focused-build"))
    || (resource == "Test" && units == 1 && p.kind != Some("focused-build"))
    || (resource == "Worktree" && units == 1 && c.side == Some("base-plus-tests") && l.worktree)
    || (resource == "Network" && units == 1 && l.network)
  }

  predicate Entry(table: map<string, int>, resource: string, units: int) { resource in table && table[resource] == units }

  lemma ExpectedIsEntitlement(p: Proof, c: Command, l: Lease, resource: string, units: int)
    requires QuantitiesFit(l)
    ensures Entry(Expected(p, c, l), resource, units) <==> Entitled(p, c, l, resource, units)
  {
  }

  lemma {:induction false} ReservedIsListed(rs: seq<Reservation>, n: nat, resource: string, units: int)
    requires ReservationsShaped(rs) && n <= |rs|
    ensures Entry(Reserved(rs, n), resource, units) <==>
      exists k :: 0 <= k < n && rs[k].resource == Some(resource) && rs[k].units == Some(units)
  {
    if n > 0 {
      ReservedIsListed(rs, n - 1, resource, units);
      NotYetReserved(rs, n - 1, n - 1);
    }
  }

  lemma {:induction false} NotYetReserved(rs: seq<Reservation>, n: nat, k: nat)
    requires ReservationsShaped(rs) && n <= k < |rs|
    ensures rs[k].resource.Some? && rs[k].units.Some? && rs[k].resource.value !in Reserved(rs, n)
  {
    assert rs[k] in rs;
    if n > 0 { NotYetReserved(rs, n - 1, k); }
  }

  lemma ReservedIsHeld(t: Task, resource: string, units: int)
    requires ReservationsShaped(t.reservations)
    ensures Entry(Reserved(t.reservations, |t.reservations|), resource, units) <==> Holds(t, resource, units)
  {
    ReservedIsListed(t.reservations, |t.reservations|, resource, units);
  }

  /** The command's task may hold exactly what the lease entitles it to, and no class twice: then, and only then, the
      comparison is silent. */
  lemma SilentExactlyWhenEntitled(v: View, t: Task, r: Reference, l: Lease)
    requires IsCommand(v, r) && Granted(v, v.proofs[r.proof].id) == [l] && QuantitiesFit(l)
    ensures ReservationClean(v, t, r) <==>
      ReservationsShaped(t.reservations)
      && forall resource, units :: Holds(t, resource, units) <==> Entitled(v.proofs[r.proof], CommandAt(v, r), l, resource, units)
  {
    hide QuantitiesFit, ReservationsShaped, Reserved, Expected, Holds, Entitled, Granted, Entry;
    if ReservationsShaped(t.reservations) {
      var held, due := Reserved(t.reservations, |t.reservations|), Expected(v.proofs[r.proof], CommandAt(v, r), l);
      forall resource, units
        ensures Entry(held, resource, units) <==> Holds(t, resource, units)
        ensures Entry(due, resource, units) <==> Entitled(v.proofs[r.proof], CommandAt(v, r), l, resource, units)
      {
        ReservedIsHeld(t, resource, units);
        ExpectedIsEntitlement(v.proofs[r.proof], CommandAt(v, r), l, resource, units);
      }
      SameEntries(held, due);
    }
  }

  lemma SameEntries(a: map<string, int>, b: map<string, int>)
    ensures a == b <==> forall k, n :: Entry(a, k, n) <==> Entry(b, k, n)
  {
    if forall k, n :: Entry(a, k, n) <==> Entry(b, k, n) {
      forall k ensures k in a <==> k in b {
        if k in a { assert Entry(a, k, a[k]); }
        if k in b { assert Entry(b, k, b[k]); }
      }
      forall k | k in a ensures a[k] == b[k] { assert Entry(a, k, a[k]); }
    }
  }

  ghost predicate GrantedTo(v: View, l: Lease, p: Proof) { l in v.leases && l.consumer == p.id && l.status == "granted" }

  /** In a coherent packet the task that owns a command reserves exactly what the one lease granted to its receipt entitles
      it to: each class once, with that many units, and nothing else. */
  lemma CommandsHoldTheirLease(f: Format, sanitize: string -> string, d: Documents, t: Task, r: Reference, l: Lease)
    requires CoherentPacket(f, sanitize, d) && Owns(Loaded(f, d), t, r) && IsCommand(d.rest, r)
    requires GrantedTo(d.rest, l, d.rest.proofs[r.proof])
    ensures forall other :: GrantedTo(d.rest, other, d.rest.proofs[r.proof]) ==> other == l
    ensures forall i, j :: 0 <= i < j < |t.reservations| ==> t.reservations[i].resource != t.reservations[j].resource
    ensures forall resource, units :: Holds(t, resource, units) <==> Entitled(d.rest.proofs[r.proof], CommandAt(d.rest, r), l, resource, units)
  {
    hide LedgerClean, ReceiptsClean, CreditClean, OwnedClean, RequiredClean, RoutesClean, Verified, Holds, Entitled, Reserved, Expected, QuantitiesFit;
    var v := Loaded(f, d);
    assert ReservationClean(v, t, r);
    var k :| 0 <= k < |v.leases| && v.leases[k] == l;
    assert LeaseClean(v, v.leases[k]);
    assert l in Granted(v, v.proofs[r.proof].id);
    assert Granted(v, v.proofs[r.proof].id) == [l];
    SilentExactlyWhenEntitled(v, t, r, l);
  }

  /** Every receipt whose head ran was granted exactly one lease, and the task that owns the command holds exactly it. */
  lemma LeasesAreSpentOnce(f: Format, sanitize: string -> string, d: Documents, i: nat, j: nat) returns (l: Lease, t: Task)
    requires CoherentPacket(f, sanitize, d) && IsCommand(d.rest, CommandRef(i, j))
    requires d.rest.proofs[i].commands[j].side == Some("head") && d.rest.proofs[i].commands[j].status in {Some("passed"), Some("failed"), Some("timed_out")}
    ensures Owns(Loaded(f, d), t, CommandRef(i, j)) && forall other :: GrantedTo(d.rest, other, d.rest.proofs[i]) <==> other == l
    ensures forall resource, units :: Holds(t, resource, units) <==> Entitled(d.rest.proofs[i], d.rest.proofs[i].commands[j], l, resource, units)
  {
    hide CoherentPacket, Loaded, Holds, Entitled, QuantitiesFit;
    l := HeadIsGranted(f, sanitize, d, i, j);
    ExactlyOnce(f, sanitize, d);
    LoadedKeepsReceipts(f, d);
    assert IsCommand(Loaded(f, d), CommandRef(i, j));
    t :| Owns(Loaded(f, d), t, CommandRef(i, j));
    CommandsHoldTheirLease(f, sanitize, d, t, CommandRef(i, j), l);
  }

  lemma LoadedKeepsReceipts(f: Format, d: Documents)
    ensures Loaded(f, d).proofs == d.rest.proofs && Loaded(f, d).leases == d.rest.leases
  {
  }

  lemma HeadIsGranted(f: Format, sanitize: string -> string, d: Documents, i: nat, j: nat) returns (l: Lease)
    requires CoherentPacket(f, sanitize, d) && IsCommand(d.rest, CommandRef(i, j))
    requires d.rest.proofs[i].commands[j].side == Some("head") && Ran(d.rest.proofs[i].commands[j])
    ensures GrantedTo(d.rest, l, d.rest.proofs[i])
  {
    hide LedgerClean, ReceiptsClean, CreditClean, OwnedClean, RequiredClean, RoutesClean, ReservationsClean, Verified;
    var v := Loaded(f, d);
    assert HeadLeased(v, v.proofs[i]) && HeadRan(v.proofs[i]);
    l := Granted(v, v.proofs[i].id)[0];
    assert l in Granted(v, v.proofs[i].id);
  }

  // --------------------------------------------------------------- ownership

  /** The outcome a task must report for a command of this status. */
  predicate OutcomeFits(status: string, executed: bool, disposition: string) {
    || (status == "passed" && disposition == "Succeeded")
    || (status == "failed" && disposition == "DeterministicFailure")
    || (status == "timed_out" && disposition == "TimedOut")
    || (status == "skipped" && (disposition == "Cancelled" || (!executed && disposition == "SetupFailed")))
  }

  /** The owner of a command is named after its receipt and side, and reports the outcome of the command. */
  lemma OwnerReportsTheCommand(f: Format, sanitize: string -> string, d: Documents, t: Task, r: Reference)
    requires CoherentPacket(f, sanitize, d) && Owns(Loaded(f, d), t, r) && IsCommand(d.rest, r)
    ensures var p, c := d.rest.proofs[r.proof], CommandAt(d.rest, r);
      && p.id.Some? && c.side.Some? && c.status.Some?
      && t.id == "proof-command-" + sanitize(p.id.value) + "-" + sanitize(c.side.value)
      && (t.disposition.Some? ==> OutcomeFits(c.status.value, t.executed, t.disposition.value))
  {
    hide LedgerClean, OwnedClean, LeasesClean, ReservationsClean, RequiredClean, RoutesClean, Verified, Consistent;
    var v := Loaded(f, d);
    var k :| 0 <= k < |v.ledger| && v.ledger[k] == t;
    assert TaskClean(sanitize, v, v.ledger[k]) && ReceiptClean(v, v.proofs[r.proof]);
    assert CommandAt(v, r) in v.proofs[r.proof].commands;
  }

  /** The owner of a sensor is named after it; if it executed, it reports the status of the sensor. */
  lemma OwnerReportsTheSensor(f: Format, sanitize: string -> string, d: Documents, t: Task, path: string)
    requires CoherentPacket(f, sanitize, d) && Owns(Loaded(f, d), t, SensorRef(path))
    ensures path in d.rest.sensors && t.id == "sensor-" + d.rest.sensors[path].name
    ensures t.executed ==>
      && (t.disposition == Some("Succeeded") <==> d.rest.sensors[path].status == "ok")
      && (t.disposition == Some("DeterministicFailure") <==> d.rest.sensors[path].status == "failed")
      && (t.disposition == Some("TimedOut") <==> d.rest.sensors[path].status == "timed_out")
      && (t.disposition == None <==> d.rest.sensors[path].status !in {"ok", "failed", "timed_out"})
  {
    hide LedgerClean, ReceiptsClean, OwnedClean, LeasesClean, ReservationsClean, RequiredClean, RoutesClean, Verified;
    var v := Loaded(f, d);
    var k :| 0 <= k < |v.ledger| && v.ledger[k] == t;
    assert TaskClean(sanitize, v, v.ledger[k]);
  }

  /** Whatever ran shows in the other projections: a sensor that ended has an owner and, when it succeeded, is no longer
      planned; an executed sensor task is queued and no longer planned; a receipt whose command ran is queued and a
      candidate; and a task that reuses a receipt names a row that some task owns. */
  lemma WhatRanIsVisible(f: Format, sanitize: string -> string, d: Documents)
    requires CoherentPacket(f, sanitize, d)
    ensures var v := Loaded(f, d);
      && (forall path :: path in v.sensors && v.sensors[path].status in {"ok", "failed", "timed_out"} ==>
            exists t :: Owns(v, t, SensorRef(path)))
      && (forall path :: path in v.sensors && v.sensors[path].status == "ok" && "sensor-" + v.sensors[path].name in v.queue ==>
            v.queue["sensor-" + v.sensors[path].name] != "planned")
      && (forall t :: t in v.ledger && t.source == "Sensor" && t.executed ==> t.id in v.queue && v.queue[t.id] != "planned")
      && (forall i: nat, j: nat :: IsCommand(v, CommandRef(i, j)) && v.proofs[i].commands[j].status in {Some("passed"), Some("failed"), Some("timed_out")} ==>
            v.proofs[i].id.Some? && v.proofs[i].id.value in v.queue && v.proofs[i].id.value in v.candidates)
      && (forall t :: t in v.ledger && t.existingReceipt.Some? ==>
            KnownRow(v, t.existingReceipt.value) && exists u :: Owns(v, u, t.existingReceipt.value))
  {
    hide LedgerClean, Loaded, Agrees;
    CoherentHasALedger(f, sanitize, d);
    RowsAreVisible(sanitize, Loaded(f, d));
  }

  lemma RowsAreVisible(sanitize: string -> string, v: View)
    requires Agrees(sanitize, v) && v.ledger != []
    ensures forall path :: path in v.sensors && v.sensors[path].status in {"ok", "failed", "timed_out"} ==>
      exists t :: Owns(v, t, SensorRef(path))
    ensures forall path :: path in v.sensors && v.sensors[path].status == "ok" && "sensor-" + v.sensors[path].name in v.queue ==>
      v.queue["sensor-" + v.sensors[path].name] != "planned"
    ensures forall t :: t in v.ledger && t.source == "Sensor" && t.executed ==> t.id in v.queue && v.queue[t.id] != "planned"
    ensures forall i: nat, j: nat :: IsCommand(v, CommandRef(i, j)) && v.proofs[i].commands[j].status in {Some("passed"), Some("failed"), Some("timed_out")} ==>
      v.proofs[i].id.Some? && v.proofs[i].id.value in v.queue && v.proofs[i].id.value in v.candidates
    ensures forall t :: t in v.ledger && t.existingReceipt.Some? ==>
      KnownRow(v, t.existingReceipt.value) && exists u :: Owns(v, u, t.existingReceipt.value)
  {
    hide ReceiptsClean, LeasesClean, ReservationsClean, RequiredClean, RoutesClean, RefClean, KnownRow;
    forall path | path in v.sensors ensures SensorClean(v, path) {}
    forall t | t in v.ledger ensures TaskClean(sanitize, v, t) && ExistingClean(v, t) {
      var k :| 0 <= k < |v.ledger| && v.ledger[k] == t;
    }
    forall i: nat, j: nat | IsCommand(v, CommandRef(i, j)) ensures RanClean(v, CommandRef(i, j)) {}
    forall r | Credited(v, r) ensures exists t :: Owns(v, t, r) {
      var t :| t in v.ledger && t.reference == Some(r);
      assert Owns(v, t, r);
    }
  }

  // ----------------------------------------------------------- required proof

  /** A request the policy requires. */
  predicate PolicyRequires(requests: seq<ProofRequest>, q: ProofRequest) { q in requests && q.required && q.lane == "intelligent-ci-policy" }

  predicate Names(p: Proof, q: ProofRequest) { q.id.Some? && p.requestIds.Some? && q.id.value in p.requestIds.value }

  /** With the conclusion `pass` every request the policy requires has exactly one receipt. It is bound to the admitted
      revision, its result is a passing one, its head command passed, a discriminating one failed on the base, and each
      of its commands ran and has an owner. */
  lemma PassIsEarned(f: Format, sanitize: string -> string, d: Documents, q: ProofRequest) returns (i: nat)
    requires CoherentPacket(f, sanitize, d) && d.rest.gate.Some? && d.rest.gate.value.conclusion == "pass"
    requires PolicyRequires(d.rest.requests, q)
    ensures i < |d.rest.proofs| && forall k :: 0 <= k < |d.rest.proofs| ==> (Names(d.rest.proofs[k], q) <==> k == i)
    ensures var p := d.rest.proofs[i];
      && p.revision == d.rest.binding != None && p.result in {Some("head_passed"), Some("discriminating")}
      && (exists c :: c in p.commands && c.side == Some("head") && c.status == Some("passed"))
      && (p.result == Some("discriminating") ==> exists c :: c in p.commands && c.side == Some("base-plus-tests") && c.status == Some("failed"))
      && forall j :: 0 <= j < |p.commands| ==>
           && p.commands[j].status in {Some("passed"), Some("failed"), Some("timed_out")}
           && exists t :: Owns(Loaded(f, d), t, CommandRef(i, j))
  {
    hide LedgerClean, ReceiptsClean, CreditClean, OwnedClean, LeasesClean, ReservationsClean, RoutesClean, RequiredClean, Verified, Consistent;
    var v := Loaded(f, d);
    assert q in Policy(v.requests);
    i := PassIsProven(sanitize, v, q);
    forall k | 0 <= k < |v.proofs| ensures Names(v.proofs[k], q) <==> k == i { assert k in Receipts(v, q) <==> k == i; }
    PassingIsEarned(v.proofs[i]);
    forall j | 0 <= j < |v.proofs[i].commands| ensures exists t :: Owns(v, t, CommandRef(i, j)) {
      var t :| t in v.ledger && t.reference == Some(CommandRef(i, j));
      assert Owns(v, t, CommandRef(i, j));
    }
  }

  predicate HasResult(proofs: seq<Proof>, q: ProofRequest, results: set<string>) {
    exists p :: p in proofs && Names(p, q) && p.result.Some? && p.result.value in results
  }

  function Passed(proofs: seq<Proof>): ProofRequest -> bool { (q: ProofRequest) => HasResult(proofs, q, {"head_passed", "discriminating"}) }

  function Failed(proofs: seq<Proof>): ProofRequest -> bool { (q: ProofRequest) => HasResult(proofs, q, {"head_failed", "timed_out"}) }

  function Required(requests: seq<ProofRequest>): seq<ProofRequest> {
    Filter((q: ProofRequest) => q.required && q.lane == "intelligent-ci-policy", requests)
  }

  predicate AtMostOneReceipt(proofs: seq<Proof>, q: ProofRequest) {
    forall j, k :: 0 <= j < k < |proofs| ==> !(Names(proofs[j], q) && Names(proofs[k], q))
  }

  lemma SoleReceipt(v: View, q: ProofRequest)
    requires |Receipts(v, q)| <= 1
    ensures AtMostOneReceipt(v.proofs, q)
    ensures Passing(ResultOf(v, q)) <==> Passed(v.proofs)(q)
    ensures ResultOf(v, q) in {Some("head_failed"), Some("timed_out")} <==> Failed(v.proofs)(q)
  {
    forall k: nat ensures k in Receipts(v, q) <==> k < |v.proofs| && Names(v.proofs[k], q) {}
    if Receipts(v, q) != [] { assert Receipts(v, q)[0] in Receipts(v, q); }
    forall p | p in v.proofs && Names(p, q) ensures Receipts(v, q) != [] && v.proofs[Receipts(v, q)[0]] == p {
      var k :| 0 <= k < |v.proofs| && v.proofs[k] == p;
      assert k in Receipts(v, q);
    }
    forall j, k | 0 <= j < k < |v.proofs| ensures !(Names(v.proofs[j], q) && Names(v.proofs[k], q)) {
      assert j in Receipts(v, q) <==> Names(v.proofs[j], q);
      assert k in Receipts(v, q) <==> Names(v.proofs[k], q);
    }
  }

  lemma {:induction false} ClassifiedCounts(v: View, rs: seq<ProofRequest>, n: nat)
    requires n <= |rs| && forall k :: 0 <= k < n ==> |Receipts(v, rs[k])| <= 1
    ensures Classified(v, rs, n).passed == |Filter(Passed(v.proofs), rs[..n])|
    ensures Classified(v, rs, n).failed == |Filter(Failed(v.proofs), rs[..n])|
  {
    hide HasResult, Receipts, ResultOf, Filter;
    if n > 0 {
      ClassifiedCounts(v, rs, n - 1);
      SoleReceipt(v, rs[n - 1]);
      assert rs[..n] == rs[..n - 1] + [rs[n - 1]];
      FilterAppend(Passed(v.proofs), rs[..n - 1], [rs[n - 1]]);
      FilterAppend(Failed(v.proofs), rs[..n - 1], [rs[n - 1]]);
      FilterOne(Passed(v.proofs), rs[n - 1]);
      FilterOne(Failed(v.proofs), rs[n - 1]);
    }
  }

  lemma RequiredIsPolicy(requests: seq<ProofRequest>)
    ensures Policy(requests) == Required(requests)
  {
    FilterAgrees((r: ProofRequest) => r.required && r.lane == "intelligent-ci-policy",
                 (q: ProofRequest) => q.required && q.lane == "intelligent-ci-policy", requests);
  }

  /** The counts the gate published are those of the required requests: how many there are, how many of them have a passing
      receipt, how many a failing one, and the rest. No required request has two receipts. */
  lemma GateCountsAreTrue(f: Format, sanitize: string -> string, d: Documents)
    requires CoherentPacket(f, sanitize, d)
    ensures d.rest.gate.Some? && d.rest.gate.value.required.Some?
    ensures var n, counts := |Required(d.rest.requests)|, d.rest.gate.value.required.value;
      && counts.matched == n && counts.passed == |Filter(Passed(d.rest.proofs), Required(d.rest.requests))|
      && counts.failed == |Filter(Failed(d.rest.proofs), Required(d.rest.requests))| && counts.passed + counts.failed + counts.skipped == n
    ensures forall q :: PolicyRequires(d.rest.requests, q) ==> AtMostOneReceipt(d.rest.proofs, q)
  {
    hide LedgerClean, ReceiptsClean, CreditClean, OwnedClean, LeasesClean, ReservationsClean, RoutesClean, Verified, HasResult, AtMostOneReceipt, SatisfiedBy;
    var v := Loaded(f, d);
    var rs := Policy(v.requests);
    RequiredIsPolicy(v.requests);
    assert rs[..|rs|] == rs;
    ClassifiedCounts(v, rs, |rs|);
    forall q | PolicyRequires(d.rest.requests, q) ensures AtMostOneReceipt(d.rest.proofs, q) {
      assert q in rs;
      var k :| 0 <= k < |rs| && rs[k] == q;
      SoleReceipt(v, q);
    }
  }

  // ------------------------------------------------ receipts, leases, routes

  /** The receipts of a coherent packet: distinct identifiers, the admitted revision, at least one command, no side twice, a
      measured duration for each command, and a result that one of the ten outcomes allows. */
  lemma ReceiptsAreSound(f: Format, sanitize: string -> string, d: Documents)
    requires CoherentPacket(f, sanitize, d)
    ensures forall i, j :: 0 <= i < j < |d.rest.proofs| ==> d.rest.proofs[i].id != d.rest.proofs[j].id
    ensures forall p :: p in d.rest.proofs ==>
      && p.id.Some? && p.schemaKnown && p.revision == d.rest.binding != None && p.commands != []
      && (exists o :: o in OUTCOMES && Shows(p, o))
      && (forall c :: c in p.commands ==> c.side.Some? && c.side.value != "" && c.status.Some?)
      && (forall c :: c in p.commands ==> c.duration.Some? && 0 <= c.duration.value < 0x1_0000_0000_0000_0000_0000_0000_0000_0000)
      && (forall i, j :: 0 <= i < j < |p.commands| ==> p.commands[i].side != p.commands[j].side)
  {
    hide LedgerClean, CreditClean, OwnedClean, LeasesClean, ReservationsClean, RequiredClean, RoutesClean, Verified, Consistent, Shows, Pow2;
    var v := Loaded(f, d);
    Widths();
    forall i, j | 0 <= i < j < |v.proofs| ensures v.proofs[i].id != v.proofs[j].id {
      assert ProofIds(v.proofs)[i] != ProofIds(v.proofs)[j];
    }
    forall p | p in v.proofs ensures ReceiptClean(v, p) && exists o :: o in OUTCOMES && Shows(p, o) {
      var k :| 0 <= k < |v.proofs| && v.proofs[k] == p;
      assert ReceiptClean(v, v.proofs[k]);
      ConsistentExactlyWhenShown(p);
    }
  }

  /** The leases of a coherent packet: distinct identifiers, quantities within their widths, and for each granted one a
      receipt that consumes it. */
  lemma GrantsAreConsumed(f: Format, sanitize: string -> string, d: Documents)
    requires CoherentPacket(f, sanitize, d)
    ensures forall i, j :: 0 <= i < j < |d.rest.leases| ==> d.rest.leases[i].id != d.rest.leases[j].id
    ensures forall l :: l in d.rest.leases ==>
      && l.cpu.Some? && 0 <= l.cpu.value < 0x1_0000_0000 && l.memory.Some? && 0 <= l.memory.value <= U64_MAX
      && l.disk.Some? && 0 <= l.disk.value <= U64_MAX && l.timeout.Some? && 0 <= l.timeout.value <= U64_MAX
      && (l.status == "granted" ==> exists p :: p in d.rest.proofs && p.id == l.consumer != None)
  {
    hide LedgerClean, ReceiptsClean, CreditClean, OwnedClean, ReservationsClean, RequiredClean, RoutesClean, Verified, Pow2, HeadLeased;
    var v := Loaded(f, d);
    Widths();
    forall i, j | 0 <= i < j < |v.leases| ensures v.leases[i].id != v.leases[j].id {
      assert LeaseIds(v.leases)[i] != LeaseIds(v.leases)[j];
    }
    forall l | l in v.leases ensures LeaseClean(v, l) {
      var k :| 0 <= k < |v.leases| && v.leases[k] == l;
      assert LeaseClean(v, v.leases[k]);
    }
  }

  lemma Widths()
    ensures Pow2(32) == 0x1_0000_0000 && Pow2(64) == U64_MAX + 1 && Pow2(128) == 0x1_0000_0000_0000_0000_0000_0000_0000_0000
  {
    U64Fits();
    assert Pow2(4) == 16;
    PowSum(4, 4);
    PowSum(8, 8);
    PowSum(16, 16);
    PowSum(64, 64);
  }

  /** The route names a receipt, repeats its result, and lists exactly the leases it consumes, each once. */
  ghost predicate RepeatsReceipt(proofs: seq<Proof>, leases: seq<Lease>, r: Route) {
    && (exists p :: p in proofs && p.id == r.receiptId != None && p.result == r.result)
    && (forall id :: id in r.leaseIds <==> exists l :: l in leases && l.id == Some(id) && l.consumer == r.receiptId)
    && forall i, j :: 0 <= i < j < |r.leaseIds| ==> r.leaseIds[i] != r.leaseIds[j]
  }

  /** The routes of a coherent packet: one for each receipt and none besides, with the result of that receipt and exactly the
      leases it consumes, each once. */
  lemma RoutesRepeatTheReceipts(f: Format, sanitize: string -> string, d: Documents)
    requires CoherentPacket(f, sanitize, d)
    ensures forall i, j :: 0 <= i < j < |d.rest.routes| ==>
      d.rest.routes[i].id != d.rest.routes[j].id && d.rest.routes[i].receiptId != d.rest.routes[j].receiptId
    ensures forall p :: p in d.rest.proofs ==> exists r :: r in d.rest.routes && r.receiptId == p.id
    ensures forall r :: r in d.rest.routes ==> RepeatsReceipt(d.rest.proofs, d.rest.leases, r)
  {
    hide LedgerClean, ReceiptsClean, CreditClean, OwnedClean, LeasesClean, ReservationsClean, RequiredClean, Verified, RouteClean, Distinct, RepeatsReceipt;
    var v := Loaded(f, d);
    RoutesAreDistinct(v);
    EveryReceiptIsRouted(v);
    forall r | r in v.routes ensures RepeatsReceipt(v.proofs, v.leases, r) {
      var k :| 0 <= k < |v.routes| && v.routes[k] == r;
      CleanRoute(v, r);
    }
  }

  lemma RoutesAreDistinct(v: View)
    requires RoutesClean(v)
    ensures forall i, j :: 0 <= i < j < |v.routes| ==>
      v.routes[i].id != v.routes[j].id && v.routes[i].receiptId != v.routes[j].receiptId
  {
    hide RouteClean;
    forall i, j | 0 <= i < j < |v.routes| ensures v.routes[i].id != v.routes[j].id && v.routes[i].receiptId != v.routes[j].receiptId {
      assert RouteIds(v.routes)[i] != RouteIds(v.routes)[j];
      assert ReceiptIds(v.routes)[i] != ReceiptIds(v.routes)[j];
    }
  }

  lemma EveryReceiptIsRouted(v: View)
    requires RoutesClean(v)
    ensures forall p :: p in v.proofs ==> exists r :: r in v.routes && r.receiptId == p.id
  {
    hide RouteClean, Distinct, UniqueIds;
    forall p | p in v.proofs ensures exists r :: r in v.routes && r.receiptId == p.id {
      var k :| 0 <= k < |v.proofs| && v.proofs[k] == p;
      assert v.proofs[k].id in ReceiptIds(v.routes);
      var n :| 0 <= n < |v.routes| && ReceiptIds(v.routes)[n] == p.id;
      assert v.routes[n] in v.routes;
    }
  }

  lemma CleanRoute(v: View, r: Route)
    requires RouteClean(v, r)
    ensures RepeatsReceipt(v.proofs, v.leases, r)
  {
    forall id ensures LeaseOf(v, id, r.receiptId) <==> exists l :: l in v.leases && l.id == Some(id) && l.consumer == r.receiptId {}
  }
}
