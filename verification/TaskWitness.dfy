/** A packet whose ledger replays and whose required proof passed: what the task-projection theorems assume does occur. */
module TaskWitness {
  import opened Collections
  import opened ProofResults
  import opened TaskPacket
  import opened TaskLedger
  import opened TaskProjections
  import Text

  const SUBMITTED := ProofRequest(Some("q"), true, "intelligent-ci-policy")
  const GRANT := Lease(Some("l"), Some("p"), "granted", Some(2), Some(4096), Some(0), Some(60), false, true)

  function TheCommand(): Command { Command(Some("head"), Some("passed"), Some(1)) }

  function TheProof(): Proof {
    Proof(Some("p"), true, Some("focused-head"), Some("head_passed"), Some("head-only"), Some("r"), Some(["q"]), Some([]), [TheCommand()])
  }

  const ID := "proof-command-" + "p" + "-" + "head"
  const RESERVED := [
    Reservation(Some("Cpu"), Some(2)), Reservation(Some("Memory"), Some(4096)), Reservation(Some("Test"), Some(1)),
    Reservation(Some("Network"), Some(1))]

  function TheTask(): Task { Task(ID, "Required", true, Some("Succeeded"), Some(CommandRef(0, 0)), false, true, None, RESERVED) }

  function TheRoute(): Route { Route(Some("t"), Some("p"), Some("head_passed"), ["l"]) }

  function ThePacket(): View {
    View(Some("r"), true, [TheTask()], [TheProof()], map[], map["p" := "done"], {"p"}, [GRANT], [SUBMITTED],
      Some(Gate("pass", Some(Counts(1, 1, 0, 0)))), [TheRoute()], [])
  }

  lemma TheRowIsOwned()
    ensures Credited(ThePacket(), CommandRef(0, 0)) && forall r :: IsCommand(ThePacket(), r) <==> r == CommandRef(0, 0)
  {
    assert TheTask() in ThePacket().ledger;
  }

  lemma TheTaskIsClean()
    ensures CreditClean(s => s, ThePacket()) && OwnedClean(ThePacket())
  {
    TheRowIsOwned();
    hide Credited;
    assert CreditedOnce(ThePacket().ledger);
    assert TaskClean(s => s, ThePacket(), TheTask());
    assert RanClean(ThePacket(), CommandRef(0, 0));
  }

  lemma TheQuantitiesFit()
    ensures forall n :: 0 <= n <= 4096 ==> Fits(Some(n), 64)
    ensures Fits(Some(2), 32)
  {
    U64Fits();
    PowExceeds(32);
  }

  lemma TheReservationsAddUp()
    ensures QuantitiesFit(GRANT) && ReservationsShaped(TheTask().reservations)
    ensures Reserved(TheTask().reservations, 4) == Expected(TheProof(), TheCommand(), GRANT)
  {
    hide Fits, Pow2;
    TheQuantitiesFit();
    var rs := TheTask().reservations;
    assert Reserved(rs, 1) == map["Cpu" := 2];
    assert Reserved(rs, 2) == map["Cpu" := 2, "Memory" := 4096];
    assert Reserved(rs, 3) == map["Cpu" := 2, "Memory" := 4096, "Test" := 1];
  }

  lemma TheReservationsFit()
    ensures ReservationsClean(ThePacket())
  {
    hide Expected, Reserved, ReservationsShaped, QuantitiesFit, Fits;
    TheReservationsAddUp();
    TheRowIsOwned();
    assert Granted(ThePacket(), Some("p")) == [GRANT];
    assert ReservationClean(ThePacket(), TheTask(), CommandRef(0, 0));
  }

  lemma TheRequestIsProven()
    requires Consistent(TheProof(), Review)
    ensures RequiredClean(ThePacket()) && Policy(ThePacket().requests) == [SUBMITTED]
  {
    hide Consistent, Credited;
    var v := ThePacket();
    TheRowIsOwned();
    assert "q" in TheProof().requestIds.value;
    assert Matching(v, SUBMITTED, 0) == [];
    assert Receipts(v, SUBMITTED) == [0];
    assert SatisfiedBy(v, Receipts(v, SUBMITTED)[0]);
    assert RequestIds(v.requests) == [Some("q")] && 'q' in "q";
    assert Classified(v, [SUBMITTED], 0) == Counts(1, 0, 0, 0);
    assert Classified(v, [SUBMITTED], 1) == Counts(1, 1, 0, 0);
  }

  // ----------------------------------------------------------------- its replay

  function EventAt(n: nat): Event {
    if n == 0 then Proposed("Required") else if n == 1 then Selected else if n == 2 then Queued(1)
    else if n == 3 then Admitted(2, RESERVED) else if n == 4 then SetupStarted(3) else if n == 5 then RunStarted(4)
    else if n == 6 then ProcessFinished(5, "Succeeded") else if n == 7 then CleanupFinished(6)
    else if n == 8 then ReceiptCreated(7, CommandRef(0, 0)) else ResourcesReleased(8)
  }

  function StateAfter(n: nat): State {
    if n <= 1 then Proposal else if n == 2 then Selection else if n == 3 then Queue else if n == 4 then Admission
    else if n == 5 then Setup else if n == 6 then Running else if n == 7 then Cleanup("Succeeded")
    else if n == 8 then ReceiptPending("Succeeded") else if n == 9 then ReleasePending("Succeeded") else State.Released("Succeeded")
  }

  /** The task after the first `n` events. */
  function EntryAfter(n: nat): Entry {
    Entry(ID, "Required", StateAfter(n), map[], if n >= 4 then RESERVED else [], n >= 10, if n >= 3 then Some(1) else None, None,
      if n >= 5 then Some(3) else None, if n >= 6 then Some(4) else None, if n >= 7 then Some(5) else None,
      if n >= 7 then Some("Succeeded") else None, None, if n >= 9 then Some(Created(CommandRef(0, 0))) else None, None,
      if n >= 3 then Some(n - 2) else None)
  }

  function TheRecord(n: nat): Record
    requires n < 10
  {
    Record(n, ID, if n == 0 then None else Some("d"), EventAt(n), true, "d")
  }

  function LineOf(n: nat): string
    requires n < 10
  {
    ['0' + n as char]
  }

  function Decoded(line: string): Option<Record> {
    if |line| == 1 && '0' <= line[0] <= '9' then Some(TheRecord((line[0] - '0') as nat)) else None
  }

  function Rendered(r: Record): string { if 0 <= r.sequence < 10 then LineOf(r.sequence) else "" }

  function TheFormat(): Format { Format(Decoded, Rendered, (n, id, previous, e) => "d") }

  function TheLines(): (lines: seq<string>)
    ensures |lines| == 10 && forall n :: 0 <= n < 10 ==> lines[n] == LineOf(n)
  {
    seq(10, n requires 0 <= n < 10 => LineOf(n))
  }

  function TheStream(): string { Text.Join(TheLines(), '\n') + "\n" }

  lemma TheEventApplies(n: nat)
    requires n < 10
    ensures Apply(if n == 0 then None else Some(EntryAfter(n)), ID, EventAt(n)) == Some(EntryAfter(n + 1))
  {
    if n <= 2 { EarlyEvents(n); } else if n <= 5 { RunningEvents(n); } else { LateEvents(n); }
  }

  lemma EarlyEvents(n: nat)
    requires n <= 2
    ensures Apply(if n == 0 then None else Some(EntryAfter(n)), ID, EventAt(n)) == Some(EntryAfter(n + 1))
  {
  }

  lemma RunningEvents(n: nat)
    requires 3 <= n <= 5
    ensures Apply(Some(EntryAfter(n)), ID, EventAt(n)) == Some(EntryAfter(n + 1))
  {
  }

  lemma LateEvents(n: nat)
    requires 6 <= n <= 9
    ensures Apply(Some(EntryAfter(n)), ID, EventAt(n)) == Some(EntryAfter(n + 1))
  {
  }

  lemma TheEventIsShaped(n: nat)
    requires n < 10
    ensures Shaped(EventAt(n))
  {
  }

  lemma TheRecordChains(n: nat)
    requires n < 10
    ensures Decoded(LineOf(n)) == Some(TheRecord(n))
    ensures Chained(TheFormat(), TheRecord(n), n, if n == 0 then None else Some("d"), LineOf(n))
  {
    hide EventAt, Shaped, CanonicalId;
    TheEventIsShaped(n);
    TheIdIsCanonical();
  }

  lemma TheIdIsCanonical()
    ensures CanonicalId(ID)
  {
    assert ID == "proof-command-p-head";
  }

  lemma TheStep(n: nat)
    requires n < 10
    ensures Step(TheFormat(), if n == 0 then Ledger(map[], None) else Ledger(map[ID := EntryAfter(n)], Some("d")), n, LineOf(n))
      == Some(Ledger(map[ID := EntryAfter(n + 1)], Some("d")))
  {
    hide Apply, Chained, EventAt, EntryAfter;
    TheRecordChains(n);
    TheEventApplies(n);
    var l := if n == 0 then Ledger(map[], None) else Ledger(map[ID := EntryAfter(n)], Some("d"));
    assert TheFormat().decode(LineOf(n)) == Some(TheRecord(n));
    assert Lookup(l.tasks, ID) == if n == 0 then None else Some(EntryAfter(n));
    assert l.tasks[ID := EntryAfter(n + 1)] == map[ID := EntryAfter(n + 1)];
  }

  lemma {:induction false} TheReplay(n: nat)
    requires 0 < n <= 10
    ensures Replay(TheFormat(), TheLines(), n) == Some(Ledger(map[ID := EntryAfter(n)], Some("d")))
  {
    hide Step, EntryAfter;
    TheStep(n - 1);
    if n > 1 { TheReplay(n - 1); }
  }

  lemma TheLinesAreTold()
    ensures WellEnded(TheStream()) && LinesOf(TheStream()) == TheLines()
  {
    hide Text.Split, Text.Join;
    var lines, text := TheLines(), Text.Join(TheLines(), '\n');
    forall line | line in lines ensures '\n' !in line && '\r' !in line {
      var n :| 0 <= n < 10 && lines[n] == line;
    }
    Text.SplitJoin(lines, '\n');
    Text.JoinHolds(lines, '\n', '\r');
    assert TheStream()[..|TheStream()| - 1] == text;
  }

  lemma TheStreamIsVerified()
    ensures Verified(TheFormat(), TheStream(), [EntryAfter(10)])
  {
    hide Replay, EntryAfter, WellEnded, LinesOf, TheStream;
    TheLinesAreTold();
    TheReplay(10);
    TheTaskIsDone();
    var tasks, snapshot := map[ID := EntryAfter(10)], [EntryAfter(10)];
    assert Replay(TheFormat(), TheLines(), |TheLines()|).value.tasks == tasks;
    assert AllTerminal(tasks);
    assert Recomputed(snapshot, tasks) by { assert snapshot[0].id == ID; }
  }

  lemma TheTaskIsDone()
    ensures AsTask(EntryAfter(10)) == TheTask() && EntryAfter(10).id == ID && Terminal(EntryAfter(10).state)
  {
  }

  function TheDocuments(): Documents {
    Documents(Some(TheStream()), Some([EntryAfter(10)]), ThePacket().(complete := false, ledger := []))
  }

  lemma ThePacketIsLoaded()
    ensures Loaded(TheFormat(), TheDocuments()) == ThePacket() && LedgerClean(TheFormat(), TheDocuments())
  {
    hide Verified, TheStream, EntryAfter;
    TheStreamIsVerified();
    TheTaskIsDone();
    assert TasksOf([EntryAfter(10)]) == [TheTask()];
  }

  lemma ThePacketAgrees()
    ensures Agrees(s => s, ThePacket()) && SUBMITTED in Policy(ThePacket().requests)
  {
    hide ReceiptClean, CreditClean, OwnedClean, LeasesClean, ReservationsClean, RequiredClean, RoutesClean, Policy;
    var v := ThePacket();
    SmallReceipt(v, TheProof(), TheCommand());
    SmallLease(v, GRANT, TheProof());
    SmallRoute(v, TheRoute(), TheProof(), GRANT);
    TheTaskIsClean();
    TheReservationsFit();
    CleanIsConsistent(v, TheProof());
    TheRequestIsProven();
  }

  /** Some coherent packet has a `pass` conclusion and a required request, and the ledger it is judged by replays. */
  lemma ProvenPassHappens() returns (f: Format, d: Documents, request: ProofRequest)
    ensures CoherentPacket(f, s => s, d) && d.rest.gate.Some? && d.rest.gate.value.conclusion == "pass"
    ensures request in Policy(d.rest.requests)
  {
    hide Agrees, Policy, Loaded, LedgerClean;
    f, d, request := TheFormat(), TheDocuments(), SUBMITTED;
    ThePacketIsLoaded();
    ThePacketAgrees();
  }

  lemma CleanIsConsistent(v: View, p: Proof)
    requires ReceiptClean(v, p)
    ensures Consistent(p, Review)
  {
  }
}
