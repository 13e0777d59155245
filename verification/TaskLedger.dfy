/** The canonical replay of the task-ledger event stream (`scripts/verify-bun-review-artifacts.py`): the life cycle of
    a task, the digest chain of the records, and what the reconciler may rely on once the replay is verified. */
module TaskLedger {
  import opened Collections
  import Sorting
  import Strings
  import Text

  const U64_MAX: nat := 0xFFFF_FFFF_FFFF_FFFF

  datatype Reference = CommandRef(proof: nat, command: nat) | SensorRef(path: string) | OtherRef(text: string)

  datatype Reservation = Reservation(resource: Option<string>, units: Option<int>)

  /** A ledger task as the reconciler reads it; `executed` says its process started, `creationFailed` that it has a
      failed receipt. */
  datatype Task = Task(
    id: string, source: string, executed: bool, disposition: Option<string>, reference: Option<Reference>,
    creationFailed: bool, resourcesReleased: bool, existingReceipt: Option<Reference>, reservations: seq<Reservation>)

  // -------------------------------------------------------------------- events

  datatype Consumer = Consumer(requirement: string, value: string)

  datatype Event =
    | Proposed(source: string)
    | ConsumerAttached(id: string, consumer: Consumer)
    | Selected
    | Queued(at: nat)
    | EnteredResourceWait(at: nat)
    | Admitted(at: nat, reservations: seq<Reservation>)
    | SetupStarted(at: nat)
    | RunStarted(at: nat)
    | ProcessFinished(at: nat, disposition: string)
    | SetupFailed(at: nat)
    | PreRunTerminated(at: nat, disposition: string)
    | CleanupFinished(at: nat)
    | ReceiptCreated(at: nat, reference: Reference)
    | ReceiptCreationFailed(at: nat)
    | ResourcesReleased(at: nat)
    | TerminallyDeclined(at: nat, disposition: string, existing: Option<Reference>)

  function At(e: Event): Option<nat> {
    if e.Proposed? || e.ConsumerAttached? || e.Selected? then None else Some(e.at)
  }

  const DISPOSITIONS := {"Succeeded", "DeterministicFailure", "TimedOut", "Cancelled", "SetupFailed"}
  const DECLINED := {"Unsupported", "Refused", "BudgetDeferred", "LatestSafeStartDeferred", "Superseded", "SatisfiedByExistingReceipt"}
  const CLASSES := {"Cpu", "Memory", "Disk", "Worktree", "Network", "Test", "Build", "Cargo"}

  predicate ReservationsValid(rs: seq<Reservation>) {
    && (forall r :: r in rs ==> r.resource.Some? && r.resource.value in CLASSES && r.units.Some? && 0 < r.units.value <= U64_MAX)
    && forall i, j :: 0 <= i < j < |rs| ==> rs[i].resource != rs[j].resource
  }

  /** What the strict decoding of an event demands of its fields. */
  predicate Shaped(e: Event) {
    && (At(e).Some? ==> At(e).value <= U64_MAX)
    && (e.Admitted? ==> ReservationsValid(e.reservations))
    && (e.ProcessFinished? || e.PreRunTerminated? ==> e.disposition in DISPOSITIONS)
    && (e.TerminallyDeclined? ==> e.disposition in DECLINED)
  }

  // ----------------------------------------------------------------- life cycle

  datatype State =
    | Proposal | Selection | Queue | ResourceWait | Admission | Setup | Running
    | Cleanup(disposition: string) | ReceiptPending(disposition: string) | ReleasePending(disposition: string)
    | Released(disposition: string) | Declined(reason: string)

  datatype Receipt = Created(reference: Reference) | CreationFailed

  /** The replayed snapshot of one task. */
  datatype Entry = Entry(
    id: string, source: string, state: State, consumers: map<string, Consumer>, reservations: seq<Reservation>,
    released: bool, queuedAt: Option<nat>, waitedAt: Option<nat>, setupAt: Option<nat>, startedAt: Option<nat>,
    finishedAt: Option<nat>, execution: Option<string>, nonExecution: Option<string>, receipt: Option<Receipt>,
    existing: Option<Reference>, lastAt: Option<nat>)

  function Fresh(id: string, source: string): Entry {
    Entry(id, source, Proposal, map[], [], false, None, None, None, None, None, None, None, None, None, None)
  }

  /** The start that a duration needs is recorded and not later than its end. */
  predicate Measurable(start: Option<nat>, end: nat) { start.Some? && start.value <= end }

  /** A start that, where it was recorded, is not later than the end. */
  predicate Optional(start: Option<nat>, end: nat) { start.Some? ==> start.value <= end }

  /** The state the event leads to; `None` refuses it, also when a duration cannot be measured. */
  function Transition(t: Entry, e: Event): Option<Entry> {
    match (t.state, e)
    case (Proposal, Selected) => Some(t.(state := Selection))
    case (Selection, Queued(at)) => Some(t.(state := Queue, queuedAt := Some(at)))
    case (Queue, EnteredResourceWait(at)) =>
      if Measurable(t.queuedAt, at) then Some(t.(state := ResourceWait, waitedAt := Some(at))) else None
    case (Queue, Admitted(at, rs)) =>
      if Measurable(t.queuedAt, at) && Optional(t.waitedAt, at) then Some(t.(state := Admission, reservations := rs)) else None
    case (ResourceWait, Admitted(at, rs)) =>
      if Optional(t.waitedAt, at) then Some(t.(state := Admission, reservations := rs)) else None
    case (Admission, SetupStarted(at)) => Some(t.(state := Setup, setupAt := Some(at)))
    case (Setup, RunStarted(at)) =>
      if Measurable(t.setupAt, at) then Some(t.(state := Running, startedAt := Some(at))) else None
    case (Running, ProcessFinished(at, d)) =>
      if d != "SetupFailed" && Measurable(t.startedAt, at)
      then Some(t.(state := Cleanup(d), finishedAt := Some(at), execution := Some(d))) else None
    case (Admission, SetupFailed(at)) => FailBeforeRun(t, "SetupFailed", at)
    case (Setup, SetupFailed(at)) => FailBeforeRun(t, "SetupFailed", at)
    case (Admission, PreRunTerminated(at, d)) => if d in {"TimedOut", "Cancelled"} then FailBeforeRun(t, d, at) else None
    case (Setup, PreRunTerminated(at, d)) => if d in {"TimedOut", "Cancelled"} then FailBeforeRun(t, d, at) else None
    case (Cleanup(d), CleanupFinished(at)) =>
      if Measurable(t.finishedAt, at) then Some(t.(state := ReceiptPending(d))) else None
    case (ReceiptPending(d), ReceiptCreated(at, r)) => Some(t.(state := ReleasePending(d), receipt := Some(Created(r))))
    case (ReceiptPending(d), ReceiptCreationFailed(at)) => Some(t.(state := ReleasePending(d), receipt := Some(CreationFailed)))
    case (ReleasePending(d), ResourcesReleased(at)) => Some(t.(state := Released(d), released := true))
    case (Proposal, TerminallyDeclined(at, d, x)) => Decline(t, d, x)
    case (Selection, TerminallyDeclined(at, d, x)) => Decline(t, d, x)
    case (Queue, TerminallyDeclined(at, d, x)) => if Measurable(t.queuedAt, at) then Decline(t, d, x) else None
    case (ResourceWait, TerminallyDeclined(at, d, x)) => if Measurable(t.waitedAt, at) then Decline(t, d, x) else None
    case _ => None
  }

  function FailBeforeRun(t: Entry, d: string, at: nat): Option<Entry> {
    if Optional(t.setupAt, at) then Some(t.(state := ReceiptPending(d), execution := Some(d))) else None
  }

  function Decline(t: Entry, d: string, existing: Option<Reference>): Option<Entry> {
    if (d == "SatisfiedByExistingReceipt") != existing.Some? then None
    else Some(t.(state := Declined(d), nonExecution := Some(d), existing := existing))
  }

  /** `_task_ledger_apply`: one event on one task. */
  function Apply(t: Option<Entry>, id: string, e: Event): Option<Entry> {
    if e.Proposed? then (if t.Some? then None else Some(Fresh(id, e.source)))
    else if t.None? then None
    else if At(e).Some? && t.value.lastAt.Some? && At(e).value < t.value.lastAt.value then None
    else if e.ConsumerAttached? then
      if e.id in t.value.consumers && t.value.consumers[e.id] != e.consumer then None
      else Some(t.value.(consumers := t.value.consumers[e.id := e.consumer]))
    else match Transition(t.value, e)
         case None => None
         case Some(next) => Some(if At(e).Some? then next.(lastAt := At(e)) else next)
  }

  // -------------------------------------------------------------------- replay

  /** A decoded record; `joins` says that its schema is known and its revisions are the admitted one. */
  datatype Record = Record(sequence: int, taskId: string, previous: Option<string>, event: Event, joins: bool, digest: string)

  /** Decoding and canonical rendering of a line, and the domain-separated digest of a record. */
  datatype Format = Format(
    decode: string -> Option<Record>, render: Record -> string, digest: (int, string, Option<string>, Event) -> string)

  predicate CanonicalId(s: string) {
    s != "" && Strings.Trim(s) == s && forall c :: c in s ==> !(c < ' ' || '\U{7f}' <= c <= '\U{9f}')
  }

  /** The tasks replayed so far, and the digest of the last record. */
  datatype Ledger = Ledger(tasks: map<string, Entry>, last: Option<string>)

  /** The record of line `n` continues the chain. */
  predicate Chained(f: Format, r: Record, n: nat, last: Option<string>, line: string) {
    && r.sequence == n && CanonicalId(r.taskId) && r.joins && r.previous == last && Shaped(r.event)
    && r.digest == f.digest(r.sequence, r.taskId, r.previous, r.event) && f.render(r) == line
  }

  function Lookup(tasks: map<string, Entry>, id: string): Option<Entry> { if id in tasks then Some(tasks[id]) else None }

  function Step(f: Format, l: Ledger, n: nat, line: string): Option<Ledger> {
    if line == "" || f.decode(line).None? || !Chained(f, f.decode(line).value, n, l.last, line) then None
    else
      var r := f.decode(line).value;
      match Apply(Lookup(l.tasks, r.taskId), r.taskId, r.event)
      case None => None
      case Some(t) => Some(Ledger(l.tasks[r.taskId := t], Some(r.digest)))
  }

  function Replay(f: Format, lines: seq<string>, n: nat): Option<Ledger>
    requires n <= |lines|
  {
    if n == 0 then Some(Ledger(map[], None))
    else match Replay(f, lines, n - 1)
         case None => None
         case Some(l) => Step(f, l, n - 1, lines[n - 1])
  }

  predicate Terminal(s: State) { s.Released? || s.Declined? }

  predicate AllTerminal(tasks: map<string, Entry>) { forall id :: id in tasks ==> Terminal(tasks[id].state) }

  predicate WellEnded(events: string) { events != "" && events[|events| - 1] == '\n' && '\r' !in events }

  function LinesOf(events: string): (lines: seq<string>)
    requires WellEnded(events)
    ensures lines != []
  {
    Text.Split(events[..|events| - 1], '\n')
  }

  /** The committed tasks are the replayed ones in the order of their identifiers. */
  predicate Recomputed(snapshot: seq<Entry>, tasks: map<string, Entry>) {
    && (forall i, j :: 0 <= i < j < |snapshot| ==> Sorting.Less(snapshot[i].id, snapshot[j].id))
    && (forall i :: 0 <= i < |snapshot| ==> snapshot[i].id in tasks && tasks[snapshot[i].id] == snapshot[i])
    && forall id :: id in tasks ==> exists i :: 0 <= i < |snapshot| && snapshot[i].id == id
  }

  /** `_verify_task_ledger_bytes`: the stream replays, every task ends, and the snapshot is what the replay gives. */
  predicate Verified(f: Format, events: string, snapshot: seq<Entry>) {
    WellEnded(events) &&
    var lines := LinesOf(events);
    var l := Replay(f, lines, |lines|);
    l.Some? && AllTerminal(l.value.tasks) && Recomputed(snapshot, l.value.tasks)
  }

  /** The verifier's loop. */
  method ReplayStream(f: Format, lines: seq<string>) returns (l: Option<Ledger>)
    ensures l == Replay(f, lines, |lines|)
  {
    hide Step;
    var now := Ledger(map[], None);
    for n := 0 to |lines|
      invariant Replay(f, lines, n) == Some(now)
    {
      var next := Step(f, now, n, lines[n]);
      if next.None? {
        ReplayStops(f, lines, n + 1, |lines|);
        return None;
      }
      now := next.value;
    }
    l := Some(now);
  }

  lemma {:induction false} ReplayStops(f: Format, lines: seq<string>, n: nat, m: nat)
    requires n <= m <= |lines| && Replay(f, lines, n).None?
    ensures Replay(f, lines, m).None?
  {
    if n < m { ReplayStops(f, lines, n, m - 1); }
  }

  method Verify(f: Format, events: string, snapshot: seq<Entry>) returns (ok: bool)
    ensures ok == Verified(f, events, snapshot)
  {
    if !WellEnded(events) { return false; }
    var l := ReplayStream(f, LinesOf(events));
    if l.None? { return false; }
    ok := AllTerminal(l.value.tasks) && Recomputed(snapshot, l.value.tasks);
  }

  // --------------------------------------------------- what the life cycle keeps

  predicate Executing(s: State) { s.Cleanup? || s.ReceiptPending? || s.ReleasePending? || s.Released? }

  predicate Early(s: State) { s.Proposal? || s.Selection? || s.Queue? || s.ResourceWait? || s.Declined? }

  /** What every reachable task satisfies. */
  predicate Sound(t: Entry) { Settled(t) && Timed(t) }

  /** Which fields are set in which state. */
  predicate Settled(t: Entry) {
    && (t.execution == if Executing(t.state) then Some(t.state.disposition) else None)
    && (t.receipt.Some? <==> t.state.ReleasePending? || t.state.Released?)
    && (t.released <==> t.state.Released?)
    && (t.startedAt.Some? ==> t.state.Running? || Executing(t.state))
    && (t.nonExecution == if t.state.Declined? then Some(t.state.reason) else None)
    && (t.existing.Some? <==> t.nonExecution == Some("SatisfiedByExistingReceipt"))
    && ReservationsValid(t.reservations) && (Early(t.state) ==> t.reservations == [])
  }

  predicate Before(at: Option<nat>, last: Option<nat>) { at.Some? && last.Some? && at.value <= last.value }

  predicate Unless(at: Option<nat>, last: Option<nat>) { at.Some? ==> Before(at, last) }

  /** The start of the phase a task is in is recorded, and no recorded start is later than the last event. */
  predicate Timed(t: Entry) { QueueTimed(t) && WaitTimed(t) && SetupTimed(t) && StartTimed(t) && FinishTimed(t) }

  predicate QueueTimed(t: Entry) { Unless(t.queuedAt, t.lastAt) && (t.state.Queue? ==> t.queuedAt.Some?) }
  predicate WaitTimed(t: Entry) { Unless(t.waitedAt, t.lastAt) && (t.state.ResourceWait? ==> t.waitedAt.Some?) }
  predicate SetupTimed(t: Entry) { Unless(t.setupAt, t.lastAt) && (t.state.Setup? ==> t.setupAt.Some?) }
  predicate StartTimed(t: Entry) { Unless(t.startedAt, t.lastAt) && (t.state.Running? ==> t.startedAt.Some?) }
  predicate FinishTimed(t: Entry) { Unless(t.finishedAt, t.lastAt) && (t.state.Cleanup? ==> t.finishedAt.Some?) }

  lemma ApplyKeepsSound(t: Option<Entry>, id: string, e: Event)
    requires Shaped(e) && (t.Some? ==> Sound(t.value) && t.value.id == id)
    requires Apply(t, id, e).Some?
    ensures Sound(Apply(t, id, e).value) && Apply(t, id, e).value.id == id
  {
    hide ReservationsValid, Transition, Settled, Timed, Shaped;
    if e.Proposed? {
      FreshIsSound(id, e.source);
    } else if e.ConsumerAttached? {
      ConsumersAreNeutral(t.value, t.value.consumers[e.id := e.consumer]);
    } else {
      TransitionKeepsSettled(t.value, e);
      TransitionKeepsTimed(t.value, e);
    }
  }

  lemma FreshIsSound(id: string, source: string)
    ensures Sound(Fresh(id, source))
  {
  }

  lemma ConsumersAreNeutral(t: Entry, consumers: map<string, Consumer>)
    requires Sound(t)
    ensures Sound(t.(consumers := consumers))
  {
    hide ReservationsValid;
  }

  function Stamped(t: Entry, e: Event): Entry { if At(e).Some? then t.(lastAt := At(e)) else t }

  lemma TransitionKeepsSettled(t: Entry, e: Event)
    requires Settled(t) && Shaped(e) && Transition(t, e).Some?
    ensures Settled(Stamped(Transition(t, e).value, e)) && Transition(t, e).value.id == t.id
  {
    hide ReservationsValid, Measurable, Optional;
    NoReservations();
  }

  /** The event is not earlier than the last one. */
  predicate InTime(t: Entry, e: Event) { At(e).Some? ==> Unless(t.lastAt, At(e)) }

  lemma TransitionKeepsTimed(t: Entry, e: Event)
    requires Timed(t) && InTime(t, e) && Transition(t, e).Some?
    ensures Timed(Stamped(Transition(t, e).value, e))
  {
    hide Transition, QueueTimed, WaitTimed, SetupTimed, StartTimed, FinishTimed;
    QueueStays(t, e);
    WaitStays(t, e);
    SetupStays(t, e);
    StartStays(t, e);
    FinishStays(t, e);
  }

  lemma QueueStays(t: Entry, e: Event)
    requires QueueTimed(t) && InTime(t, e) && Transition(t, e).Some?
    ensures QueueTimed(Stamped(Transition(t, e).value, e))
  {
  }

  lemma WaitStays(t: Entry, e: Event)
    requires WaitTimed(t) && InTime(t, e) && Transition(t, e).Some?
    ensures WaitTimed(Stamped(Transition(t, e).value, e))
  {
  }

  lemma SetupStays(t: Entry, e: Event)
    requires SetupTimed(t) && InTime(t, e) && Transition(t, e).Some?
    ensures SetupTimed(Stamped(Transition(t, e).value, e))
  {
  }

  lemma StartStays(t: Entry, e: Event)
    requires StartTimed(t) && InTime(t, e) && Transition(t, e).Some?
    ensures StartTimed(Stamped(Transition(t, e).value, e))
  {
  }

  lemma FinishStays(t: Entry, e: Event)
    requires FinishTimed(t) && InTime(t, e) && Transition(t, e).Some?
    ensures FinishTimed(Stamped(Transition(t, e).value, e))
  {
  }

  lemma NoReservations()
    ensures ReservationsValid([])
  {
  }

  lemma {:induction false} ReplayIsSound(f: Format, lines: seq<string>, n: nat)
    requires n <= |lines| && Replay(f, lines, n).Some?
    ensures var tasks := Replay(f, lines, n).value.tasks;
      (n > 0 ==> tasks != map[]) && forall id :: id in tasks ==> Sound(tasks[id]) && tasks[id].id == id && CanonicalId(id)
  {
    hide Sound, Apply, Shaped, CanonicalId;
    if n > 0 {
      ReplayIsSound(f, lines, n - 1);
      var l := Replay(f, lines, n - 1).value;
      var r := f.decode(lines[n - 1]).value;
      ApplyKeepsSound(Lookup(l.tasks, r.taskId), r.taskId, r.event);
    }
  }

  /** Which event a state accepts, whatever its time. */
  predicate Accepts(s: State, e: Event) {
    || (s.Proposal? && e.Selected?) || (s.Selection? && e.Queued?) || (s.Queue? && e.EnteredResourceWait?)
    || ((s.Queue? || s.ResourceWait?) && e.Admitted?) || (s.Admission? && e.SetupStarted?) || (s.Setup? && e.RunStarted?)
    || (s.Running? && e.ProcessFinished? && e.disposition != "SetupFailed")
    || ((s.Admission? || s.Setup?) && (e.SetupFailed? || (e.PreRunTerminated? && e.disposition in {"TimedOut", "Cancelled"})))
    || (s.Cleanup? && e.CleanupFinished?) || (s.ReceiptPending? && (e.ReceiptCreated? || e.ReceiptCreationFailed?))
    || (s.ReleasePending? && e.ResourcesReleased?)
    || ((s.Proposal? || s.Selection? || s.Queue? || s.ResourceWait?) && e.TerminallyDeclined?
        && (e.disposition == "SatisfiedByExistingReceipt") == e.existing.Some?)
  }

  /** No reachable task refuses an event because a duration cannot be measured: once events are in time, the state alone
      decides. */
  lemma DurationsNeverFail(t: Entry, e: Event)
    requires Sound(t) && InTime(t, e)
    ensures Transition(t, e).Some? <==> Accepts(t.state, e)
  {
    hide ReservationsValid;
  }

  /** Which events the replay takes: the proposal of a task it does not know, and for a task it knows any other event that is in
      time, whose consumer is not attached differently already, and that the state of the task accepts. */
  lemma EventTakenExactlyWhen(t: Option<Entry>, id: string, e: Event)
    requires t.Some? ==> Sound(t.value)
    ensures Apply(t, id, e).Some? <==>
      if t.None? then e.Proposed?
      else
        && !e.Proposed? && (At(e).Some? && t.value.lastAt.Some? ==> t.value.lastAt.value <= At(e).value)
        && if e.ConsumerAttached? then e.id in t.value.consumers ==> t.value.consumers[e.id] == e.consumer else Accepts(t.value.state, e)
  {
    hide Transition, Sound, Accepts;
    if t.Some? && !e.Proposed? && !e.ConsumerAttached? && (At(e).Some? && t.value.lastAt.Some? ==> t.value.lastAt.value <= At(e).value) {
      DurationsNeverFail(t.value, e);
    }
  }

  // --------------------------------------------------------- what it guarantees

  function AsTask(t: Entry): Task {
    Task(t.id, t.source, t.startedAt.Some?, t.execution, if t.receipt.Some? && t.receipt.value.Created? then Some(t.receipt.value.reference) else None,
      t.receipt == Some(CreationFailed), t.released, t.existing, t.reservations)
  }

  /** What the reconciler may take for granted of a verified ledger's task: an executed one has a disposition, a receipt
      or the record of its failure, and no resources; a declined one was not executed and owns nothing. */
  predicate Closed(t: Task) {
    && t.id != "" && ReservationsValid(t.reservations)
    && (t.executed ==> t.disposition.Some? && t.resourcesReleased)
    && (t.disposition.Some? <==> t.resourcesReleased)
    && (t.disposition.Some? <==> (t.reference.Some? || t.creationFailed)) && !(t.reference.Some? && t.creationFailed)
    && (t.disposition.None? ==> t.reservations == [])
    && (t.existingReceipt.Some? ==> t.disposition.None?)
  }

  /** A verified ledger is never empty, and all its tasks are closed and have their own canonical identifiers. */
  lemma VerifiedLedgerIsClosed(f: Format, events: string, snapshot: seq<Entry>)
    requires Verified(f, events, snapshot)
    ensures snapshot != []
    ensures forall i :: 0 <= i < |snapshot| ==> Closed(AsTask(snapshot[i])) && CanonicalId(snapshot[i].id)
    ensures forall i, j :: 0 <= i < j < |snapshot| ==> snapshot[i].id != snapshot[j].id
  {
    hide Replay, Sound, CanonicalId, Closed;
    var lines := LinesOf(events);
    ReplayIsSound(f, lines, |lines|);
    var tasks := Replay(f, lines, |lines|).value.tasks;
    var some :| some in tasks;
    forall i | 0 <= i < |snapshot| ensures Closed(AsTask(snapshot[i])) && CanonicalId(snapshot[i].id) {
      TerminalIsClosed(snapshot[i]);
    }
    forall i, j | 0 <= i < j < |snapshot| ensures snapshot[i].id != snapshot[j].id {
      Sorting.Trichotomy(snapshot[i].id, snapshot[j].id);
      Sorting.Trichotomy(snapshot[i].id, snapshot[i].id);
    }
  }

  lemma TerminalIsClosed(t: Entry)
    requires Sound(t) && Terminal(t.state) && CanonicalId(t.id)
    ensures Closed(AsTask(t))
  {
  }

  // -------------------------------------------------------------- tamper evidence

  ghost predicate Injective(f: Format) {
    forall a: int, b: string, c: Option<string>, d: Event, a': int, b': string, c': Option<string>, d': Event ::
      f.digest(a, b, c, d) == f.digest(a', b', c', d') ==> a == a' && b == b' && c == c' && d == d'
  }

  /** The last line is the rendering of a record with the last digest. */
  lemma LastOf(f: Format, lines: seq<string>, n: nat)
    requires 0 < n <= |lines| && Replay(f, lines, n).Some?
    ensures Replay(f, lines, n - 1).Some? && f.decode(lines[n - 1]).Some?
    ensures var r, l := f.decode(lines[n - 1]).value, Replay(f, lines, n - 1).value;
      Chained(f, r, n - 1, l.last, lines[n - 1]) && Replay(f, lines, n).value.last == Some(r.digest)
  {
    hide Apply, CanonicalId, Shaped;
  }

  lemma SameRecord(f: Format, a: seq<string>, n: nat, b: seq<string>, m: nat)
    requires Injective(f) && 0 < n <= |a| && 0 < m <= |b|
    requires Replay(f, a, n).Some? && Replay(f, b, m).Some? && Replay(f, a, n).value.last == Replay(f, b, m).value.last
    ensures Replay(f, a, n - 1).Some? && Replay(f, b, m - 1).Some?
    ensures n == m && a[n - 1] == b[m - 1] && Replay(f, a, n - 1).value.last == Replay(f, b, m - 1).value.last
  {
    hide Replay, CanonicalId, Shaped;
    LastOf(f, a, n);
    LastOf(f, b, m);
    assert f.decode(a[n - 1]).value == f.decode(b[m - 1]).value;
  }

  /** The last digest fixes the whole stream: two accepted streams that end in the same digest are the same, line by line. */
  lemma {:induction false} ChainFixesStream(f: Format, a: seq<string>, n: nat, b: seq<string>, m: nat)
    requires Injective(f) && n <= |a| && m <= |b|
    requires Replay(f, a, n).Some? && Replay(f, b, m).Some? && Replay(f, a, n).value.last == Replay(f, b, m).value.last
    ensures n == m && a[..n] == b[..m]
    decreases n
  {
    hide Step, Injective;
    if n > 0 { LastOf(f, a, n); }
    if m > 0 { LastOf(f, b, m); }
    if n > 0 && m > 0 {
      SameRecord(f, a, n, b, m);
      ChainFixesStream(f, a, n - 1, b, m - 1);
      assert a[..n] == a[..n - 1] + [a[n - 1]] && b[..m] == b[..m - 1] + [b[m - 1]];
    }
  }
}
