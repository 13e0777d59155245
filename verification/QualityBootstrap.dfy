/** Bounded collection under one deadline, and staged promotion by renames (`scripts/quality-bootstrap.py`). */
module QualityBootstrap {
  import opened Collections

  /** Times in milliseconds. */
  const MAX_ATTEMPTS: nat := 4
  const TOTAL: nat := 90_000
  const CALL: nat := 20_000
  const BACKOFF: seq<nat> := [1_000, 3_000, 7_000]
  const QUERIES: seq<string> := ["actions-runs.json", "pr-state.json"]

  type Rows = seq<string>
  type Files = map<string, string>

  /** What a path holds. */
  datatype Entry = Absent | Directory(files: Files) | Other

  /** How one file operation ends; a crash ends the process too. */
  datatype Outcome = Done | Failed | Crashed

  datatype Reply = Answer(rows: Rows) | Failure(reason: string, transient: bool)

  datatype Status = Complete | Broken(reason: string)
  datatype Attempt = Attempt(query: nat, number: nat, status: Status)

  /** When a call was made and answered, and when and how long the collector slept. */
  datatype Call = Call(asked: int, answered: int)
  datatype Pause = Pause(at: int, delay: nat)

  datatype Promotion = Promoted(previous: Option<nat>) | InvalidDestination | IoFailed | Stopped

  datatype Receipt = Receipt(complete: bool, status: string, previous: Option<nat>)

  /** What the collector cannot choose: replies and their durations, the passing of time, and how file operations end. */
  datatype Oracle = Oracle(
    reply: (nat, int) -> Reply, takes: (nat, int) -> nat, lag: nat -> nat, oversleep: nat -> nat, outcome: nat -> Outcome,
    encode: Rows -> string, numbers: Rows -> string)

  /** The client never answers later than the timeout it was given. */
  ghost predicate Honours(o: Oracle) {
    forall n: nat, timeout: int :: 0 < timeout ==> o.takes(n, timeout) <= timeout
  }

  /** Nothing goes wrong: every call is answered with rows inside its timeout, every file operation succeeds, and at
      most ten seconds pass between two steps. */
  ghost predicate Smooth(o: Oracle) {
    && Honours(o) && (forall n: nat, timeout: int :: o.reply(n, timeout).Answer?)
    && (forall n: nat :: o.outcome(n) == Done && o.lag(n) <= 10_000)
  }

  /** Answers every call with the same rows, after the given time or at the timeout. */
  function SteadyClient(rows: Rows, takes: nat): (o: Oracle)
    ensures Smooth(o)
  {
    Oracle((n, timeout) => Answer(rows), (n, timeout) => if timeout <= 0 || takes < timeout then takes else timeout,
      n => 0, n => 0, n => Done, rows => "", rows => "")
  }

  function Snapshot(o: Oracle, runs: Rows, prs: Rows): Files {
    map[QUERIES[0] := o.encode(runs), QUERIES[1] := o.encode(prs), "pr-numbers.txt" := o.numbers(prs)]
  }

  function StatusOf(reply: Reply): Status { if reply.Answer? then Complete else Broken(reply.reason) }

  /** The attempt at place `n` follows the one before it: a complete reply ends its query, a transient failure is retried. */
  predicate Continues(attempts: seq<Attempt>, replies: seq<Reply>, n: nat)
    requires 0 < n < |attempts| <= |replies|
  {
    var a, b := attempts[n - 1], attempts[n];
    if replies[n - 1].Answer? then b.query == a.query + 1 && b.number == 1
    else replies[n - 1].transient && b.query == a.query && b.number == a.number + 1
  }

  /** The receipt's lines report the replies in order, counting from one for each query in turn and never past the limit. */
  predicate InTurn(attempts: seq<Attempt>, replies: seq<Reply>) {
    && |attempts| == |replies|
    && (forall n :: 0 <= n < |attempts| ==>
          1 <= attempts[n].number <= MAX_ATTEMPTS && attempts[n].query < |QUERIES| && attempts[n].status == StatusOf(replies[n]))
    && (attempts != [] ==> attempts[0].query == 0 && attempts[0].number == 1)
    && (forall n {:trigger Continues(attempts, replies, n)} :: 0 < n < |attempts| ==> Continues(attempts, replies, n))
  }

  /** Attempts on one query stand together, numbered without a gap, and every one but the last failed transiently. */
  lemma {:induction false} RetriesAreTransient(attempts: seq<Attempt>, replies: seq<Reply>, i: nat, j: nat)
    requires InTurn(attempts, replies) && i < j < |attempts|
    ensures attempts[i].query <= attempts[j].query
    ensures attempts[i].query == attempts[j].query ==>
      attempts[j].number == attempts[i].number + (j - i) && replies[i].Failure? && replies[i].transient
    decreases j - i
  {
    assert Continues(attempts, replies, i + 1);
    if i + 1 < j { RetriesAreTransient(attempts, replies, i + 1, j); }
  }

  /** So no query is tried more than four times. */
  lemma AtMostFourAttempts(attempts: seq<Attempt>, replies: seq<Reply>, i: nat, j: nat)
    requires InTurn(attempts, replies) && i < j < |attempts| && attempts[i].query == attempts[j].query
    ensures j - i < 4
  {
    RetriesAreTransient(attempts, replies, i, j);
  }

  /** The next line of the receipt may be attempt `number` on `query`. */
  predicate Next(attempts: seq<Attempt>, replies: seq<Reply>, query: nat, number: nat)
    requires |attempts| == |replies|
  {
    if attempts == [] then query == 0 && number == 1
    else
      var last := attempts[|attempts| - 1];
      if replies[|replies| - 1].Answer? then query == last.query + 1 && number == 1
      else replies[|replies| - 1].transient && query == last.query && number == last.number + 1
  }

  class Collector {
    const o: Oracle
    var now: int
    var clocks: nat
    var calls: nat
    var naps: nat
    var operations: nat
    var attempts: seq<Attempt>
    var out: Entry
    var backups: seq<Entry>
    var stage: Entry
    var diagnostic: Option<Receipt>
    ghost var replies: seq<Reply>
    ghost var log: seq<Call>
    ghost var pauses: seq<Pause>

    constructor (o: Oracle, out: Entry, backups: seq<Entry>, diagnostic: Option<Receipt>, now: int)
      ensures this.o == o && this.out == out && this.backups == backups && this.diagnostic == diagnostic && this.now == now
      ensures attempts == [] && replies == [] && log == [] && pauses == []
    {
      this.o, this.out, this.backups, this.diagnostic, this.now := o, out, backups, diagnostic, now;
      clocks, calls, naps, operations, attempts, stage, replies, log, pauses := 0, 0, 0, 0, [], Absent, [], [], [];
    }

    /** Reading the clock; time passes first. */
    method Clock() returns (t: int)
      modifies this`now, this`clocks
      ensures t == now >= old(now) && (Smooth(o) ==> now <= old(now) + 10_000)
    {
      now := now + o.lag(clocks);
      clocks := clocks + 1;
      t := now;
    }

    method Do() returns (r: Outcome)
      modifies this`operations
      ensures r == o.outcome(old(operations))
    {
      r := o.outcome(operations);
      operations := operations + 1;
    }

    /** What every read and every pause so far kept to. */
    ghost predicate Timely(started: int)
      reads this`log, this`pauses
    {
      && (forall c :: c in log ==> c.asked - started < TOTAL && (Honours(o) ==> c.answered - started <= TOTAL))
      && (forall p :: p in pauses ==> p.at - started + p.delay < TOTAL)
    }

    /** One call within the deadline, with its line in the receipt; `None` when no time is left. */
    method Try(query: nat, number: nat, started: int) returns (reply: Option<Reply>)
      requires query < |QUERIES| && 1 <= number <= MAX_ATTEMPTS && InTurn(attempts, replies) && Timely(started)
      requires Next(attempts, replies, query, number)
      modifies this`now, this`clocks, this`calls, this`attempts, this`replies, this`log
      ensures InTurn(attempts, replies) && Timely(started)
      ensures reply.None? ==> attempts == old(attempts) && replies == old(replies)
      ensures reply.Some? ==>
        attempts == old(attempts) + [Attempt(query, number, StatusOf(reply.value))] && replies == old(replies) + [reply.value]
      ensures reply.Some? ==> exists n: nat, timeout: int :: o.reply(n, timeout) == reply.value
      ensures |log| - |attempts| == old(|log| - |attempts|)
      ensures Smooth(o) && old(now) - started < 80_000 ==> reply.Some? && reply.value.Answer? && now <= old(now) + 30_000
    {
      var t := Clock();
      var remaining := TOTAL - (t - started);
      if remaining <= 0 { return None; }
      var timeout := if CALL < remaining then CALL else remaining;
      var answer := o.reply(calls, timeout);
      now := now + o.takes(calls, timeout);
      calls := calls + 1;
      log := log + [Call(t, now)];
      var line := Attempt(query, number, if answer.Answer? then Complete else Broken(answer.reason));
      StaysInTurn(attempts, replies, line, answer);
      attempts := attempts + [line];
      replies := replies + [answer];
      reply := Some(answer);
    }

    /** Sleeps when the sleep ends inside the budget. */
    method BackOff(number: nat, started: int) returns (slept: bool)
      requires 1 <= number < MAX_ATTEMPTS && Timely(started)
      modifies this`now, this`clocks, this`naps, this`pauses
      ensures Timely(started)
      ensures slept ==> |pauses| == |old(pauses)| + 1 && pauses[..|old(pauses)|] == old(pauses)
      ensures slept ==> pauses[|pauses| - 1].delay == BACKOFF[number - 1]
      ensures !slept ==> pauses == old(pauses)
    {
      var delay := BACKOFF[number - 1];
      var t := Clock();
      if t - started + delay >= TOTAL { return false; }
      pauses := pauses + [Pause(t, delay)];
      now := now + delay + o.oversleep(naps);
      naps := naps + 1;
      slept := true;
    }

    /** The attempts on one query; `None` is a read failure. */
    method ReadQuery(query: nat, started: int) returns (rows: Option<Rows>, reason: string)
      requires query < |QUERIES| && |attempts| == |replies| && InTurn(attempts, replies) && Timely(started) && Next(attempts, replies, query, 1)
      modifies this`now, this`clocks, this`calls, this`naps, this`attempts, this`replies, this`log, this`pauses
      ensures InTurn(attempts, replies) && Timely(started)
      ensures |old(attempts)| <= |attempts| <= |old(attempts)| + MAX_ATTEMPTS && attempts[..|old(attempts)|] == old(attempts)
      ensures rows.Some? ==> |attempts| > |old(attempts)| && attempts[|attempts| - 1].query == query && attempts[|attempts| - 1].status.Complete?
      ensures |old(replies)| <= |replies| && replies[..|old(replies)|] == old(replies)
      ensures rows.Some? ==> |replies| == |attempts| && replies[|replies| - 1] == Answer(rows.value) && Given(o, rows.value)
      ensures |log| - |attempts| == old(|log| - |attempts|)
      ensures Smooth(o) && old(now) - started < 80_000 ==> rows.Some? && now <= old(now) + 30_000
    {
      hide InTurn, Timely, Smooth;
      rows, reason := None, "";
      var attempt := 1;
      while attempt <= MAX_ATTEMPTS
        invariant 1 <= attempt <= MAX_ATTEMPTS
        invariant |attempts| == |old(attempts)| + attempt - 1 && attempts[..|old(attempts)|] == old(attempts)
        invariant |replies| == |old(replies)| + attempt - 1 && replies[..|old(replies)|] == old(replies)
        invariant |log| - |attempts| == old(|log| - |attempts|)
        invariant Smooth(o) && old(now) - started < 80_000 ==> attempt == 1 && now == old(now)
        invariant |attempts| == |replies| && InTurn(attempts, replies) && Timely(started) && Next(attempts, replies, query, attempt)
        decreases MAX_ATTEMPTS - attempt
      {
        var reply := Try(query, attempt, started);
        if reply.None? { return None, "deadline_exhausted"; }
        if reply.value.Answer? { return Some(reply.value.rows), ""; }
        if !reply.value.transient || attempt == MAX_ATTEMPTS { return None, reply.value.reason; }
        var slept := BackOff(attempt, started);
        if !slept { return None, "deadline_exhausted"; }
        attempt := attempt + 1;
      }
    }

    /** The destination is whole: the old entry, the new snapshot, or absent with the old one kept as the newest backup. */
    ghost predicate Whole(was: Entry, files: Files)
      reads this`out, this`backups
    {
      || out == was
      || out == Directory(files)
      || (out == Absent && backups != [] && backups[|backups| - 1] == was)
    }

    /** Writes the staged files, moves the old directory away, moves the stage into place, and moves the old one back on failure. */
    method Promote(files: Files) returns (r: Promotion)
      modifies this`operations, this`out, this`backups, this`stage
      ensures Whole(old(out), files)
      ensures |old(backups)| <= |backups| && backups[..|old(backups)|] == old(backups)
      ensures r.Promoted? ==> out == Directory(files) && stage == Absent
      ensures r.Promoted? ==> (r.previous.Some? <==> old(out).Directory?)
      ensures r.Promoted? && r.previous.Some? ==> r.previous.value < |backups| && backups[r.previous.value] == old(out)
      ensures r.InvalidDestination? <==> old(out).Other? && !r.IoFailed? && !r.Stopped?
      ensures r.IoFailed? || r.InvalidDestination? ==> out == old(out) || out == Absent
      ensures Smooth(o) && !old(out).Other? ==> r.Promoted?
    {
      var made := Do();
      if made.Crashed? { return Stopped; }
      if made.Failed? { return IoFailed; }
      if out.Other? { return InvalidDestination; }
      var folder := Do();
      if folder.Crashed? { return Stopped; }
      if folder.Failed? { return IoFailed; }
      stage := Directory(map[]);
      r := Replace(files);
      if r.Stopped? { return; }
      if !stage.Absent? {
        var removed := Do();
        if removed.Crashed? { return Stopped; }
        if removed.Failed? { return IoFailed; }
        stage := Absent;
      }
    }

    /** The body that the cleanup of the stage guards. */
    method Replace(files: Files) returns (r: Promotion)
      requires !out.Other? && stage == Directory(map[])
      modifies this`operations, this`out, this`backups, this`stage
      ensures Whole(old(out), files)
      ensures |old(backups)| <= |backups| && backups[..|old(backups)|] == old(backups)
      ensures r.Promoted? ==> out == Directory(files) && stage == Absent
      ensures r.Promoted? ==> (r.previous.Some? <==> old(out).Directory?)
      ensures r.Promoted? && r.previous.Some? ==> r.previous.value < |backups| && backups[r.previous.value] == old(out)
      ensures !r.InvalidDestination?
      ensures r.IoFailed? ==> !stage.Absent? && (out == old(out) || out == Absent)
      ensures Smooth(o) ==> r.Promoted?
    {
      var pending := files.Keys;
      while pending != {}
        invariant pending <= files.Keys && stage.Directory? && stage.files == map k | k in files && k !in pending :: files[k]
        invariant out == old(out) && backups == old(backups)
      {
        var name :| name in pending;
        var wrote := Do();
        if wrote.Crashed? { return Stopped; }
        if wrote.Failed? { return IoFailed; }
        stage := Directory(stage.files[name := files[name]]);
        pending := pending - {name};
      }
      assert stage.files == files;
      var previous: Option<nat> := None;
      if !out.Absent? {
        var folder := Do();
        if folder.Crashed? { return Stopped; }
        if folder.Failed? { return IoFailed; }
        backups := backups + [Absent];
        var moved := Do();
        if moved.Crashed? { return Stopped; }
        if moved.Failed? { return IoFailed; }
        previous := Some(|backups| - 1);
        backups := backups[|backups| - 1 := out];
        out := Absent;
      }
      var placed := Do();
      if placed.Crashed? { return Stopped; }
      if placed.Failed? {
        if previous.Some? {
          var restored := Do();
          if restored.Crashed? { return Stopped; }
          if restored.Done? {
            out := backups[previous.value];
            backups := backups[previous.value := Absent];
          }
        }
        return IoFailed;
      }
      out := stage;
      stage := Absent;
      r := Promoted(previous);
    }

    /** Both queries in turn, then the deadline once more. */
    method ReadBoth(started: int) returns (rows: Option<(Rows, Rows)>, reason: string)
      requires attempts == [] && replies == [] && log == [] && pauses == []
      modifies this`now, this`clocks, this`calls, this`naps, this`attempts, this`replies, this`log, this`pauses
      ensures InTurn(attempts, replies) && Timely(started) && |attempts| <= |QUERIES| * MAX_ATTEMPTS
      ensures rows.Some? ==> now - started < TOTAL && BothComplete(attempts)
      ensures rows.Some? ==> CompleteFiles(o, Snapshot(o, rows.value.0, rows.value.1), attempts, replies)
      ensures |log| == |attempts|
      ensures Smooth(o) && old(now) == started ==> rows.Some?
    {
      hide InTurn, Timely, Smooth, CompleteFiles, Given;
      NothingYet(started);
      var runs, first := ReadQuery(0, started);
      if runs.None? { return None, first; }
      assert CompleteFor(attempts, 0) by { assert attempts[|attempts| - 1].query == 0; }
      ghost var i := |attempts| - 1;
      ghost var before := attempts;
      assert replies[i] == Answer(runs.value) && attempts[i].query == 0;
      var prs, second := ReadQuery(1, started);
      if prs.None? { return None, second; }
      Lasts(before, attempts, 0);
      ghost var j := |attempts| - 1;
      assert attempts[i] == before[i] && replies[i] == Answer(runs.value);
      FilesAreComplete(o, attempts, replies, i, j);
      assert CompleteFor(attempts, 1) by { assert attempts[|attempts| - 1].query == 1; }
      var t := Clock();
      if t - started >= TOTAL { return None, "deadline_exhausted"; }
      rows, reason := Some((runs.value, prs.value)), "";
    }

    /**
     * `collect`: no receipt when the process ended, or a file operation on the receipt failed, before one was in place.
     * `promotedAt` and `files` say when a promotion began and of what.
     */
    method Collect() returns (receipt: Option<Receipt>, ghost started: int, ghost promotedAt: Option<int>, ghost files: Files)
      requires attempts == [] && replies == [] && log == [] && pauses == []
      modifies this
      ensures InTurn(attempts, replies) && Timely(started) && |attempts| <= |QUERIES| * MAX_ATTEMPTS
      ensures |log| == |attempts|
      ensures promotedAt.Some? ==> promotedAt.value - started < TOTAL
      ensures promotedAt.None? ==> out == old(out) && backups == old(backups)
      ensures promotedAt.Some? ==> Whole(old(out), files) && CompleteFiles(o, files, attempts, replies) && BothComplete(attempts)
      ensures receipt.Some? ==> diagnostic == receipt
      ensures receipt.None? ==> diagnostic.None? || (diagnostic == old(diagnostic) && promotedAt.None? && attempts == [])
      ensures receipt.Some? && receipt.value.complete ==> promotedAt.Some? && out == Directory(files) && BothComplete(attempts)
      ensures receipt.Some? && !receipt.value.complete ==> out == old(out) || out == Absent
      ensures Smooth(o) && !old(out).Other? ==> receipt.Some? && receipt.value.complete
    {
      hide InTurn, Timely, Whole, BothComplete, CompleteFiles, Given;
      receipt, promotedAt, files := None, None, map[];
      started := now;
      NothingYet(started);
      var unlinked := Do();
      if !unlinked.Done? { return; }
      diagnostic := None;
      var began := Clock();
      started := began;
      var rows, reason := ReadBoth(began);
      if rows.None? { receipt := Record(Receipt(false, reason, None)); return; }
      promotedAt := Some(now);
      var snapshot := Snapshot(o, rows.value.0, rows.value.1);
      files := snapshot;
      receipt := PromoteAndRecord(snapshot);
    }

    /** The promotion, and the receipt of how it ended. */
    method PromoteAndRecord(files: Files) returns (receipt: Option<Receipt>)
      requires diagnostic.None?
      modifies this`operations, this`out, this`backups, this`stage, this`diagnostic
      ensures Whole(old(out), files) && diagnostic == receipt
      ensures receipt.Some? && receipt.value.complete ==> out == Directory(files)
      ensures receipt.Some? && !receipt.value.complete ==> out == old(out) || out == Absent
      ensures Smooth(o) && !old(out).Other? ==> receipt.Some? && receipt.value.complete
    {
      hide Whole;
      receipt := None;
      var r := Promote(files);
      match r
      case Stopped => return;
      case InvalidDestination => receipt := Record(Receipt(false, "invalid_source_destination", None));
      case IoFailed => receipt := Record(Receipt(false, "local_io_failed", None));
      case Promoted(previous) => receipt := Record(Receipt(true, "complete", previous));
    }

    lemma NothingYet(started: int)
      requires attempts == [] && replies == [] && log == [] && pauses == []
      ensures InTurn(attempts, replies) && Timely(started)
    {
    }

    /** Puts the receipt in place by a rename of its own. */
    method Record(value: Receipt) returns (receipt: Option<Receipt>)
      requires diagnostic.None?
      modifies this`operations, this`diagnostic
      ensures receipt == diagnostic && (receipt.None? || receipt == Some(value))
      ensures Smooth(o) ==> receipt.Some?
    {
      receipt := None;
      var written := Do();
      if !written.Done? { return; }
      var placed := Do();
      if !placed.Done? { return; }
      diagnostic := Some(value);
      receipt := diagnostic;
    }
  }

  /** Both queries ended with a complete reply. */
  predicate BothComplete(attempts: seq<Attempt>) {
    CompleteFor(attempts, 0) && CompleteFor(attempts, 1)
  }

  predicate CompleteFor(attempts: seq<Attempt>, query: nat) {
    exists n :: 0 <= n < |attempts| && attempts[n].query == query && attempts[n].status.Complete?
  }

  /** The client gave these rows in some reply. */
  ghost predicate Given(o: Oracle, rows: Rows) {
    exists n: nat, timeout: int :: o.reply(n, timeout) == Answer(rows)
  }

  /** The files hold the complete reply to each query under that query's name, and the numbers of the second; no other file. */
  ghost predicate CompleteFiles(o: Oracle, files: Files, attempts: seq<Attempt>, replies: seq<Reply>) {
    exists i: int, j: int :: 0 <= i < j < |attempts| && IsSnapshotOf(o, files, attempts, replies, i, j)
  }

  /** Reply `i` answers the query for runs, reply `j` the one for pull requests, and the files are theirs. */
  ghost predicate IsSnapshotOf(o: Oracle, files: Files, attempts: seq<Attempt>, replies: seq<Reply>, i: int, j: int)
    requires 0 <= i < j < |attempts|
  {
    && j < |replies| && attempts[i].query == 0 && attempts[j].query == 1
    && replies[i].Answer? && Given(o, replies[i].rows) && replies[j].Answer? && Given(o, replies[j].rows)
    && files.Keys == {"actions-runs.json", "pr-state.json", "pr-numbers.txt"}
    && files["actions-runs.json"] == o.encode(replies[i].rows)
    && files["pr-state.json"] == o.encode(replies[j].rows)
    && files["pr-numbers.txt"] == o.numbers(replies[j].rows)
  }

  lemma FilesAreComplete(o: Oracle, attempts: seq<Attempt>, replies: seq<Reply>, i: nat, j: nat)
    requires i < j < |attempts| && j < |replies| && attempts[i].query == 0 && attempts[j].query == 1
    requires replies[i].Answer? && Given(o, replies[i].rows) && replies[j].Answer? && Given(o, replies[j].rows)
    ensures CompleteFiles(o, Snapshot(o, replies[i].rows, replies[j].rows), attempts, replies)
  {
    var files := Snapshot(o, replies[i].rows, replies[j].rows);
    var names := ["actions-runs.json", "pr-state.json", "pr-numbers.txt"];
    assert names[0][0] != names[1][0] && names[1][3] != names[2][3];
    assert files.Keys == {names[0], names[1], names[2]};
    assert IsSnapshotOf(o, files, attempts, replies, i, j);
  }

  lemma Lasts(before: seq<Attempt>, after: seq<Attempt>, query: nat)
    requires CompleteFor(before, query) && |before| <= |after| && after[..|before|] == before
    ensures CompleteFor(after, query)
  {
    var n :| 0 <= n < |before| && before[n].query == query && before[n].status.Complete?;
    assert after[n] == before[n];
  }

  lemma StaysInTurn(attempts: seq<Attempt>, replies: seq<Reply>, a: Attempt, reply: Reply)
    requires InTurn(attempts, replies) && 1 <= a.number <= MAX_ATTEMPTS && a.query < |QUERIES| && a.status == StatusOf(reply)
    requires Next(attempts, replies, a.query, a.number)
    ensures InTurn(attempts + [a], replies + [reply])
  {
    forall n | 0 < n < |attempts + [a]| ensures Continues(attempts + [a], replies + [reply], n) {
      if n < |attempts| { assert Continues(attempts, replies, n); }
    }
  }

  /** A client that honours its timeouts, and a collection with it that completes, every call answered inside the budget. */
  method CompletedCollection(rows: Rows, takes: nat, was: Entry) returns (c: Collector, receipt: Receipt, ghost started: int)
    requires !was.Other?
    ensures fresh(c) && Honours(c.o) && receipt.complete && c.diagnostic == Some(receipt) && BothComplete(c.attempts)
    ensures c.log != [] && forall call :: call in c.log ==> call.answered - started <= TOTAL
  {
    hide InTurn;
    c := new Collector(SteadyClient(rows, takes), was, [], None, 0);
    var r;
    ghost var promotedAt, files;
    r, started, promotedAt, files := c.Collect();
    receipt := r.value;
  }
}
