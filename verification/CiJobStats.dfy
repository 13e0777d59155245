/** Per-job statistics of a repository's CI history, and the credit for independent failures (`src/ci_audit.rs`). */
module CiJobStats {
  import opened Collections
  import opened Sorting

  datatype Workflow = Workflow(id: nat, path: string, name: string)
  /** Times in nanoseconds. */
  datatype Job = Job(name: string, conclusion: Option<string>, startedAt: Option<int>, completedAt: Option<int>)
  datatype Run = Run(workflow: nat, event: string, attempt: nat, conclusion: Option<string>, jobs: seq<Job>)

  datatype Key = Key(workflow: nat, name: string)
  datatype Row = Row(key: Key, job: Job)

  const U64_MAX: nat := 0xFFFF_FFFF_FFFF_FFFF

  // ---------------------------------------------------------------- percentile

  /** Nearest rank: the entry at `ceil(pct / 100 * n)`, counted from one. */
  function Percentile(sorted: seq<nat>, pct: nat): Option<nat> {
    if sorted == [] then None
    else
      var rank := (pct * |sorted| + 99) / 100;
      Some(sorted[(if rank < 1 then 1 else if rank > |sorted| then |sorted| else rank) - 1])
  }

  predicate AtMost(x: nat, y: nat) { x <= y }

  function SortedDurations(durations: seq<nat>): seq<nat> { Sort(AtMost, durations) }

  function UpTo(q: nat): nat -> bool { (x: nat) => x <= q }
  function Under(q: nat): nat -> bool { (x: nat) => x < q }

  /** How many durations do not exceed `q`, and how many lie below it. */
  function Through(durations: seq<nat>, q: nat): nat { |Filter(UpTo(q), durations)| }
  function Below(durations: seq<nat>, q: nat): nat { |Filter(Under(q), durations)| }

  /** The percentile is the one duration that at least `pct` percent do not exceed and fewer than that lie below. */
  lemma PercentileMeans(durations: seq<nat>, pct: nat, q: nat)
    requires 1 <= pct <= 100
    ensures Percentile(SortedDurations(durations), pct) == Some(q) <==>
      && q in durations
      && 100 * Through(durations, q) >= pct * |durations| > 100 * Below(durations, q)
  {
    hide Filter, Sort;
    SortMeans(AtMost, durations);
    var s := SortedDurations(durations);
    if durations == [] {
      assert s == [];
    } else {
      var p := Rank(s, pct);
      CountIsOrderFree(UpTo(p), s, durations);
      CountIsOrderFree(Under(p), s, durations);
      if q < p { CountFewer(UpTo(q), Under(p), durations); }
      if p < q { CountFewer(UpTo(p), Under(q), durations); }
    }
  }

  lemma Rank(s: seq<nat>, pct: nat) returns (p: nat)
    requires s != [] && Ascending(AtMost, s) && 1 <= pct <= 100
    ensures Percentile(s, pct) == Some(p) && p in s
    ensures 100 * Through(s, p) >= pct * |s| > 100 * Below(s, p)
  {
    hide Filter;
    var rank := (pct * |s| + 99) / 100;
    PartOf(pct, |s|);
    Ceiling(pct * |s|, |s|);
    p := s[rank - 1];
    AtLeastRank(s, rank);
    FewerThanRank(s, rank);
  }

  lemma PartOf(pct: nat, n: nat)
    requires 1 <= pct <= 100 && n >= 1
    ensures 1 <= pct * n <= 100 * n
  {
  }

  lemma Ceiling(k: nat, n: nat)
    requires 1 <= k <= 100 * n
    ensures 1 <= (k + 99) / 100 <= n && 100 * ((k + 99) / 100) >= k > 100 * ((k + 99) / 100 - 1)
  {
  }

  lemma AtLeastRank(s: seq<nat>, rank: nat)
    requires Ascending(AtMost, s) && 1 <= rank <= |s|
    ensures Through(s, s[rank - 1]) >= rank
  {
    var p := s[rank - 1];
    assert s == s[..rank] + s[rank..];
    forall i | 0 <= i < rank ensures s[..rank][i] <= p { assert i == rank - 1 || AtMost(s[i], s[rank - 1]); }
    CountAll(UpTo(p), s[..rank]);
    FilterAppend(UpTo(p), s[..rank], s[rank..]);
  }

  lemma FewerThanRank(s: seq<nat>, rank: nat)
    requires Ascending(AtMost, s) && 1 <= rank <= |s|
    ensures Below(s, s[rank - 1]) < rank
  {
    var p := s[rank - 1];
    var upper := s[rank - 1..];
    assert s == s[..rank - 1] + upper;
    forall i | 0 <= i < |upper| ensures upper[i] >= p { assert i == 0 || AtMost(s[rank - 1], s[rank - 1 + i]); }
    FilterKeepsNone(Under(p), upper);
    FilterAppend(Under(p), s[..rank - 1], upper);
  }

  // ------------------------------------------------------------ counts per job

  /** The jobs of the pull-request runs, one row each, with the key they are counted under. */
  function RunRows(run: Run, n: nat): (r: seq<Row>)
    requires n <= |run.jobs|
    ensures |r| <= n
  {
    if run.event != "pull_request" then []
    else seq(n, i requires 0 <= i < n => Row(Key(run.workflow, run.jobs[i].name), run.jobs[i]))
  }

  function Rows(runs: seq<Run>, n: nat): seq<Row>
    requires n <= |runs|
  {
    if n == 0 then [] else Rows(runs, n - 1) + RunRows(runs[n - 1], |runs[n - 1].jobs|)
  }

  function Keyed(k: Key): Row -> bool { (r: Row) => r.key == k }
  function Failed(k: Key): Row -> bool { (r: Row) => r.key == k && r.job.conclusion == Some("failure") }
  function Cancelled(k: Key): Row -> bool { (r: Row) => r.key == k && r.job.conclusion == Some("cancelled") }
  function Hung(k: Key): Row -> bool {
    (r: Row) => r.key == k && r.job.conclusion == Some("cancelled") && r.job.startedAt.Some? && r.job.completedAt.None?
  }

  /** Whole seconds, truncated toward zero. */
  function Seconds(nanoseconds: int): int {
    if nanoseconds >= 0 then nanoseconds / 1_000_000_000 else -((-nanoseconds) / 1_000_000_000)
  }

  function Elapsed(j: Job): Option<nat> {
    if j.startedAt.Some? && j.completedAt.Some? && Seconds(j.completedAt.value - j.startedAt.value) >= 0
    then Some(Seconds(j.completedAt.value - j.startedAt.value))
    else None
  }

  function DurationOf(k: Key, r: Row): seq<nat> {
    if r.key == k && Elapsed(r.job).Some? then [Elapsed(r.job).value] else []
  }

  function Durations(k: Key, rows: seq<Row>): seq<nat> {
    if rows == [] then [] else Durations(k, rows[..|rows| - 1]) + DurationOf(k, rows[|rows| - 1])
  }

  datatype Counts = Counts(
    runs: map<Key, nat>, failures: map<Key, nat>, cancels: map<Key, nat>, hung: map<Key, nat>,
    durations: map<Key, seq<nat>>)

  function Get(m: map<Key, nat>, k: Key): nat { if k in m then m[k] else 0 }

  function Bump(m: map<Key, nat>, k: Key): map<Key, nat> { m[k := Get(m, k) + 1] }

  /** Each key's count is the number of its rows that satisfy `p`; a key is present only when it has one. */
  ghost predicate CountsBy(m: map<Key, nat>, p: Key -> (Row -> bool), rows: seq<Row>) {
    forall k: Key :: Get(m, k) == |Filter(p(k), rows)| && (k in m ==> m[k] > 0)
  }

  ghost predicate Collects(m: map<Key, seq<nat>>, rows: seq<Row>) {
    forall k: Key :: (if k in m then m[k] else []) == Durations(k, rows) && (k in m ==> m[k] != [])
  }

  ghost predicate Tallies(c: Counts, rows: seq<Row>) {
    && CountsBy(c.runs, Keyed, rows)
    && CountsBy(c.failures, Failed, rows)
    && CountsBy(c.cancels, Cancelled, rows)
    && CountsBy(c.hung, Hung, rows)
    && Collects(c.durations, rows)
  }

  lemma OneMore(m: map<Key, nat>, p: Key -> (Row -> bool), rows: seq<Row>, row: Row)
    requires CountsBy(m, p, rows)
    requires forall k: Key :: p(k)(row) ==> k == row.key
    ensures CountsBy(if p(row.key)(row) then Bump(m, row.key) else m, p, rows + [row])
  {
    forall k: Key
      ensures |Filter(p(k), rows + [row])| == |Filter(p(k), rows)| + (if p(k)(row) then 1 else 0)
    {
      FilterAppend(p(k), rows, [row]);
    }
  }

  lemma OneMoreDuration(m: map<Key, seq<nat>>, rows: seq<Row>, row: Row)
    requires Collects(m, rows)
    ensures Elapsed(row.job).None? ==> Collects(m, rows + [row])
    ensures Elapsed(row.job).Some? ==>
      Collects(m[row.key := (if row.key in m then m[row.key] else []) + [Elapsed(row.job).value]], rows + [row])
  {
    hide Durations, Elapsed;
    forall k: Key ensures Durations(k, rows + [row]) == Durations(k, rows) + DurationOf(k, row) { DurationsOfOneMore(k, rows, row); }
  }

  lemma DurationsOfOneMore(k: Key, rows: seq<Row>, row: Row)
    ensures Durations(k, rows + [row]) == Durations(k, rows) + DurationOf(k, row)
  {
    assert (rows + [row])[..|rows|] == rows;
  }

  method Record(c: Counts, row: Row, ghost rows: seq<Row>) returns (next: Counts)
    requires Tallies(c, rows)
    ensures Tallies(next, rows + [row])
  {
    hide CountsBy, Collects;
    var k, job := row.key, row.job;
    OneMore(c.runs, Keyed, rows, row);
    OneMore(c.failures, Failed, rows, row);
    OneMore(c.cancels, Cancelled, rows, row);
    OneMore(c.hung, Hung, rows, row);
    OneMoreDuration(c.durations, rows, row);
    next := c.(runs := Bump(c.runs, k));
    if job.conclusion == Some("failure") {
      next := next.(failures := Bump(c.failures, k));
    } else if job.conclusion == Some("cancelled") {
      next := next.(cancels := Bump(c.cancels, k));
      if job.startedAt.Some? && job.completedAt.None? { next := next.(hung := Bump(c.hung, k)); }
    }
    if job.startedAt.Some? && job.completedAt.Some? {
      var seconds := Seconds(job.completedAt.value - job.startedAt.value);
      if seconds >= 0 {
        next := next.(durations := c.durations[k := (if k in c.durations then c.durations[k] else []) + [seconds]]);
      }
    }
  }

  /** The first pass over the history. */
  method CountJobs(runs: seq<Run>) returns (c: Counts)
    ensures Tallies(c, Rows(runs, |runs|))
  {
    hide Tallies;
    c := NoCounts();
    for i := 0 to |runs|
      invariant Tallies(c, Rows(runs, i))
    {
      var run := runs[i];
      if run.event == "pull_request" {
        assert Rows(runs, i) + RunRows(run, 0) == Rows(runs, i);
        for j := 0 to |run.jobs|
          invariant Tallies(c, Rows(runs, i) + RunRows(run, j))
        {
          var row := Row(Key(run.workflow, run.jobs[j].name), run.jobs[j]);
          c := Record(c, row, Rows(runs, i) + RunRows(run, j));
          assert Rows(runs, i) + RunRows(run, j) + [row] == Rows(runs, i) + RunRows(run, j + 1);
        }
      } else {
        assert Rows(runs, i + 1) == Rows(runs, i);
      }
    }
  }

  method NoCounts() returns (c: Counts)
    ensures Tallies(c, [])
  {
    c := Counts(map[], map[], map[], map[], map[]);
  }

  // ------------------------------------------------------------- the cost order

  /** Jobs by median duration, ties by name; a job without a median comes last. */
  datatype Order = Order(median: nat, name: string)

  predicate Cheaper(a: Order, b: Order) {
    a.median < b.median || (a.median == b.median && Less(a.name, b.name))
  }

  type Medians = map<Key, Option<nat>>

  function OrderKey(p50: Medians, w: nat, name: string): Order {
    Order(if Key(w, name) in p50 && p50[Key(w, name)].Some? then p50[Key(w, name)].value else U64_MAX, name)
  }

  lemma CheaperIsTotal(a: Order, b: Order)
    ensures Cheaper(a, b) || Cheaper(b, a) || a == b
    ensures !(Cheaper(a, b) && Cheaper(b, a)) && !Cheaper(a, a)
  {
    Trichotomy(a.name, b.name);
    Trichotomy(a.name, a.name);
  }

  lemma CheaperTransitive(a: Order, b: Order, c: Order)
    requires Cheaper(a, b) && Cheaper(b, c)
    ensures Cheaper(a, c)
  {
    if a.median == b.median == c.median { LessTransitive(a.name, b.name, c.name); }
  }

  // --------------------------------------------------------- independent credit

  /** Anything but success, skipped and neutral blocks, an absent conclusion included. */
  predicate Blocks(conclusion: Option<string>) {
    conclusion != Some("success") && conclusion != Some("skipped") && conclusion != Some("neutral")
  }

  predicate Unambiguous(run: Run) {
    forall i, j :: 0 <= i < j < |run.jobs| ==> run.jobs[i].name != run.jobs[j].name
  }

  /** The runs whose failures are correlated at all. */
  predicate Correlated(run: Run) { run.event == "pull_request" && Unambiguous(run) }

  predicate BlocksAt(run: Run, name: string) {
    exists j :: j in run.jobs && j.name == name && Blocks(j.conclusion)
  }

  predicate FailsAt(run: Run, name: string) {
    exists j :: j in run.jobs && j.name == name && j.conclusion == Some("failure")
  }

  /** No other job of the run is both cheaper and blocking. */
  predicate Unblocked(p50: Medians, run: Run, name: string) {
    forall j :: j in run.jobs && j.name != name && Blocks(j.conclusion) ==>
      !Cheaper(OrderKey(p50, run.workflow, j.name), OrderKey(p50, run.workflow, name))
  }

  predicate Credited(p50: Medians, run: Run, name: string) {
    Correlated(run) && FailsAt(run, name) && Unblocked(p50, run, name)
  }

  function CreditsKey(p50: Medians, k: Key): Run -> bool {
    (run: Run) => run.workflow == k.workflow && Credited(p50, run, k.name)
  }

  function Independent(p50: Medians, k: Key, runs: seq<Run>): nat { |Filter(CreditsKey(p50, k), runs)| }

  /** Both jobs failed in one correlated run of the workflow. */
  ghost predicate CoFail(runs: seq<Run>, w: nat, a: string, b: string) {
    a != b && exists run :: run in runs && run.workflow == w && Correlated(run) && FailsAt(run, a) && FailsAt(run, b)
  }

  /** The blocking job that every other blocking job of the run follows in the order. */
  ghost predicate LeastBlocker(p50: Medians, run: Run, name: string) {
    && BlocksAt(run, name)
    && forall other :: BlocksAt(run, other) && other != name ==>
         Cheaper(OrderKey(p50, run.workflow, name), OrderKey(p50, run.workflow, other))
  }

  /** The credited job is the least blocking job, and it failed. */
  lemma CreditGoesToTheLeastBlocker(p50: Medians, run: Run, name: string)
    ensures Credited(p50, run, name) <==> Correlated(run) && FailsAt(run, name) && LeastBlocker(p50, run, name)
  {
    var own := OrderKey(p50, run.workflow, name);
    if FailsAt(run, name) {
      assert BlocksAt(run, name);
      if Unblocked(p50, run, name) {
        forall other | BlocksAt(run, other) && other != name
          ensures Cheaper(own, OrderKey(p50, run.workflow, other))
        {
          CheaperIsTotal(own, OrderKey(p50, run.workflow, other));
        }
      }
      if LeastBlocker(p50, run, name) {
        forall j | j in run.jobs && j.name != name && Blocks(j.conclusion)
          ensures !Cheaper(OrderKey(p50, run.workflow, j.name), own)
        {
          assert BlocksAt(run, j.name);
          CheaperIsTotal(own, OrderKey(p50, run.workflow, j.name));
        }
      }
    }
  }

  lemma OneLeastBlocker(p50: Medians, run: Run, a: string, b: string)
    requires LeastBlocker(p50, run, a) && LeastBlocker(p50, run, b)
    ensures a == b
  {
    CheaperIsTotal(OrderKey(p50, run.workflow, a), OrderKey(p50, run.workflow, b));
  }

  /** A run with a blocking job has a least one. */
  lemma {:induction false} SomeLeastBlocker(p50: Medians, run: Run, n: nat) returns (least: Option<string>)
    requires n <= |run.jobs|
    ensures least.None? <==> forall i :: 0 <= i < n ==> !Blocks(run.jobs[i].conclusion)
    ensures least.Some? ==>
      && BlocksAt(run, least.value)
      && forall i :: 0 <= i < n && Blocks(run.jobs[i].conclusion) && run.jobs[i].name != least.value ==>
           Cheaper(OrderKey(p50, run.workflow, least.value), OrderKey(p50, run.workflow, run.jobs[i].name))
  {
    if n == 0 { return None; }
    least := SomeLeastBlocker(p50, run, n - 1);
    var last := run.jobs[n - 1];
    if Blocks(last.conclusion) {
      assert BlocksAt(run, last.name);
      if least.None? { return Some(last.name); }
      var was, now := OrderKey(p50, run.workflow, least.value), OrderKey(p50, run.workflow, last.name);
      CheaperIsTotal(was, now);
      if Cheaper(now, was) {
        forall i | 0 <= i < n - 1 && Blocks(run.jobs[i].conclusion) && run.jobs[i].name != last.name
          ensures Cheaper(now, OrderKey(p50, run.workflow, run.jobs[i].name))
        {
          if run.jobs[i].name != least.value {
            CheaperTransitive(now, was, OrderKey(p50, run.workflow, run.jobs[i].name));
          }
        }
        least := Some(last.name);
      }
    }
  }

  /** Whether a correlated run gives credit: some job blocks, and the least such job failed rather than hung or was cancelled. */
  ghost predicate GivesCredit(p50: Medians, run: Run) {
    Correlated(run) && exists name: string :: LeastBlocker(p50, run, name) && FailsAt(run, name)
  }

  lemma CreditHasOneOwner(p50: Medians, run: Run, a: Key, b: Key)
    requires CreditsKey(p50, a)(run) && CreditsKey(p50, b)(run)
    ensures a == b
  {
    CreditGoesToTheLeastBlocker(p50, run, a.name);
    CreditGoesToTheLeastBlocker(p50, run, b.name);
    OneLeastBlocker(p50, run, a.name, b.name);
  }

  // --------------------------------------------------------------- conservation

  function TotalCredit(p50: Medians, keys: seq<Key>, runs: seq<Run>): nat {
    if keys == [] then 0 else Independent(p50, keys[0], runs) + TotalCredit(p50, keys[1..], runs)
  }

  ghost function CreditsOneOf(p50: Medians, keys: seq<Key>): Run -> bool {
    (run: Run) => exists k :: k in keys && CreditsKey(p50, k)(run)
  }

  /** Summed over distinct jobs, credit counts each run that credits one of them exactly once. */
  lemma {:induction false} CreditIsConserved(p50: Medians, keys: seq<Key>, runs: seq<Run>)
    requires Distinct(keys)
    ensures TotalCredit(p50, keys, runs) == |Filter(CreditsOneOf(p50, keys), runs)|
  {
    if keys == [] {
      FilterKeepsNone(CreditsOneOf(p50, keys), runs);
    } else {
      var rest := keys[1..];
      CreditIsConserved(p50, rest, runs);
      forall i | 0 <= i < |runs|
        ensures CreditsOneOf(p50, keys)(runs[i]) <==> CreditsKey(p50, keys[0])(runs[i]) || CreditsOneOf(p50, rest)(runs[i])
        ensures !(CreditsKey(p50, keys[0])(runs[i]) && CreditsOneOf(p50, rest)(runs[i]))
      {
        assert forall k :: k in keys <==> k == keys[0] || k in rest;
        if CreditsKey(p50, keys[0])(runs[i]) && CreditsOneOf(p50, rest)(runs[i]) {
          var k :| k in rest && CreditsKey(p50, k)(runs[i]);
          CreditHasOneOwner(p50, runs[i], keys[0], k);
        }
      }
      CountSplits(CreditsKey(p50, keys[0]), CreditsOneOf(p50, rest), CreditsOneOf(p50, keys), runs);
    }
  }
}
