/** What each line of the job table says, counted over the places of the history itself (`src/ci_audit.rs`). */
module CiJobMeaning {
  import opened Collections
  import opened Sorting
  import opened CiJobStats
  import opened CiJobTable
  import Decimal

  // ------------------------------------------------------------------- counts

  function Wanted(name: string, want: Job -> bool): Job -> bool { (job: Job) => job.name == name && want(job) }

  /** How often the job ran in the pull-request runs of its workflow such that `want` holds. */
  function Times(runs: seq<Run>, k: Key, want: Job -> bool): nat {
    if runs == [] then 0
    else
      var run := runs[|runs| - 1];
      Times(runs[..|runs| - 1], k, want)
      + if run.event == "pull_request" && run.workflow == k.workflow then |Filter(Wanted(k.name, want), run.jobs)| else 0
  }

  lemma {:induction false} RowsOfRun(run: Run, k: Key, p: Row -> bool, want: Job -> bool, m: nat)
    requires m <= |run.jobs| && forall row: Row :: p(row) <==> row.key == k && want(row.job)
    ensures |Filter(p, RunRows(run, m))| ==
      if run.event == "pull_request" && run.workflow == k.workflow then |Filter(Wanted(k.name, want), run.jobs[..m])| else 0
  {
    hide Filter;
    if m > 0 && run.event == "pull_request" {
      var job := run.jobs[m - 1];
      var row := Row(Key(run.workflow, job.name), job);
      RowsOfRun(run, k, p, want, m - 1);
      assert RunRows(run, m) == RunRows(run, m - 1) + [row] && run.jobs[..m] == run.jobs[..m - 1] + [job];
      FilterAppend(p, RunRows(run, m - 1), [row]);
      FilterOne(p, row);
      FilterAppend(Wanted(k.name, want), run.jobs[..m - 1], [job]);
      FilterOne(Wanted(k.name, want), job);
    } else {
      FilterKeepsNone(p, RunRows(run, m));
      FilterKeepsNone(Wanted(k.name, want), run.jobs[..0]);
      assert m == 0 ==> run.jobs[..m] == run.jobs[..0];
    }
  }

  /** The rows of a job that are wanted are as many as the times it ran so. */
  lemma {:induction false} RowsAreCounted(runs: seq<Run>, k: Key, p: Row -> bool, want: Job -> bool, n: nat)
    requires n <= |runs| && forall row: Row :: p(row) <==> row.key == k && want(row.job)
    ensures |Filter(p, Rows(runs, n))| == Times(runs[..n], k, want)
  {
    hide Filter, RunRows;
    if n > 0 {
      var run := runs[n - 1];
      RowsAreCounted(runs, k, p, want, n - 1);
      assert runs[..n][..n - 1] == runs[..n - 1];
      FilterAppend(p, Rows(runs, n - 1), RunRows(run, |run.jobs|));
      RowsOfRun(run, k, p, want, |run.jobs|);
      assert run.jobs[..|run.jobs|] == run.jobs;
    } else {
      FilterKeepsNone(p, Rows(runs, 0));
    }
  }

  lemma TimesCounted(runs: seq<Run>, k: Key, p: Row -> bool, want: Job -> bool)
    requires forall row: Row :: p(row) <==> row.key == k && want(row.job)
    ensures |Filter(p, Rows(runs, |runs|))| == Times(runs, k, want)
  {
    RowsAreCounted(runs, k, p, want, |runs|);
    assert runs[..|runs|] == runs;
  }

  // ---------------------------------------------------------------- durations

  /** The job was seen to start and end, `d` whole seconds apart; less than a second in either direction counts as none. */
  predicate Took(job: Job, d: nat) {
    && job.startedAt.Some? && job.completedAt.Some?
    && var t := job.completedAt.value - job.startedAt.value;
       t < (d + 1) * 1_000_000_000 && (if d == 0 then -1_000_000_000 < t else d * 1_000_000_000 <= t)
  }

  lemma ElapsedExactlyWhen(job: Job, d: nat)
    ensures Elapsed(job) == Some(d) <==> Took(job, d)
  {
  }

  predicate Timed(job: Job) {
    job.startedAt.Some? && job.completedAt.Some? && job.completedAt.value - job.startedAt.value > -1_000_000_000
  }

  lemma TimedTook(job: Job)
    ensures Elapsed(job).Some? <==> Timed(job)
  {
  }

  predicate TookSo(job: Job, p: nat -> bool) { Elapsed(job).Some? && p(Elapsed(job).value) }

  lemma {:induction false} DurationsAreCounted(k: Key, rows: seq<Row>, p: nat -> bool)
    ensures |Filter(p, Durations(k, rows))| == |Filter((row: Row) => row.key == k && TookSo(row.job, p), rows)|
  {
    hide Filter;
    var q := (row: Row) => row.key == k && TookSo(row.job, p);
    if rows != [] {
      var front, last := rows[..|rows| - 1], rows[|rows| - 1];
      DurationsAreCounted(k, front, p);
      FilterAgrees((row: Row) => row.key == k && TookSo(row.job, p), q, front);
      FilterAppend(p, Durations(k, front), DurationOf(k, last));
      assert rows == front + [last];
      FilterAppend(q, front, [last]);
      FilterOne(q, last);
      if DurationOf(k, last) != [] { FilterOne(p, DurationOf(k, last)[0]); } else { FilterKeepsNone(p, []); }
    } else {
      FilterKeepsNone(p, []);
      FilterKeepsNone(q, []);
    }
    FilterAgrees((row: Row) => row.key == k && TookSo(row.job, p), q, rows);
  }

  /** Durations of the job that satisfy `p`, as runs of the job. */
  lemma DurationTimes(runs: seq<Run>, k: Key, p: nat -> bool, want: Job -> bool)
    requires forall job: Job :: want(job) <==> TookSo(job, p)
    ensures |Filter(p, Durations(k, Rows(runs, |runs|)))| == Times(runs, k, want)
  {
    var q := (row: Row) => row.key == k && TookSo(row.job, p);
    DurationsAreCounted(k, Rows(runs, |runs|), p);
    TimesCounted(runs, k, q, want);
    FilterAgrees((row: Row) => row.key == k && TookSo(row.job, p), q, Rows(runs, |runs|));
  }

  function AnyWay(): Job -> bool { (job: Job) => true }
  function Ended(conclusion: string): Job -> bool { (job: Job) => job.conclusion == Some(conclusion) }
  function LeftOpen(): Job -> bool {
    (job: Job) => job.conclusion == Some("cancelled") && job.startedAt != None && job.completedAt == None
  }
  function IsTimed(): Job -> bool { (job: Job) => Timed(job) }
  function TookJust(q: nat): Job -> bool { (job: Job) => Took(job, q) }
  function TookUpTo(q: nat): Job -> bool { (job: Job) => Timed(job) && job.completedAt.value - job.startedAt.value < (q + 1) * 1_000_000_000 }
  function TookLess(q: nat): Job -> bool {
    (job: Job) => Timed(job) && q > 0 && job.completedAt.value - job.startedAt.value < q * 1_000_000_000
  }

  /** `q` is the percentile: a duration the job had, which at least that part of its durations do not exceed, and fewer lie
      below. */
  predicate IsPercentile(runs: seq<Run>, k: Key, pct: nat, q: nat) {
    && Times(runs, k, TookJust(q)) > 0
    && 100 * Times(runs, k, TookUpTo(q)) >= pct * Times(runs, k, IsTimed()) > 100 * Times(runs, k, TookLess(q))
  }

  lemma ComparedSeconds(job: Job, q: nat)
    ensures TookSo(job, UpTo(q)) <==> TookUpTo(q)(job)
    ensures TookSo(job, Under(q)) <==> TookLess(q)(job)
    ensures TookSo(job, (d: nat) => d == q) <==> TookJust(q)(job)
    ensures TookSo(job, (d: nat) => true) <==> IsTimed()(job)
  {
    TimedTook(job);
    if Elapsed(job).Some? { ElapsedExactlyWhen(job, Elapsed(job).value); }
  }

  lemma DurationTotals(runs: seq<Run>, k: Key, q: nat)
    ensures var durations := Durations(k, Rows(runs, |runs|));
      && Through(durations, q) == Times(runs, k, TookUpTo(q)) && Below(durations, q) == Times(runs, k, TookLess(q))
      && |durations| == Times(runs, k, IsTimed()) && (q in durations <==> Times(runs, k, TookJust(q)) > 0)
  {
    hide Took, Timed, Elapsed, Durations, Rows, Times;
    var durations := Durations(k, Rows(runs, |runs|));
    forall job: Job
      ensures TookSo(job, UpTo(q)) <==> TookUpTo(q)(job)
      ensures TookSo(job, Under(q)) <==> TookLess(q)(job)
      ensures TookSo(job, (d: nat) => d == q) <==> TookJust(q)(job)
      ensures TookSo(job, (d: nat) => true) <==> IsTimed()(job)
    {
      ComparedSeconds(job, q);
    }
    DurationTimes(runs, k, UpTo(q), TookUpTo(q));
    DurationTimes(runs, k, Under(q), TookLess(q));
    var just, any := (d: nat) => d == q, (d: nat) => true;
    assert forall job: Job :: TookSo(job, just) <==> TookSo(job, (d: nat) => d == q);
    assert forall job: Job :: TookSo(job, any) <==> TookSo(job, (d: nat) => true);
    DurationTimes(runs, k, just, TookJust(q));
    DurationTimes(runs, k, any, IsTimed());
    FilterKeepsAll(any, durations);
    if Filter(just, durations) != [] { assert Filter(just, durations)[0] in Filter(just, durations); }
  }

  lemma PercentileExactlyWhen(runs: seq<Run>, k: Key, pct: nat, q: nat)
    requires 1 <= pct <= 100
    ensures Percentile(SortedDurations(Durations(k, Rows(runs, |runs|))), pct) == Some(q) <==> IsPercentile(runs, k, pct, q)
  {
    PercentileMeans(Durations(k, Rows(runs, |runs|)), pct, q);
    DurationTotals(runs, k, q);
  }

  // --------------------------------------------------------------- cost order

  /** The median, or the greatest number for a job that was never timed. */
  predicate Cost(runs: seq<Run>, k: Key, cost: nat) {
    if Times(runs, k, IsTimed()) == 0 then cost == 0xFFFF_FFFF_FFFF_FFFF else IsPercentile(runs, k, 50, cost)
  }

  /** Job `a` of the workflow costs less than job `b`; of two that cost the same the one that sorts first. */
  ghost predicate CostsLess(runs: seq<Run>, w: nat, a: string, b: string) {
    exists x: nat, y: nat :: Cost(runs, Key(w, a), x) && Cost(runs, Key(w, b), y) && (x < y || (x == y && Less(a, b)))
  }

  lemma CostIsOrderKey(runs: seq<Run>, k: Key, cost: nat)
    ensures Cost(runs, k, cost) <==> OrderKey(MediansOf(Rows(runs, |runs|)), k.workflow, k.name) == Order(cost, k.name)
  {
    hide Percentile, SortedDurations, Durations, Rows, Times, IsPercentile;
    var rows := Rows(runs, |runs|);
    DurationTotals(runs, k, cost);
    PercentileExactlyWhen(runs, k, 50, cost);
    DurationsNeedARow(k, rows);
    if Durations(k, rows) != [] { HasPercentile(SortedDurations(Durations(k, rows)), Durations(k, rows)); }
  }

  lemma HasPercentile(sorted: seq<nat>, durations: seq<nat>)
    requires sorted == SortedDurations(durations) && durations != []
    ensures Percentile(sorted, 50).Some?
  {
    SortMeans(AtMost, durations);
  }

  lemma CheaperExactlyWhen(runs: seq<Run>, w: nat, a: string, b: string)
    ensures var p50 := MediansOf(Rows(runs, |runs|)); Cheaper(OrderKey(p50, w, a), OrderKey(p50, w, b)) <==> CostsLess(runs, w, a, b)
  {
    hide Cost, MediansOf, OrderKey;
    var p50 := MediansOf(Rows(runs, |runs|));
    forall x: nat ensures Cost(runs, Key(w, a), x) <==> OrderKey(p50, w, a) == Order(x, a) { CostIsOrderKey(runs, Key(w, a), x); }
    forall y: nat ensures Cost(runs, Key(w, b), y) <==> OrderKey(p50, w, b) == Order(y, b) { CostIsOrderKey(runs, Key(w, b), y); }
    NamedOrder(p50, w, a);
    NamedOrder(p50, w, b);
  }

  lemma NamedOrder(p50: Medians, w: nat, name: string)
    ensures OrderKey(p50, w, name) == Order(OrderKey(p50, w, name).median, name)
  {
  }

  // -------------------------------------------------------------- correlation

  /** A pull-request run of the workflow. */
  predicate Pulled(runs: seq<Run>, w: nat, i: int) { 0 <= i < |runs| && runs[i].event == "pull_request" && runs[i].workflow == w }

  predicate NamesDiffer(run: Run) { forall a, b :: 0 <= a < b < |run.jobs| ==> run.jobs[a].name != run.jobs[b].name }

  predicate FailedIn(run: Run, name: string) {
    exists j :: 0 <= j < |run.jobs| && run.jobs[j].name == name && run.jobs[j].conclusion == Some("failure")
  }

  /** The run's failure at `name` decided it: no job that costs less ended otherwise than well. */
  ghost predicate Decided(runs: seq<Run>, k: Key, i: int) {
    && Pulled(runs, k.workflow, i) && NamesDiffer(runs[i]) && FailedIn(runs[i], k.name)
    && forall j :: 0 <= j < |runs[i].jobs| && runs[i].jobs[j].name != k.name && CostsLess(runs, k.workflow, runs[i].jobs[j].name, k.name) ==>
         runs[i].jobs[j].conclusion in {Some("success"), Some("skipped"), Some("neutral")}
  }

  lemma CreditedExactlyWhenDecided(runs: seq<Run>, k: Key, i: nat)
    requires i < |runs|
    ensures CreditsKey(MediansOf(Rows(runs, |runs|)), k)(runs[i]) <==> Decided(runs, k, i)
  {
    hide OrderKey, Cheaper, CostsLess, MediansOf;
    var p50, run := MediansOf(Rows(runs, |runs|)), runs[i];
    forall j | 0 <= j < |run.jobs|
      ensures Cheaper(OrderKey(p50, k.workflow, run.jobs[j].name), OrderKey(p50, k.workflow, k.name))
         <==> CostsLess(runs, k.workflow, run.jobs[j].name, k.name)
      ensures Blocks(run.jobs[j].conclusion) <==> run.jobs[j].conclusion !in {Some("success"), Some("skipped"), Some("neutral")}
    {
      CheaperExactlyWhen(runs, k.workflow, run.jobs[j].name, k.name);
    }
    assert FailsAt(run, k.name) <==> FailedIn(run, k.name);
    assert Unambiguous(run) <==> NamesDiffer(run);
  }

  /** The places of the runs at which `p` holds. */
  function Where(p: Run -> bool, runs: seq<Run>, n: nat): set<int>
    requires n <= |runs|
  {
    set i | 0 <= i < n && p(runs[i])
  }

  lemma {:induction false} RunsAreCounted(p: Run -> bool, runs: seq<Run>, n: nat)
    requires n <= |runs|
    ensures |Filter(p, runs[..n])| == |Where(p, runs, n)|
  {
    hide Filter;
    if n > 0 {
      RunsAreCounted(p, runs, n - 1);
      assert runs[..n] == runs[..n - 1] + [runs[n - 1]];
      FilterAppend(p, runs[..n - 1], [runs[n - 1]]);
      FilterOne(p, runs[n - 1]);
      OneMorePlace(p, runs, n);
    } else {
      FilterKeepsNone(p, runs[..0]);
      assert Where(p, runs, 0) == {};
    }
  }

  lemma OneMorePlace(p: Run -> bool, runs: seq<Run>, n: nat)
    requires 0 < n <= |runs|
    ensures |Where(p, runs, n)| == |Where(p, runs, n - 1)| + if p(runs[n - 1]) then 1 else 0
  {
    var before := Where(p, runs, n - 1);
    assert n - 1 !in before;
    if p(runs[n - 1]) { assert Where(p, runs, n) == before + {n - 1}; } else { assert Where(p, runs, n) == before; }
  }

  // ------------------------------------------------------------------ the line

  /** The last workflow listed under the id. */
  predicate LastUnder(workflows: seq<Workflow>, id: nat, n: int) {
    0 <= n < |workflows| && workflows[n].id == id && forall m :: n < m < |workflows| ==> workflows[m].id != id
  }

  /** Path and name are those of the last workflow under the id; one without a path gets a made-up one. */
  ghost predicate Titled(s: JobStats, workflows: seq<Workflow>, id: nat) {
    var unknown := "unknown-workflow-" + Decimal.Digits(id);
    if exists w :: w in workflows && w.id == id then
      exists n :: LastUnder(workflows, id, n) && s.workflowName == workflows[n].name
        && s.workflowPath == (if workflows[n].path == "" then unknown else workflows[n].path)
    else s.workflowName == "" && s.workflowPath == unknown
  }

  lemma {:induction false} MetaIsLast(workflows: seq<Workflow>, id: nat) returns (n: int)
    ensures if exists w :: w in workflows && w.id == id
            then LastUnder(workflows, id, n) && Meta(workflows, id) == (workflows[n].path, workflows[n].name)
            else Meta(workflows, id) == ("", "")
  {
    n := |workflows| - 1;
    if workflows != [] && workflows[n].id != id {
      var front := workflows[..n];
      assert workflows == front + [workflows[n]];
      n := MetaIsLast(front, id);
    }
  }

  /** How often the job ran, failed, was cancelled, and was cancelled without an end. */
  predicate Counted(s: JobStats, runs: seq<Run>, k: Key) {
    && s.runs == Times(runs, k, AnyWay()) && s.failures == Times(runs, k, Ended("failure"))
    && s.cancellations == Times(runs, k, Ended("cancelled")) && s.cancelledOpen == Times(runs, k, LeftOpen())
    && s.missing == s.runs - Times(runs, k, IsTimed())
  }

  /** Whole seconds that the job took, none when it was not timed. */
  function Spent(job: Job): nat {
    if Timed(job) && job.completedAt.value >= job.startedAt.value then (job.completedAt.value - job.startedAt.value) / 1_000_000_000 else 0
  }

  function SpentUnder(name: string, jobs: seq<Job>): nat {
    if jobs == [] then 0
    else SpentUnder(name, jobs[..|jobs| - 1]) + if jobs[|jobs| - 1].name == name then Spent(jobs[|jobs| - 1]) else 0
  }

  /** What the job took in all pull-request runs of its workflow. */
  function Sum(runs: seq<Run>, k: Key): nat {
    if runs == [] then 0
    else
      var run := runs[|runs| - 1];
      Sum(runs[..|runs| - 1], k) + if run.event == "pull_request" && run.workflow == k.workflow then SpentUnder(k.name, run.jobs) else 0
  }

  lemma {:induction false} TotalAppend(a: seq<nat>, b: seq<nat>)
    ensures Total(a + b) == Total(a) + Total(b)
  {
    if a == [] {
      assert a + b == b;
    } else {
      assert (a + b)[1..] == a[1..] + b;
      TotalAppend(a[1..], b);
    }
  }

  lemma TotalOfOne(k: Key, row: Row)
    ensures Total(DurationOf(k, row)) == if row.key == k then Spent(row.job) else 0
  {
    if Elapsed(row.job).Some? {
      assert Total([Elapsed(row.job).value]) == Elapsed(row.job).value + Total([]);
    }
  }

  lemma {:induction false} DurationsAppend(k: Key, a: seq<Row>, b: seq<Row>)
    ensures Durations(k, a + b) == Durations(k, a) + Durations(k, b)
  {
    if b == [] {
      assert a + b == a;
    } else {
      assert (a + b)[..|a + b| - 1] == a + b[..|b| - 1];
      DurationsAppend(k, a, b[..|b| - 1]);
    }
  }

  lemma {:induction false} RunTotal(run: Run, k: Key, m: nat)
    requires m <= |run.jobs|
    ensures Total(Durations(k, RunRows(run, m))) ==
      if run.event == "pull_request" && run.workflow == k.workflow then SpentUnder(k.name, run.jobs[..m]) else 0
  {
    hide DurationOf, Spent;
    if m > 0 && run.event == "pull_request" {
      var job := run.jobs[m - 1];
      var row := Row(Key(run.workflow, job.name), job);
      RunTotal(run, k, m - 1);
      assert RunRows(run, m) == RunRows(run, m - 1) + [row] && run.jobs[..m][..m - 1] == run.jobs[..m - 1];
      DurationsOfOneMore(k, RunRows(run, m - 1), row);
      TotalAppend(Durations(k, RunRows(run, m - 1)), DurationOf(k, row));
      TotalOfOne(k, row);
    }
  }

  lemma {:induction false} HistoryTotal(runs: seq<Run>, k: Key, n: nat)
    requires n <= |runs|
    ensures Total(Durations(k, Rows(runs, n))) == Sum(runs[..n], k)
  {
    hide Durations, RunRows, SpentUnder;
    if n > 0 {
      var run := runs[n - 1];
      HistoryTotal(runs, k, n - 1);
      RunTotal(run, k, |run.jobs|);
      DurationsAppend(k, Rows(runs, n - 1), RunRows(run, |run.jobs|));
      TotalAppend(Durations(k, Rows(runs, n - 1)), Durations(k, RunRows(run, |run.jobs|)));
      assert runs[..n][..n - 1] == runs[..n - 1] && run.jobs[..|run.jobs|] == run.jobs;
    } else {
      NoDurations(k);
    }
  }

  lemma NoDurations(k: Key)
    ensures Durations(k, []) == [] && Total([]) == 0
  {
  }

  /** The percentiles of the durations, where there are any, and their sum. */
  ghost predicate TimesSaid(s: JobStats, runs: seq<Run>, k: Key) {
    && (forall q: nat :: s.p50 == Some(q) <==> IsPercentile(runs, k, 50, q))
    && (forall q: nat :: s.p90 == Some(q) <==> IsPercentile(runs, k, 90, q))
    && (forall q: nat :: s.p99 == Some(q) <==> IsPercentile(runs, k, 99, q))
    && s.total == Sum(runs, k)
  }

  /** One unambiguous pull-request run in which both failed. */
  ghost predicate FailTogether(runs: seq<Run>, k: Key, other: string) {
    exists i :: Pulled(runs, k.workflow, i) && NamesDiffer(runs[i]) && FailedIn(runs[i], k.name) && FailedIn(runs[i], other)
  }

  ghost predicate Repassed(runs: seq<Run>, w: nat, i: int) {
    Pulled(runs, w, i) && runs[i].attempt > 1 && runs[i].conclusion == Some("success")
  }

  /** The runs the job decided, what it failed together with, what costs less, and what was rerun and passed. */
  ghost predicate Compared(s: JobStats, runs: seq<Run>, k: Key) {
    && s.independent == |set i | 0 <= i < |runs| && Decided(runs, k, i)|
    && (forall other :: other in s.coFailing <==> other != k.name && FailTogether(runs, k, other))
    && (forall other :: other in s.cheaper <==>
          other != k.name && Times(runs, Key(k.workflow, other), AnyWay()) > 0 && CostsLess(runs, k.workflow, other, k.name))
    && (forall a, b :: 0 <= a < b < |s.cheaper| ==> Less(s.cheaper[a], s.cheaper[b]))
    && (s.ambiguous <==> exists i :: Pulled(runs, k.workflow, i) && !NamesDiffer(runs[i]))
    && s.rerunThenPass == |set i | 0 <= i < |runs| && Repassed(runs, k.workflow, i)|
  }

  ghost predicate Says(s: JobStats, workflows: seq<Workflow>, runs: seq<Run>, k: Key) {
    s.job == k.name && Titled(s, workflows, k.workflow) && Counted(s, runs, k) && TimesSaid(s, runs, k) && Compared(s, runs, k)
  }

  lemma CountsSaid(s: JobStats, workflows: seq<Workflow>, runs: seq<Run>, keys: seq<Key>, k: Key)
    requires Reports(s, k, workflows, runs, keys)
    ensures Counted(s, runs, k) && Titled(s, workflows, k.workflow)
  {
    hide Times, Durations, Filter, Percentile, CheaperNames, Independent, MediansOf, Took;
    TimesCounted(runs, k, Keyed(k), AnyWay());
    TimesCounted(runs, k, Failed(k), Ended("failure"));
    TimesCounted(runs, k, Cancelled(k), Ended("cancelled"));
    TimesCounted(runs, k, Hung(k), LeftOpen());
    DurationTotals(runs, k, 0);
    SortMeans(AtMost, Durations(k, Rows(runs, |runs|)));
    var n := MetaIsLast(workflows, k.workflow);
  }

  lemma {:induction false} TotalOfInsert(x: nat, s: seq<nat>)
    ensures Total(Insert(AtMost, x, s)) == x + Total(s)
  {
    if s != [] && !AtMost(x, s[0]) { TotalOfInsert(x, s[1..]); }
  }

  /** Sorting leaves the sum as it is. */
  lemma {:induction false} TotalOfSorted(s: seq<nat>)
    ensures Total(Sort(AtMost, s)) == Total(s)
  {
    if s != [] {
      TotalOfSorted(s[1..]);
      TotalOfInsert(s[0], Sort(AtMost, s[1..]));
    }
  }

  lemma DurationsSaid(s: JobStats, workflows: seq<Workflow>, runs: seq<Run>, keys: seq<Key>, k: Key)
    requires Reports(s, k, workflows, runs, keys)
    ensures TimesSaid(s, runs, k)
  {
    hide Percentile, IsPercentile, Durations, Rows, CheaperNames, Independent, MediansOf, Filter;
    TotalOfSorted(Durations(k, Rows(runs, |runs|)));
    HistoryTotal(runs, k, |runs|);
    assert runs[..|runs|] == runs;
    forall q: nat
      ensures s.p50 == Some(q) <==> IsPercentile(runs, k, 50, q)
      ensures s.p90 == Some(q) <==> IsPercentile(runs, k, 90, q)
      ensures s.p99 == Some(q) <==> IsPercentile(runs, k, 99, q)
    {
      PercentileExactlyWhen(runs, k, 50, q);
      PercentileExactlyWhen(runs, k, 90, q);
      PercentileExactlyWhen(runs, k, 99, q);
    }
  }

  lemma CreditSaid(runs: seq<Run>, k: Key)
    ensures Independent(MediansOf(Rows(runs, |runs|)), k, runs) == |set i | 0 <= i < |runs| && Decided(runs, k, i)|
  {
    hide Decided, CreditsKey, MediansOf, Filter;
    var p := CreditsKey(MediansOf(Rows(runs, |runs|)), k);
    RunsAreCounted(p, runs, |runs|);
    assert runs[..|runs|] == runs;
    forall i | 0 <= i < |runs| ensures p(runs[i]) <==> Decided(runs, k, i) { CreditedExactlyWhenDecided(runs, k, i); }
    assert Where(p, runs, |runs|) == set i | 0 <= i < |runs| && Decided(runs, k, i);
  }

  lemma RerunsSaid(runs: seq<Run>, w: nat)
    ensures |Filter(RerunPassed(w), runs)| == |set i | 0 <= i < |runs| && Repassed(runs, w, i)|
  {
    hide Filter;
    RunsAreCounted(RerunPassed(w), runs, |runs|);
    assert runs[..|runs|] == runs;
    assert Where(RerunPassed(w), runs, |runs|) == set i | 0 <= i < |runs| && Repassed(runs, w, i);
  }

  lemma CompanySaid(runs: seq<Run>, k: Key)
    ensures AmbiguousIn(runs, k.workflow) <==> exists i :: Pulled(runs, k.workflow, i) && !NamesDiffer(runs[i])
    ensures forall other :: CoFail(runs, k.workflow, k.name, other) <==> other != k.name && FailTogether(runs, k, other)
  {
    hide NamesDiffer, FailedIn, FailsAt, Unambiguous;
    forall i, name | 0 <= i < |runs| ensures FailsAt(runs[i], name) <==> FailedIn(runs[i], name) { SameFailure(runs[i], name); }
    forall i | 0 <= i < |runs| ensures Unambiguous(runs[i]) <==> NamesDiffer(runs[i]) { SameFailure(runs[i], ""); }
    if AmbiguousIn(runs, k.workflow) {
      var i :| 0 <= i < |runs| && runs[i].event == "pull_request" && runs[i].workflow == k.workflow && !Unambiguous(runs[i]);
      assert Pulled(runs, k.workflow, i) && !NamesDiffer(runs[i]);
    }
    forall other | CoFail(runs, k.workflow, k.name, other) ensures FailTogether(runs, k, other) {
      var i :| 0 <= i < |runs| && runs[i].workflow == k.workflow && CiJobStats.Correlated(runs[i]) && FailsAt(runs[i], k.name) && FailsAt(runs[i], other);
      assert Pulled(runs, k.workflow, i) && NamesDiffer(runs[i]) && FailedIn(runs[i], k.name) && FailedIn(runs[i], other);
    }
  }

  lemma SameFailure(run: Run, name: string)
    ensures FailsAt(run, name) <==> FailedIn(run, name)
    ensures Unambiguous(run) <==> NamesDiffer(run)
  {
  }

  /** The names from the keys of the workflow that cost less, in order. */
  lemma {:induction false} CheaperAreListed(p50: Medians, keys: seq<Key>, k: Key)
    requires Ascending(KeyLe, keys) && Distinct(keys)
    ensures var names := CheaperNames(p50, keys, k);
      && (forall other :: other in names <==>
            other != k.name && Key(k.workflow, other) in keys && Cheaper(OrderKey(p50, k.workflow, other), OrderKey(p50, k.workflow, k.name)))
      && forall a, b :: 0 <= a < b < |names| ==> Less(names[a], names[b])
  {
    hide Cheaper, OrderKey, Less;
    if keys != [] {
      var rest := keys[1..];
      assert keys == [keys[0]] + rest;
      CheaperAreListed(p50, rest, k);
      var names := CheaperNames(p50, rest, k);
      if keys[0].workflow == k.workflow {
        forall b | 0 <= b < |names| ensures Less(keys[0].name, names[b]) {
          assert names[b] in names;
          var m :| 0 <= m < |rest| && rest[m] == Key(k.workflow, names[b]);
          assert KeyLe(keys[0], keys[m + 1]) && keys[0] != keys[m + 1];
          Trichotomy(keys[0].name, names[b]);
        }
      }
    }
  }

  lemma CheaperSaid(runs: seq<Run>, keys: seq<Key>, k: Key)
    requires Ascending(KeyLe, keys) && Distinct(keys) && forall key :: key in keys <==> key in KeysIn(Rows(runs, |runs|))
    ensures var names := CheaperNames(MediansOf(Rows(runs, |runs|)), keys, k);
      && (forall other :: other in names <==>
            other != k.name && Times(runs, Key(k.workflow, other), AnyWay()) > 0 && CostsLess(runs, k.workflow, other, k.name))
      && forall a, b :: 0 <= a < b < |names| ==> Less(names[a], names[b])
  {
    hide MediansOf, Cheaper, OrderKey, CostsLess, Times, CheaperNames, Less, Rows;
    var p50 := MediansOf(Rows(runs, |runs|));
    CheaperAreListed(p50, keys, k);
    forall other: string
      ensures Cheaper(OrderKey(p50, k.workflow, other), OrderKey(p50, k.workflow, k.name)) <==> CostsLess(runs, k.workflow, other, k.name)
      ensures Key(k.workflow, other) in keys <==> Times(runs, Key(k.workflow, other), AnyWay()) > 0
    {
      CheaperExactlyWhen(runs, k.workflow, other, k.name);
      RanExactlyWhenKeyed(runs, Key(k.workflow, other));
    }
  }

  lemma RanExactlyWhenKeyed(runs: seq<Run>, k: Key)
    ensures k in KeysIn(Rows(runs, |runs|)) <==> Times(runs, k, AnyWay()) > 0
  {
    hide Rows, Times;
    var rows := Rows(runs, |runs|);
    TimesCounted(runs, k, Keyed(k), AnyWay());
    var mine := Filter(Keyed(k), rows);
    if mine != [] { assert mine[0] in mine; }
    if k in KeysIn(rows) {
      var r :| r in rows && r.key == k;
      assert Keyed(k)(r) && r in mine;
    }
  }

  lemma CorrelationSaid(s: JobStats, workflows: seq<Workflow>, runs: seq<Run>, keys: seq<Key>, k: Key)
    requires Reports(s, k, workflows, runs, keys)
    requires Ascending(KeyLe, keys) && Distinct(keys) && forall key :: key in keys <==> key in KeysIn(Rows(runs, |runs|))
    ensures Compared(s, runs, k)
  {
    hide Decided, Repassed, Independent, MediansOf, Filter, CheaperNames, CoFail, AmbiguousIn, Times, CostsLess, NamesDiffer, FailedIn,
      Percentile, Durations, Rows, KeyLe, KeysIn, Less;
    CreditSaid(runs, k);
    RerunsSaid(runs, k.workflow);
    CompanySaid(runs, k);
    CheaperSaid(runs, keys, k);
  }

  /** The table has one line for each job that ran in a pull request, in the order of path and job, and each line says what
      the history says of its job. */
  lemma TableSaysTheHistory(stats: seq<JobStats>, workflows: seq<Workflow>, runs: seq<Run>) returns (keys: seq<Key>)
    requires IsTable(stats, workflows, runs)
    ensures Distinct(keys) && |keys| == |stats| && forall k :: k in keys <==> Times(runs, k, AnyWay()) > 0
    ensures forall s :: s in stats ==> exists k :: k in keys && Says(s, workflows, runs, k)
    ensures forall k :: k in keys ==> exists s :: s in stats && Says(s, workflows, runs, k)
    ensures forall a, b :: 0 <= a < b < |stats| ==>
      Less(stats[a].workflowPath, stats[b].workflowPath) || (stats[a].workflowPath == stats[b].workflowPath && !Less(stats[b].job, stats[a].job))
  {
    hide Reports, Says, Times, Rows, KeysIn, Sort, Less;
    var lines;
    lines, keys :| LinesOf(lines, keys, workflows, runs) && stats == Sort(LineLe, lines);
    OrdersAreTotal();
    SortMeans(LineLe, lines);
    forall k ensures k in keys <==> Times(runs, k, AnyWay()) > 0 { RanExactlyWhenKeyed(runs, k); }
    forall i | 0 <= i < |keys| ensures Says(lines[i], workflows, runs, keys[i]) { LineSays(lines[i], workflows, runs, keys, keys[i]); }
    forall s | s in stats ensures exists k :: k in keys && Says(s, workflows, runs, k) {
      var i :| 0 <= i < |lines| && lines[i] == s;
      assert keys[i] in keys;
    }
    forall k | k in keys ensures exists s :: s in stats && Says(s, workflows, runs, k) {
      var i :| 0 <= i < |keys| && keys[i] == k;
      assert lines[i] in lines;
    }
    assert forall a, b :: 0 <= a < b < |stats| ==> LineLe(stats[a], stats[b]);
  }

  lemma LineSays(s: JobStats, workflows: seq<Workflow>, runs: seq<Run>, keys: seq<Key>, k: Key)
    requires Reports(s, k, workflows, runs, keys)
    requires Ascending(KeyLe, keys) && Distinct(keys) && forall key :: key in keys <==> key in KeysIn(Rows(runs, |runs|))
    ensures Says(s, workflows, runs, k)
  {
    hide Titled, Counted, TimesSaid, Compared, Rows, KeysIn, KeyLe, Distinct;
    JobNamed(s, workflows, runs, keys, k);
    CountsSaid(s, workflows, runs, keys, k);
    DurationsSaid(s, workflows, runs, keys, k);
    CorrelationSaid(s, workflows, runs, keys, k);
  }

  lemma JobNamed(s: JobStats, workflows: seq<Workflow>, runs: seq<Run>, keys: seq<Key>, k: Key)
    requires Reports(s, k, workflows, runs, keys)
    ensures s.job == k.name
  {
  }
}
