/** The passes of the CI job statistics that correlate failures and fill the table (`src/ci_audit.rs`). */
module CiJobTable {
  import opened Collections
  import opened Sorting
  import opened CiJobStats
  import Decimal

  // ---------------------------------------------------------- the second pass

  datatype Correlation = Correlation(
    independent: map<Key, nat>, coFailing: map<Key, set<string>>, rerun: map<nat, nat>, ambiguous: set<nat>)

  function RerunPassed(w: nat): Run -> bool {
    (run: Run) => run.event == "pull_request" && run.workflow == w && run.attempt > 1 && run.conclusion == Some("success")
  }

  function Reruns(rerun: map<nat, nat>, w: nat): nat { if w in rerun then rerun[w] else 0 }

  function CoSet(co: map<Key, set<string>>, k: Key): set<string> { if k in co then co[k] else {} }

  ghost predicate CountsCredit(m: map<Key, nat>, p50: Medians, runs: seq<Run>) {
    forall k: Key :: Get(m, k) == Independent(p50, k, runs)
  }

  ghost predicate CountsReruns(m: map<nat, nat>, runs: seq<Run>) {
    forall w: nat :: Reruns(m, w) == |Filter(RerunPassed(w), runs)|
  }

  ghost predicate HoldsCoFailures(co: map<Key, set<string>>, runs: seq<Run>) {
    forall k: Key, other: string :: other in CoSet(co, k) <==> CoFail(runs, k.workflow, k.name, other)
  }

  ghost predicate AmbiguousIn(runs: seq<Run>, w: nat) {
    exists run :: run in runs && run.event == "pull_request" && run.workflow == w && !Unambiguous(run)
  }

  ghost predicate Correlates(c: Correlation, p50: Medians, runs: seq<Run>) {
    && CountsCredit(c.independent, p50, runs)
    && HoldsCoFailures(c.coFailing, runs)
    && CountsReruns(c.rerun, runs)
    && forall w: nat :: w in c.ambiguous <==> AmbiguousIn(runs, w)
  }

  /** Compares the number of distinct names with the number of jobs. */
  method HasDistinctNames(run: Run) returns (distinct: bool)
    ensures distinct == Unambiguous(run)
  {
    var names: set<string> := {};
    for i := 0 to |run.jobs|
      invariant |names| <= i
      invariant forall n: string :: n in names <==> exists j :: 0 <= j < i && run.jobs[j].name == n
      invariant |names| == i <==> forall a, b :: 0 <= a < b < i ==> run.jobs[a].name != run.jobs[b].name
    {
      names := names + {run.jobs[i].name};
    }
    distinct := |names| == |run.jobs|;
  }

  ghost predicate Describes(m: map<string, Option<string>>, run: Run) {
    && (forall n: string :: n in m <==> exists j :: j in run.jobs && j.name == n)
    && (forall j :: j in run.jobs ==> j.name in m && m[j.name] == j.conclusion)
  }

  /** `conclusion_by_name`. */
  method ConclusionByName(run: Run) returns (m: map<string, Option<string>>)
    requires Unambiguous(run)
    ensures Describes(m, run)
  {
    m := map[];
    for i := 0 to |run.jobs|
      invariant forall n: string :: n in m <==> exists j :: 0 <= j < i && run.jobs[j].name == n
      invariant forall j :: 0 <= j < i ==> run.jobs[j].name in m && m[run.jobs[j].name] == run.jobs[j].conclusion
    {
      m := m[run.jobs[i].name := run.jobs[i].conclusion];
    }
    forall n: string ensures n in m <==> exists j :: j in run.jobs && j.name == n {
      if n in m { var i :| 0 <= i < |run.jobs| && run.jobs[i].name == n; assert run.jobs[i] in run.jobs; }
    }
  }

  /** A failed job against the run's other jobs. */
  method JudgeFailure(p50: Medians, run: Run, m: map<string, Option<string>>, name: string)
    returns (blocked: bool, others: set<string>)
    requires Correlated(run) && Describes(m, run) && name in m && m[name] == Some("failure")
    ensures blocked == !Credited(p50, run, name)
    ensures forall other: string :: other in others <==> CoFail([run], run.workflow, name, other)
  {
    hide OrderKey, Cheaper, Blocks;
    var own := OrderKey(p50, run.workflow, name);
    blocked := exists other :: other in m.Keys && other != name && Cheaper(OrderKey(p50, run.workflow, other), own) && Blocks(m[other]);
    others := set other | other in m.Keys && other != name && m[other] == Some("failure");
    assert run in [run];
  }

  /** Runs that did not fail at `name` neither credit nor pair it. */
  lemma NoFailure(p50: Medians, run: Run, name: string)
    requires !FailsAt(run, name)
    ensures !Credited(p50, run, name) && forall other: string :: !CoFail([run], run.workflow, name, other)
  {
  }

  ghost predicate CreditAdded(now: map<Key, nat>, was: map<Key, nat>, p50: Medians, run: Run, pending: set<string>) {
    forall k: Key :: Get(now, k) ==
      (Get(was, k) + (if k.workflow == run.workflow && k.name !in pending && Credited(p50, run, k.name) then 1 else 0))
  }

  ghost predicate PairsAdded(now: map<Key, set<string>>, was: map<Key, set<string>>, run: Run, pending: set<string>) {
    forall k: Key, other: string :: other in CoSet(now, k) <==>
      (other in CoSet(was, k) ||
       (k.workflow == run.workflow && k.name !in pending && CoFail([run], run.workflow, k.name, other)))
  }

  lemma CreditStep(now: map<Key, nat>, was: map<Key, nat>, p50: Medians, run: Run, pending: set<string>, name: string)
    requires CreditAdded(now, was, p50, run, pending) && name in pending
    ensures var next := if Credited(p50, run, name) then Bump(now, Key(run.workflow, name)) else now;
      CreditAdded(next, was, p50, run, pending - {name})
  {
    hide Credited;
  }

  lemma PairsStep(now: map<Key, set<string>>, was: map<Key, set<string>>, run: Run, pending: set<string>, name: string, others: set<string>)
    requires PairsAdded(now, was, run, pending) && name in pending
    requires forall other: string :: other in others <==> CoFail([run], run.workflow, name, other)
    ensures var key := Key(run.workflow, name);
      PairsAdded(now[key := CoSet(now, key) + others], was, run, pending - {name})
    ensures others == {} ==> PairsAdded(now, was, run, pending - {name})
  {
    hide CoFail;
  }

  lemma NothingAdded(credit: map<Key, nat>, pairs: map<Key, set<string>>, p50: Medians, run: Run, m: map<string, Option<string>>)
    requires Describes(m, run)
    ensures CreditAdded(credit, credit, p50, run, m.Keys) && PairsAdded(pairs, pairs, run, m.Keys)
  {
    hide Credited, CoFail;
    forall name: string | name !in m
      ensures !Credited(p50, run, name) && forall other: string :: !CoFail([run], run.workflow, name, other)
    {
      assert !FailsAt(run, name);
      NoFailure(p50, run, name);
    }
  }

  /** The failures of one correlated run, each credited when no cheaper job blocks it, and paired with the others. */
  method CorrelateFailures(p50: Medians, run: Run, independent: map<Key, nat>, coFailing: map<Key, set<string>>)
    returns (credited: map<Key, nat>, paired: map<Key, set<string>>)
    requires Correlated(run)
    ensures CreditAdded(credited, independent, p50, run, {})
    ensures PairsAdded(paired, coFailing, run, {})
  {
    hide Credited, CoFail, CreditAdded, PairsAdded;
    var m := ConclusionByName(run);
    credited, paired := independent, coFailing;
    NothingAdded(credited, paired, p50, run, m);
    var pending := m.Keys;
    while pending != {}
      invariant pending <= m.Keys
      invariant CreditAdded(credited, independent, p50, run, pending)
      invariant PairsAdded(paired, coFailing, run, pending)
    {
      var name :| name in pending;
      CreditStep(credited, independent, p50, run, pending, name);
      if m[name] == Some("failure") {
        var key := Key(run.workflow, name);
        var blocked, others := JudgeFailure(p50, run, m, name);
        PairsStep(paired, coFailing, run, pending, name, others);
        if !blocked { credited := Bump(credited, key); }
        paired := paired[key := CoSet(paired, key) + others];
      } else {
        NoFailure(p50, run, name);
        PairsStep(paired, coFailing, run, pending, name, {});
      }
      pending := pending - {name};
    }
  }

  /** One run of the second pass. */
  method AddRun(p50: Medians, c: Correlation, run: Run, ghost runs: seq<Run>) returns (next: Correlation)
    requires Correlates(c, p50, runs)
    ensures Correlates(next, p50, runs + [run])
  {
    hide CountsCredit, CountsReruns, HoldsCoFailures;
    next := c;
    UncorrelatedRun(p50, c.independent, c.coFailing, runs, run);
    OneRerun(c.rerun, runs, run);
    OneAmbiguous(c.ambiguous, runs, run);
    if run.event == "pull_request" {
      if run.attempt > 1 && run.conclusion == Some("success") {
        next := next.(rerun := next.rerun[run.workflow := Reruns(next.rerun, run.workflow) + 1]);
      }
      var distinct := HasDistinctNames(run);
      if !distinct {
        next := next.(ambiguous := next.ambiguous + {run.workflow});
      } else {
        var credited, paired := CorrelateFailures(p50, run, next.independent, next.coFailing);
        CreditCounted(credited, next.independent, p50, runs, run);
        PairsHeld(paired, next.coFailing, runs, run);
        next := next.(independent := credited, coFailing := paired);
      }
    }
  }

  lemma UncorrelatedRun(p50: Medians, credit: map<Key, nat>, pairs: map<Key, set<string>>, runs: seq<Run>, run: Run)
    ensures !Correlated(run) && CountsCredit(credit, p50, runs) ==> CountsCredit(credit, p50, runs + [run])
    ensures !Correlated(run) && HoldsCoFailures(pairs, runs) ==> HoldsCoFailures(pairs, runs + [run])
  {
    if !Correlated(run) {
      forall k: Key ensures Independent(p50, k, runs + [run]) == Independent(p50, k, runs) {
        FilterAppend(CreditsKey(p50, k), runs, [run]);
      }
      forall k: Key, other: string
        ensures CoFail(runs + [run], k.workflow, k.name, other) <==> CoFail(runs, k.workflow, k.name, other)
      {
        CoFailSplits(runs, run, k.workflow, k.name, other);
      }
    }
  }

  lemma CoFailSplits(runs: seq<Run>, run: Run, w: nat, a: string, b: string)
    ensures CoFail(runs + [run], w, a, b) <==> CoFail(runs, w, a, b) || CoFail([run], w, a, b)
  {
    assert forall r :: r in runs + [run] <==> r in runs || r in [run];
  }

  lemma CreditCounted(now: map<Key, nat>, was: map<Key, nat>, p50: Medians, runs: seq<Run>, run: Run)
    requires CreditAdded(now, was, p50, run, {}) && CountsCredit(was, p50, runs)
    ensures CountsCredit(now, p50, runs + [run])
  {
    hide Credited;
    forall k: Key ensures Get(now, k) == Independent(p50, k, runs + [run]) {
      FilterAppend(CreditsKey(p50, k), runs, [run]);
    }
  }

  lemma PairsHeld(now: map<Key, set<string>>, was: map<Key, set<string>>, runs: seq<Run>, run: Run)
    requires PairsAdded(now, was, run, {}) && HoldsCoFailures(was, runs)
    ensures HoldsCoFailures(now, runs + [run])
  {
    forall k: Key, other: string ensures other in CoSet(now, k) <==> CoFail(runs + [run], k.workflow, k.name, other) {
      CoFailSplits(runs, run, k.workflow, k.name, other);
      assert CoFail([run], k.workflow, k.name, other) ==> k.workflow == run.workflow;
    }
  }

  lemma OneRerun(rerun: map<nat, nat>, runs: seq<Run>, run: Run)
    requires CountsReruns(rerun, runs)
    ensures CountsReruns(if RerunPassed(run.workflow)(run) then rerun[run.workflow := Reruns(rerun, run.workflow) + 1] else rerun, runs + [run])
  {
    forall w: nat
      ensures |Filter(RerunPassed(w), runs + [run])| == |Filter(RerunPassed(w), runs)| + (if RerunPassed(w)(run) then 1 else 0)
    {
      FilterAppend(RerunPassed(w), runs, [run]);
    }
  }

  lemma OneAmbiguous(ambiguous: set<nat>, runs: seq<Run>, run: Run)
    requires forall w: nat :: w in ambiguous <==> AmbiguousIn(runs, w)
    ensures var now := if run.event == "pull_request" && !Unambiguous(run) then ambiguous + {run.workflow} else ambiguous;
      forall w: nat :: w in now <==> AmbiguousIn(runs + [run], w)
  {
    forall w: nat
      ensures AmbiguousIn(runs + [run], w) <==>
        AmbiguousIn(runs, w) || (run.event == "pull_request" && run.workflow == w && !Unambiguous(run))
    {
      assert forall r :: r in runs + [run] <==> r in runs || r == run;
    }
  }

  method CorrelateRuns(p50: Medians, runs: seq<Run>) returns (c: Correlation)
    ensures Correlates(c, p50, runs)
  {
    hide Correlates;
    c := NoCorrelation(p50);
    for i := 0 to |runs|
      invariant Correlates(c, p50, runs[..i])
    {
      c := AddRun(p50, c, runs[i], runs[..i]);
      assert runs[..i] + [runs[i]] == runs[..i + 1];
    }
    assert runs[..|runs|] == runs;
  }

  method NoCorrelation(p50: Medians) returns (c: Correlation)
    ensures Correlates(c, p50, [])
  {
    c := Correlation(map[], map[], map[], {});
  }

  // ------------------------------------------------------------------ the table

  datatype JobStats = JobStats(
    workflowPath: string, workflowName: string, job: string,
    runs: nat, failures: nat, cancellations: nat, cancelledOpen: nat,
    p50: Option<nat>, p90: Option<nat>, p99: Option<nat>, total: nat, missing: int,
    ambiguous: bool, independent: nat, coFailing: set<string>, cheaper: seq<string>, rerunThenPass: nat)

  function Total(durations: seq<nat>): nat { if durations == [] then 0 else durations[0] + Total(durations[1..]) }

  /** Sorts the durations of each job, then takes each median. */
  method TakeMedians(durations: map<Key, seq<nat>>) returns (sorted: map<Key, seq<nat>>, p50: Medians)
    ensures sorted.Keys == durations.Keys && forall k :: k in durations ==> sorted[k] == SortedDurations(durations[k])
    ensures p50 == map k | k in durations :: Percentile(SortedDurations(durations[k]), 50)
  {
    sorted, p50 := map[], map[];
    var pending := durations.Keys;
    while pending != {}
      invariant pending <= durations.Keys
      invariant sorted.Keys == durations.Keys - pending && p50.Keys == sorted.Keys
      invariant forall k :: k in sorted ==> sorted[k] == SortedDurations(durations[k]) && p50[k] == Percentile(sorted[k], 50)
    {
      var k :| k in pending;
      sorted := sorted[k := SortedDurations(durations[k])];
      p50 := p50[k := Percentile(sorted[k], 50)];
      pending := pending - {k};
    }
  }

  /** The path and name of the last workflow listed under the id. */
  function Meta(workflows: seq<Workflow>, id: nat): (string, string) {
    if workflows == [] then ("", "")
    else if workflows[|workflows| - 1].id == id then (workflows[|workflows| - 1].path, workflows[|workflows| - 1].name)
    else Meta(workflows[..|workflows| - 1], id)
  }

  function PathOf(workflows: seq<Workflow>, id: nat): string {
    if Meta(workflows, id).0 == "" then "unknown-workflow-" + Decimal.Digits(id) else Meta(workflows, id).0
  }

  function KeysIn(rows: seq<Row>): set<Key> { set r | r in rows :: r.key }

  /** The median of every job that has a duration. */
  function MediansOf(rows: seq<Row>): Medians {
    map k | k in KeysIn(rows) && Durations(k, rows) != [] :: Percentile(SortedDurations(Durations(k, rows)), 50)
  }

  /** Keys in the order of their map. */
  predicate KeyLe(a: Key, b: Key) { a.workflow < b.workflow || (a.workflow == b.workflow && !Less(b.name, a.name)) }

  /** `cheaper_jobs_compared`, from the keys in order. */
  function CheaperNames(p50: Medians, keys: seq<Key>, k: Key): seq<string> {
    if keys == [] then []
    else
      (if keys[0].workflow == k.workflow && keys[0].name != k.name
          && Cheaper(OrderKey(p50, keys[0].workflow, keys[0].name), OrderKey(p50, k.workflow, k.name))
       then [keys[0].name] else []) + CheaperNames(p50, keys[1..], k)
  }

  /** One line of the table, as the history determines it. */
  ghost predicate Reports(s: JobStats, k: Key, workflows: seq<Workflow>, runs: seq<Run>, keys: seq<Key>) {
    var rows := Rows(runs, |runs|);
    var p50 := MediansOf(rows);
    var sorted := SortedDurations(Durations(k, rows));
    && s.workflowPath == PathOf(workflows, k.workflow) && s.workflowName == Meta(workflows, k.workflow).1 && s.job == k.name
    && s.runs == |Filter(Keyed(k), rows)|
    && s.failures == |Filter(Failed(k), rows)|
    && s.cancellations == |Filter(Cancelled(k), rows)|
    && s.cancelledOpen == |Filter(Hung(k), rows)|
    && s.p50 == Percentile(sorted, 50) && s.p90 == Percentile(sorted, 90) && s.p99 == Percentile(sorted, 99)
    && s.total == Total(sorted)
    && s.missing == s.runs - |sorted|
    && (s.ambiguous <==> AmbiguousIn(runs, k.workflow))
    && s.independent == Independent(p50, k, runs)
    && (forall other: string :: other in s.coFailing <==> CoFail(runs, k.workflow, k.name, other))
    && s.cheaper == CheaperNames(p50, keys, k)
    && s.rerunThenPass == |Filter(RerunPassed(k.workflow), runs)|
  }

  /** Lines by path, then by job. */
  predicate LineLe(a: JobStats, b: JobStats) {
    Less(a.workflowPath, b.workflowPath) || (a.workflowPath == b.workflowPath && !Less(b.job, a.job))
  }

  lemma OrdersAreTotal()
    ensures TotalPreorder(KeyLe) && TotalPreorder(LineLe)
  {
    forall a: string, b: string ensures !(Less(a, b) && Less(b, a)) && (Less(a, b) || Less(b, a) || a == b) { Trichotomy(a, b); }
    forall a: string, b: string, c: string | Less(a, b) && Less(b, c) ensures Less(a, c) { LessTransitive(a, b, c); }
  }

  lemma NothingToSort()
    ensures SortedDurations([]) == []
  {
  }

  method Line(workflows: seq<Workflow>, runs: seq<Run>, counts: Counts, sorted: map<Key, seq<nat>>, p50: Medians, c: Correlation, keys: seq<Key>, k: Key)
    returns (line: JobStats)
    requires var rows := Rows(runs, |runs|); Tallies(counts, rows) && p50 == MediansOf(rows)
    requires Correlates(c, p50, runs)
    requires sorted.Keys == counts.durations.Keys && forall k :: k in sorted ==> sorted[k] == SortedDurations(counts.durations[k])
    ensures Reports(line, k, workflows, runs, keys)
  {
    hide Percentile, Sort, Filter, Independent, MediansOf, CheaperNames, Meta, PathOf, Total, CoFail, AmbiguousIn, Durations, Rows;
    var d := if k in sorted then sorted[k] else [];
    NothingToSort();
    assert d == SortedDurations(Durations(k, Rows(runs, |runs|)));
    line := JobStats(
      PathOf(workflows, k.workflow), Meta(workflows, k.workflow).1, k.name,
      Get(counts.runs, k), Get(counts.failures, k), Get(counts.cancels, k), Get(counts.hung, k),
      Percentile(d, 50), Percentile(d, 90), Percentile(d, 99), Total(d), Get(counts.runs, k) - |d|,
      k.workflow in c.ambiguous, Get(c.independent, k), CoSet(c.coFailing, k), CheaperNames(p50, keys, k),
      Reruns(c.rerun, k.workflow));
  }

  /** The lines of `keys`, the jobs of the history in the order of their map. */
  ghost predicate LinesOf(lines: seq<JobStats>, keys: seq<Key>, workflows: seq<Workflow>, runs: seq<Run>) {
    && Ascending(KeyLe, keys) && Distinct(keys) && (forall k :: k in keys <==> k in KeysIn(Rows(runs, |runs|)))
    && |lines| == |keys| && forall i :: 0 <= i < |keys| ==> Reports(lines[i], keys[i], workflows, runs, keys)
  }

  /** One line for each job of the history, sorted by path and job. */
  ghost predicate IsTable(stats: seq<JobStats>, workflows: seq<Workflow>, runs: seq<Run>) {
    exists lines, keys :: LinesOf(lines, keys, workflows, runs) && stats == Sort(LineLe, lines)
  }

  /** `compute_ci_job_stats`. */
  method ComputeJobStats(workflows: seq<Workflow>, runs: seq<Run>) returns (stats: seq<JobStats>)
    ensures IsTable(stats, workflows, runs)
  {
    hide Reports, Correlates, Tallies;
    var counts := CountJobs(runs);
    var sorted, p50 := TakeMedians(counts.durations);
    KeysOfCounts(counts, runs, p50);
    var c := CorrelateRuns(p50, runs);
    OrdersAreTotal();
    var keys := InOrder(KeyLe, counts.runs.Keys);
    stats := [];
    for i := 0 to |keys|
      invariant |stats| == i && forall j :: 0 <= j < i ==> Reports(stats[j], keys[j], workflows, runs, keys)
    {
      var line := Line(workflows, runs, counts, sorted, p50, c, keys, keys[i]);
      stats := stats + [line];
    }
    assert LinesOf(stats, keys, workflows, runs);
    stats := Sort(LineLe, stats);
  }

  lemma KeysOfCounts(counts: Counts, runs: seq<Run>, p50: Medians)
    requires Tallies(counts, Rows(runs, |runs|))
    requires p50 == map k | k in counts.durations :: Percentile(SortedDurations(counts.durations[k]), 50)
    ensures p50 == MediansOf(Rows(runs, |runs|))
    ensures counts.runs.Keys == KeysIn(Rows(runs, |runs|))
  {
    hide Percentile, SortedDurations, CountsBy;
    var rows := Rows(runs, |runs|);
    KeysAreCounted(counts.runs, rows);
    forall k: Key ensures Durations(k, rows) != [] ==> k in KeysIn(rows) { DurationsNeedARow(k, rows); }
    assert forall k: Key :: k in counts.durations <==> Durations(k, rows) != [];
  }

  lemma KeysAreCounted(m: map<Key, nat>, rows: seq<Row>)
    requires CountsBy(m, Keyed, rows)
    ensures m.Keys == KeysIn(rows)
  {
    forall k: Key ensures k in m <==> k in KeysIn(rows) {
      var mine := Filter(Keyed(k), rows);
      assert Get(m, k) == |mine|;
      if k in m { assert mine[0] in mine; }
      if k in KeysIn(rows) { var r :| r in rows && r.key == k; assert Keyed(k)(r) && r in mine; }
    }
  }

  lemma {:induction false} DurationsNeedARow(k: Key, rows: seq<Row>)
    ensures |Durations(k, rows)| <= |Filter(Keyed(k), rows)|
    ensures Durations(k, rows) != [] ==> k in KeysIn(rows)
  {
    if rows != [] {
      var front, last := rows[..|rows| - 1], rows[|rows| - 1];
      DurationsNeedARow(k, front);
      assert rows == front + [last];
      FilterAppend(Keyed(k), front, [last]);
      assert last in rows && forall r :: r in front ==> r in rows;
    }
  }

  // ------------------------------------------------ what the table accounts for

  function TableCredit(stats: seq<JobStats>): nat {
    if stats == [] then 0 else stats[0].independent + TableCredit(stats[1..])
  }

  ghost function CreditingRun(p50: Medians): Run -> bool { (run: Run) => GivesCredit(p50, run) }

  /** The table credits each run whose least blocking job failed once, and credits nothing else. */
  lemma TableConservesCredit(stats: seq<JobStats>, workflows: seq<Workflow>, runs: seq<Run>)
    requires IsTable(stats, workflows, runs)
    ensures TableCredit(stats) == |Filter(CreditingRun(MediansOf(Rows(runs, |runs|))), runs)|
  {
    var lines, keys :| LinesOf(lines, keys, workflows, runs) && stats == Sort(LineLe, lines);
    LinesConserveCredit(workflows, runs, keys, lines);
  }

  lemma LinesConserveCredit(workflows: seq<Workflow>, runs: seq<Run>, keys: seq<Key>, lines: seq<JobStats>)
    requires LinesOf(lines, keys, workflows, runs)
    ensures TableCredit(Sort(LineLe, lines)) == |Filter(CreditingRun(MediansOf(Rows(runs, |runs|))), runs)|
  {
    hide MediansOf, GivesCredit, CreditsKey;
    var p50 := MediansOf(Rows(runs, |runs|));
    SortKeepsCredit(lines);
    LinesSumCredit(p50, keys, runs, lines);
    CreditIsConserved(p50, keys, runs);
    forall i | 0 <= i < |runs| ensures CreditsOneOf(p50, keys)(runs[i]) <==> CreditingRun(p50)(runs[i]) {
      CreditingRunHasAKey(p50, runs, keys, i);
    }
    CountFewer(CreditsOneOf(p50, keys), CreditingRun(p50), runs);
    CountFewer(CreditingRun(p50), CreditsOneOf(p50, keys), runs);
  }

  lemma CreditingRunHasAKey(p50: Medians, runs: seq<Run>, keys: seq<Key>, i: nat)
    requires i < |runs| && forall k :: k in keys <==> k in KeysIn(Rows(runs, |runs|))
    ensures CreditsOneOf(p50, keys)(runs[i]) <==> GivesCredit(p50, runs[i])
  {
    hide LeastBlocker, Unblocked, Unambiguous;
    var run := runs[i];
    forall name: string
      ensures Credited(p50, run, name) <==> Correlated(run) && FailsAt(run, name) && LeastBlocker(p50, run, name)
      ensures Credited(p50, run, name) ==> Key(run.workflow, name) in keys
    {
      CreditGoesToTheLeastBlocker(p50, run, name);
      if Credited(p50, run, name) {
        var j :| 0 <= j < |run.jobs| && run.jobs[j].name == name;
        RowIsListed(runs, |runs|, i, j);
      }
    }
    if GivesCredit(p50, run) {
      var name: string :| LeastBlocker(p50, run, name) && FailsAt(run, name);
      assert CreditsKey(p50, Key(run.workflow, name))(run);
    }
    if CreditsOneOf(p50, keys)(run) {
      var k :| k in keys && CreditsKey(p50, k)(run);
      assert LeastBlocker(p50, run, k.name) && FailsAt(run, k.name);
    }
  }

  lemma {:induction false} RowIsListed(runs: seq<Run>, n: nat, i: nat, j: nat)
    requires i < n <= |runs| && j < |runs[i].jobs| && runs[i].event == "pull_request"
    ensures Key(runs[i].workflow, runs[i].jobs[j].name) in KeysIn(Rows(runs, n))
  {
    var last := RunRows(runs[n - 1], |runs[n - 1].jobs|);
    var key := Key(runs[i].workflow, runs[i].jobs[j].name);
    if i < n - 1 {
      RowIsListed(runs, n - 1, i, j);
      var r :| r in Rows(runs, n - 1) && r.key == key;
      assert r in Rows(runs, n);
    } else {
      assert last[j] in last && last[j].key == key;
      assert last[j] in Rows(runs, n);
    }
  }

  lemma {:induction false} SortKeepsCredit(lines: seq<JobStats>)
    ensures TableCredit(Sort(LineLe, lines)) == TableCredit(lines)
  {
    if lines != [] {
      SortKeepsCredit(lines[1..]);
      InsertAddsCredit(lines[0], Sort(LineLe, lines[1..]));
    }
  }

  lemma {:induction false} InsertAddsCredit(x: JobStats, s: seq<JobStats>)
    ensures TableCredit(Insert(LineLe, x, s)) == x.independent + TableCredit(s)
  {
    hide LineLe;
    if s != [] && !LineLe(x, s[0]) { InsertAddsCredit(x, s[1..]); }
  }

  lemma {:induction false} LinesSumCredit(p50: Medians, keys: seq<Key>, runs: seq<Run>, lines: seq<JobStats>)
    requires |lines| == |keys| && forall i :: 0 <= i < |keys| ==> lines[i].independent == Independent(p50, keys[i], runs)
    ensures TableCredit(lines) == TotalCredit(p50, keys, runs)
  {
    if keys != [] { LinesSumCredit(p50, keys[1..], runs, lines[1..]); }
  }

  // ------------------------------------------------------- workflow by workflow

  /** The credit of the lines whose job belongs to a picked workflow. */
  function PickedCredit(pick: nat -> bool, keys: seq<Key>, lines: seq<JobStats>): nat
    requires |lines| == |keys|
  {
    if keys == [] then 0 else (if pick(keys[0].workflow) then lines[0].independent else 0) + PickedCredit(pick, keys[1..], lines[1..])
  }

  function PickedKeys(pick: nat -> bool): Key -> bool { (k: Key) => pick(k.workflow) }

  ghost function CreditingIn(p50: Medians, pick: nat -> bool): Run -> bool { (run: Run) => pick(run.workflow) && GivesCredit(p50, run) }

  /** For any choice of workflows, their lines credit each of their runs whose least blocking job failed once. */
  lemma PickedConserveCredit(pick: nat -> bool, lines: seq<JobStats>, keys: seq<Key>, workflows: seq<Workflow>, runs: seq<Run>)
    requires LinesOf(lines, keys, workflows, runs)
    ensures PickedCredit(pick, keys, lines) == |Filter(CreditingIn(MediansOf(Rows(runs, |runs|)), pick), runs)|
  {
    hide MediansOf, GivesCredit, CreditsKey;
    var p50 := MediansOf(Rows(runs, |runs|));
    var mine := Filter(PickedKeys(pick), keys);
    PickedSum(pick, p50, keys, runs, lines);
    DistinctFilter(PickedKeys(pick), keys);
    CreditIsConserved(p50, mine, runs);
    forall i | 0 <= i < |runs| ensures CreditsOneOf(p50, mine)(runs[i]) <==> CreditingIn(p50, pick)(runs[i]) {
      CreditingRunHasAKey(p50, runs, keys, i);
      CreditStaysInItsWorkflow(pick, p50, keys, runs[i]);
    }
    CountFewer(CreditsOneOf(p50, mine), CreditingIn(p50, pick), runs);
    CountFewer(CreditingIn(p50, pick), CreditsOneOf(p50, mine), runs);
  }

  lemma CreditStaysInItsWorkflow(pick: nat -> bool, p50: Medians, keys: seq<Key>, run: Run)
    ensures CreditsOneOf(p50, Filter(PickedKeys(pick), keys))(run) <==> pick(run.workflow) && CreditsOneOf(p50, keys)(run)
  {
    hide Credited;
    var mine := Filter(PickedKeys(pick), keys);
    if CreditsOneOf(p50, mine)(run) {
      var k :| k in mine && CreditsKey(p50, k)(run);
      assert PickedKeys(pick)(k) && k in keys;
    }
    if pick(run.workflow) && CreditsOneOf(p50, keys)(run) {
      var k :| k in keys && CreditsKey(p50, k)(run);
      assert PickedKeys(pick)(k) && k in mine;
    }
  }

  lemma {:induction false} PickedSum(pick: nat -> bool, p50: Medians, keys: seq<Key>, runs: seq<Run>, lines: seq<JobStats>)
    requires |lines| == |keys| && forall i :: 0 <= i < |keys| ==> lines[i].independent == Independent(p50, keys[i], runs)
    ensures PickedCredit(pick, keys, lines) == TotalCredit(p50, Filter(PickedKeys(pick), keys), runs)
  {
    hide Independent;
    if keys != [] {
      PickedSum(pick, p50, keys[1..], runs, lines[1..]);
      var rest := Filter(PickedKeys(pick), keys[1..]);
      assert ([keys[0]] + rest)[1..] == rest && [] + rest == rest;
    }
  }

  lemma {:induction false} DistinctFilter(p: Key -> bool, keys: seq<Key>)
    requires Distinct(keys)
    ensures Distinct(Filter(p, keys))
  {
    if keys != [] {
      DistinctFilter(p, keys[1..]);
      var rest := Filter(p, keys[1..]);
      forall k | k in rest ensures k != keys[0] { assert k in keys[1..]; }
    }
  }

  /** The lines of one workflow credit each of its runs whose least blocking job failed once, and credit nothing else. */
  lemma WorkflowConservesCredit(w: nat, lines: seq<JobStats>, keys: seq<Key>, workflows: seq<Workflow>, runs: seq<Run>)
    requires LinesOf(lines, keys, workflows, runs)
    ensures PickedCredit(x => x == w, keys, lines) == |Filter(CreditingIn(MediansOf(Rows(runs, |runs|)), x => x == w), runs)|
  {
    PickedConserveCredit(x => x == w, lines, keys, workflows, runs);
  }

  function PathCredit(stats: seq<JobStats>, path: string): nat {
    if stats == [] then 0 else (if stats[0].workflowPath == path then stats[0].independent else 0) + PathCredit(stats[1..], path)
  }

  function PathIs(workflows: seq<Workflow>, path: string): nat -> bool { (w: nat) => PathOf(workflows, w) == path }

  /** So it is in the published table, which shows a workflow by its path. */
  lemma PathConservesCredit(path: string, stats: seq<JobStats>, workflows: seq<Workflow>, runs: seq<Run>)
    requires IsTable(stats, workflows, runs)
    ensures PathCredit(stats, path) == |Filter(CreditingIn(MediansOf(Rows(runs, |runs|)), PathIs(workflows, path)), runs)|
  {
    hide Reports, MediansOf;
    var lines: seq<JobStats>, keys: seq<Key> :| LinesOf(lines, keys, workflows, runs) && stats == Sort(LineLe, lines);
    SortKeepsPathCredit(lines, path);
    forall i | 0 <= i < |keys| ensures lines[i].workflowPath == PathOf(workflows, keys[i].workflow) {
      ReportsPath(lines[i], keys[i], workflows, runs, keys);
    }
    PathIsPicked(path, lines, keys, workflows);
    PickedConserveCredit(PathIs(workflows, path), lines, keys, workflows, runs);
  }

  lemma ReportsPath(s: JobStats, k: Key, workflows: seq<Workflow>, runs: seq<Run>, keys: seq<Key>)
    requires Reports(s, k, workflows, runs, keys)
    ensures s.workflowPath == PathOf(workflows, k.workflow)
  {
  }

  lemma {:induction false} PathIsPicked(path: string, lines: seq<JobStats>, keys: seq<Key>, workflows: seq<Workflow>)
    requires |lines| == |keys| && forall i :: 0 <= i < |keys| ==> lines[i].workflowPath == PathOf(workflows, keys[i].workflow)
    ensures PathCredit(lines, path) == PickedCredit(PathIs(workflows, path), keys, lines)
  {
    if keys != [] { PathIsPicked(path, lines[1..], keys[1..], workflows); }
  }

  lemma {:induction false} SortKeepsPathCredit(lines: seq<JobStats>, path: string)
    ensures PathCredit(Sort(LineLe, lines), path) == PathCredit(lines, path)
  {
    if lines != [] {
      SortKeepsPathCredit(lines[1..], path);
      InsertAddsPathCredit(lines[0], Sort(LineLe, lines[1..]), path);
    }
  }

  lemma {:induction false} InsertAddsPathCredit(x: JobStats, s: seq<JobStats>, path: string)
    ensures PathCredit(Insert(LineLe, x, s), path) == (if x.workflowPath == path then x.independent else 0) + PathCredit(s, path)
  {
    hide LineLe;
    if s != [] && !LineLe(x, s[0]) { InsertAddsPathCredit(x, s[1..], path); }
  }

  /** A job is credited at most as often as it failed, and fails at most as often as it ran; durations never outnumber runs. */
  lemma LineIsConsistent(s: JobStats, k: Key, workflows: seq<Workflow>, runs: seq<Run>, keys: seq<Key>)
    requires Reports(s, k, workflows, runs, keys)
    ensures s.independent <= s.failures && s.failures + s.cancellations <= s.runs
    ensures s.cancelledOpen <= s.cancellations
    ensures 0 <= s.missing <= s.runs
  {
    hide Percentile, MediansOf, CheaperNames, Filter, Durations, Sort, CoFail;
    var rows := Rows(runs, |runs|);
    CreditNeedsFailure(MediansOf(rows), k, runs, |runs|);
    assert runs[..|runs|] == runs;
    DurationsNeedARow(k, rows);
    SortMeans(AtMost, Durations(k, rows));
    OutcomesAreExclusive(k, rows);
  }

  lemma OutcomesAreExclusive(k: Key, rows: seq<Row>)
    ensures |Filter(Failed(k), rows)| + |Filter(Cancelled(k), rows)| <= |Filter(Keyed(k), rows)|
    ensures |Filter(Hung(k), rows)| <= |Filter(Cancelled(k), rows)|
  {
    hide Filter;
    CountFewer(Hung(k), Cancelled(k), rows);
    var either := (r: Row) => Failed(k)(r) || Cancelled(k)(r);
    CountSplits(Failed(k), Cancelled(k), either, rows);
    CountFewer(either, Keyed(k), rows);
  }

  lemma {:induction false} CreditNeedsFailure(p50: Medians, k: Key, runs: seq<Run>, n: nat)
    requires n <= |runs|
    ensures Independent(p50, k, runs[..n]) <= |Filter(Failed(k), Rows(runs, n))|
  {
    if n > 0 {
      var run := runs[n - 1];
      CreditNeedsFailure(p50, k, runs, n - 1);
      assert runs[..n] == runs[..n - 1] + [run];
      FilterAppend(CreditsKey(p50, k), runs[..n - 1], [run]);
      var rows := RunRows(run, |run.jobs|);
      FilterAppend(Failed(k), Rows(runs, n - 1), rows);
      if CreditsKey(p50, k)(run) {
        var j :| 0 <= j < |run.jobs| && run.jobs[j].name == k.name && run.jobs[j].conclusion == Some("failure");
        assert rows[j] in rows && Failed(k)(rows[j]);
        assert rows[j] in Filter(Failed(k), rows);
      }
    }
  }

  /** Jobs of one workflow list each other as failing together, or neither lists the other. */
  lemma CoFailingIsSymmetric(a: JobStats, b: JobStats, w: nat, workflows: seq<Workflow>, runs: seq<Run>, keys: seq<Key>)
    requires Reports(a, Key(w, a.job), workflows, runs, keys) && Reports(b, Key(w, b.job), workflows, runs, keys)
    ensures b.job in a.coFailing <==> a.job in b.coFailing
    ensures a.job !in a.coFailing
  {
    hide Percentile, MediansOf, CheaperNames, Filter;
  }

  /** Of two jobs of one workflow, exactly one is listed as cheaper than the other. */
  lemma OneIsCheaper(p50: Medians, keys: seq<Key>, a: Key, b: Key)
    requires a in keys && b in keys && a.workflow == b.workflow && a != b
    ensures (a.name in CheaperNames(p50, keys, b)) != (b.name in CheaperNames(p50, keys, a))
  {
    CheaperNamesMean(p50, keys, a, b.name);
    CheaperNamesMean(p50, keys, b, a.name);
    CheaperIsTotal(OrderKey(p50, a.workflow, a.name), OrderKey(p50, b.workflow, b.name));
  }

  lemma {:induction false} CheaperNamesMean(p50: Medians, keys: seq<Key>, k: Key, name: string)
    ensures name in CheaperNames(p50, keys, k) <==>
      (Key(k.workflow, name) in keys && name != k.name
       && Cheaper(OrderKey(p50, k.workflow, name), OrderKey(p50, k.workflow, k.name)))
  {
    if keys != [] {
      CheaperNamesMean(p50, keys[1..], k, name);
      assert Key(k.workflow, name) in keys <==> Key(k.workflow, name) == keys[0] || Key(k.workflow, name) in keys[1..];
    }
  }
}
