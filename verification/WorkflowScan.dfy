/** The line scan of a workflow file (`src/ci_audit.rs`). */
module WorkflowScan {
  import opened Collections
  import opened Strings
  import opened YamlLines
  import opened YamlComments
  import opened MatrixSize

  const U64_MAX: nat := 0xFFFF_FFFF_FFFF_FFFF

  datatype Job = Job(
    id: string, name: Option<string>, runsOn: seq<string>, matrixSize: nat, timeout: Option<nat>, uses: seq<string>,
    permissions: Option<Permission>, secrets: set<string>, gaps: seq<Gap>)

  datatype Trigger = Trigger(names: seq<string>, paths: seq<string>, pathsIgnore: seq<string>)

  // ---------------------------------------------------------------------- text

  predicate EndsWith(s: string, c: char) { s != "" && s[|s| - 1] == c }
  function TrimColons(s: string): string { if EndsWith(s, ':') then TrimColons(s[..|s| - 1]) else s }
  function BeforeColon(s: string): string { if SplitOnce(s, ':').Some? then SplitOnce(s, ':').value.0 else s }
  function AfterColon(s: string): string { if SplitOnce(s, ':').Some? then SplitOnce(s, ':').value.1 else "" }

  function Number(s: string): Option<nat> {
    if s == "" then Some(0)
    else match Number(s[..|s| - 1])
         case None => None
         case Some(n) =>
           var c := s[|s| - 1];
           if '0' <= c <= '9' && n * 10 + (c - '0') as nat <= U64_MAX then Some(n * 10 + (c - '0') as nat) else None
  }

  /** `parse::<u64>`. */
  function ParseU64(s: string): Option<nat> {
    var digits := if "+" <= s then s[1..] else s;
    if digits == "" then None else Number(digits)
  }

  // -------------------------------------------------------------------- a job

  /** What the scanner collects from elsewhere: the secret references of a line. */
  type Secrets = string -> set<string>

  function Body(content: string): string { if "- " <= content then content[2..] else content }

  /** The end of the nested block that a line of a job's body takes with it, when it is read. */
  function TakesTo(lines: seq<Line>, c: nat): (next: nat)
    requires c < |lines|
    ensures c < next <= BlockEnd(lines, c + 1, lines[c].indent)
  {
    var indent, body := lines[c].indent, Body(lines[c].content);
    if "runs-on:" <= body then ListNext(lines, c, indent, body[8..])
    else if "strategy:" <= body then NextAfter(lines, c, indent, body[9..])
    else if "permissions:" <= body then PermissionNext(lines, c, indent, body[12..])
    else c + 1
  }

  /** What one line that is read says about its job. */
  function JobLine(refs: Secrets, lines: seq<Line>, c: nat, job: Job): (r: Job)
    requires c < |lines|
    ensures r.id == job.id && (job.matrixSize >= 1 ==> r.matrixSize >= 1)
  {
    MatrixIsPositive(lines, c);
    var content, indent, body := lines[c].content, lines[c].indent, Body(lines[c].content);
    var seen := job.(secrets := job.secrets + refs(body));
    if "runs-on:" <= body then seen.(runsOn := job.runsOn + ListItems(lines, c, indent, body[8..]))
    else if "strategy:" <= body then
      var s := StrategyOf(lines, c, indent, body[9..]);
      seen.(matrixSize := s.size, gaps := job.gaps + s.gaps)
    else if "timeout-minutes:" <= body then
      var n := ParseU64(Trim(body[16..]));
      seen.(timeout := if n.Some? then n else job.timeout)
    else if "uses:" <= body then
      seen.(uses := job.uses + (if Unquote(body[5..]) != "" then [Unquote(body[5..])] else []))
    else if "permissions:" <= body then seen.(permissions := Some(PermissionOf(lines, c, indent, body[12..])))
    else if "secrets:" <= body && Lower(Unquote(body[8..])) == "inherit" then seen.(secrets := seen.secrets + {"inherit"})
    else if job.name.None? && "name:" <= content && Unquote(content[5..]) != "" then seen.(name := Some(Unquote(content[5..])))
    else seen
  }

  // ------------------------------------------------ which lines of a body are read

  /** Stated without a cursor: a line under `head` is read unless a line read before it takes it along in its block. */
  predicate Read(next: nat -> nat, head: nat, c: nat)
    decreases c
  {
    forall d: nat {:trigger Read(next, head, d)} :: head < d < c && Read(next, head, d) ==> next(d) <= c
  }

  /** No line read before `c` takes lines from `c` on. */
  ghost predicate Frontier(next: nat -> nat, head: nat, c: nat) {
    forall d: nat :: head < d < c && Read(next, head, d) ==> next(d) <= c
  }

  /** A cursor at the frontier stands on a line that is read; the lines its block takes are not read, and past them is
      the next frontier. */
  lemma FrontierMoves(next: nat -> nat, head: nat, c: nat)
    requires head < c < next(c) && Frontier(next, head, c)
    ensures Read(next, head, c) && Frontier(next, head, next(c))
    ensures forall d: nat :: c < d < next(c) ==> !Read(next, head, d)
  {
    forall d: nat | c < d < next(c) ensures !Read(next, head, d) { assert Read(next, head, c); }
  }

  function JobNext(lines: seq<Line>): nat -> nat { (c: nat) => if c < |lines| then TakesTo(lines, c) else c + 1 }

  /** The sizes that the strategy of any line gives are positive. */
  lemma MatrixIsPositive(lines: seq<Line>, c: nat)
    requires c < |lines|
    ensures forall indent: nat, value: string :: StrategyOf(lines, c, indent, value).size >= 1
  {
    forall indent: nat, value: string ensures StrategyOf(lines, c, indent, value).size >= 1 {
      StrategyIsPositive(lines, c, BlockEnd(lines, c + 1, indent));
    }
  }

  lemma {:induction false} StrategyIsPositive(lines: seq<Line>, key: nat, end: nat)
    requires key + 1 <= end <= |lines|
    ensures StrategyTo(lines, key, end).size >= 1
  {
    if end > key + 1 {
      StrategyIsPositive(lines, key, end - 1);
      var d := DimensionsTo(lines, end - 1, BlockEnd(lines, end, lines[end - 1].indent));
      ProductIsPositive(d.dims);
    }
  }

  lemma {:induction false} NestedBlocks(lines: seq<Line>, i: nat, indent: nat, c: nat)
    requires i <= |lines| && i <= c < BlockEnd(lines, i, indent)
    ensures BlockEnd(lines, c + 1, lines[c].indent) <= BlockEnd(lines, i, indent)
  {
    var e, f := BlockEnd(lines, i, indent), BlockEnd(lines, c + 1, lines[c].indent);
    assert forall j :: c + 1 <= j < f ==> lines[j].indent > indent;
  }

  function EmptyJob(id: string): Job { Job(id, None, [], 1, None, [], None, {}, []) }

  /** The job that line `i` heads, from the lines before `n` that are read. */
  function JobTo(refs: Secrets, lines: seq<Line>, i: nat, n: nat): (r: Job)
    requires i < n <= |lines|
    ensures r.id == Unquote(TrimColons(lines[i].content)) && r.matrixSize >= 1
  {
    if n == i + 1 then EmptyJob(Unquote(TrimColons(lines[i].content)))
    else
      var before := JobTo(refs, lines, i, n - 1);
      if Read(JobNext(lines), i, n - 1) then JobLine(refs, lines, n - 1, before) else before
  }

  lemma {:induction false} UnreadLines(refs: Secrets, lines: seq<Line>, i: nat, from: nat, to: nat)
    requires i < from <= to <= |lines| && forall d: nat :: from <= d < to ==> !Read(JobNext(lines), i, d)
    ensures JobTo(refs, lines, i, to) == JobTo(refs, lines, i, from)
  {
    hide Read, JobLine;
    if from < to { UnreadLines(refs, lines, i, from, to - 1); }
  }

  /** The job that line `i` heads: every deeper line below it that is read. */
  function JobAt(refs: Secrets, lines: seq<Line>, i: nat): (r: Job)
    requires i < |lines|
    ensures r.id == Unquote(TrimColons(lines[i].content)) && r.matrixSize >= 1
  {
    JobTo(refs, lines, i, BlockEnd(lines, i + 1, lines[i].indent))
  }

  // ------------------------------------------------- which lines the scan reads

  /** The last top-level line at or before `i`. */
  function Owner(lines: seq<Line>, i: nat): (t: Option<nat>)
    requires i < |lines|
    ensures t.Some? ==> t.value <= i && lines[t.value].indent == 0 && forall j :: t.value < j <= i ==> lines[j].indent > 0
    ensures t.None? ==> forall j :: 0 <= j <= i ==> lines[j].indent > 0
  {
    if lines[i].indent == 0 then Some(i) else if i == 0 then None else Owner(lines, i - 1)
  }

  predicate IsOn(content: string) {
    content == "on:" || "on: " <= content || content == "\"on\":" || "\"on\": " <= content
  }
  function OnValue(content: string): string { Trim(AfterColon(content)) }
  predicate OpensTriggers(line: Line) { line.indent == 0 && IsOn(line.content) && OnValue(line.content) == "" }
  predicate ListsTriggers(line: Line) { line.indent == 0 && IsOn(line.content) && OnValue(line.content) != "" }
  predicate OpensJobs(line: Line) { line.indent == 0 && line.content == "jobs:" }

  /** A line under the top-level line `t`, at the indent of its first child, and no dash item. */
  predicate IsChild(lines: seq<Line>, t: nat, i: nat)
    requires t < i < |lines|
  {
    lines[i].indent == lines[t + 1].indent && !("-" <= lines[i].content)
  }

  /** Stated without a cursor: the lines that head a job. */
  predicate HeadsJob(lines: seq<Line>, i: nat)
    requires i < |lines|
  {
    var t := Owner(lines, i);
    t.Some? && t.value < i && OpensJobs(lines[t.value]) && IsChild(lines, t.value, i) && EndsWith(lines[i].content, ':')
  }

  /** And the lines that name a trigger. */
  predicate NamesTrigger(lines: seq<Line>, i: nat)
    requires i < |lines|
  {
    var t := Owner(lines, i);
    t.Some? && t.value < i && OpensTriggers(lines[t.value]) && IsChild(lines, t.value, i)
  }

  // ----------------------------------------------------------------- a trigger

  datatype Branches = Branches(branches: seq<string>, paths: seq<string>, ignored: seq<string>)

  predicate ListsBranches(content: string) { "branches:" <= content || "paths-ignore:" <= content || "paths:" <= content }

  function ValueAt(content: string): string
    requires ListsBranches(content)
  {
    if "branches:" <= content then content[9..] else if "paths-ignore:" <= content then content[13..] else content[6..]
  }

  function BranchLine(lines: seq<Line>, c: nat, b: Branches): Branches
    requires c < |lines|
  {
    var content := lines[c].content;
    if !ListsBranches(content) then b
    else
      var items := ListItems(lines, c, lines[c].indent, ValueAt(content));
      if "branches:" <= content then b.(branches := b.branches + items)
      else if "paths-ignore:" <= content then b.(ignored := b.ignored + items)
      else b.(paths := b.paths + items)
  }

  function BranchTakesTo(lines: seq<Line>, c: nat): (next: nat)
    requires c < |lines|
    ensures c < next <= BlockEnd(lines, c + 1, lines[c].indent)
  {
    if ListsBranches(lines[c].content) then ListNext(lines, c, lines[c].indent, ValueAt(lines[c].content)) else c + 1
  }

  function BranchNext(lines: seq<Line>): nat -> nat { (c: nat) => if c < |lines| then BranchTakesTo(lines, c) else c + 1 }

  /** The branches and paths under the trigger that line `i` names, from the lines before `n` that are read. */
  function BranchesTo(lines: seq<Line>, i: nat, n: nat): Branches
    requires i < n <= |lines|
  {
    if n == i + 1 then Branches([], [], [])
    else
      var before := BranchesTo(lines, i, n - 1);
      if Read(BranchNext(lines), i, n - 1) then BranchLine(lines, n - 1, before) else before
  }

  lemma {:induction false} UnreadBranches(lines: seq<Line>, i: nat, from: nat, to: nat)
    requires i < from <= to <= |lines| && forall d: nat :: from <= d < to ==> !Read(BranchNext(lines), i, d)
    ensures BranchesTo(lines, i, to) == BranchesTo(lines, i, from)
  {
    hide Read, BranchLine;
    if from < to { UnreadBranches(lines, i, from, to - 1); }
  }

  function Named(key: string, branches: seq<string>): seq<string> {
    if branches == [] then [] else Named(key, branches[..|branches| - 1]) + [key + ":" + branches[|branches| - 1]]
  }

  function TriggerAt(lines: seq<Line>, i: nat): Trigger
    requires i < |lines|
  {
    var b := BranchesTo(lines, i, BlockEnd(lines, i + 1, lines[i].indent));
    var key := Unquote(BeforeColon(lines[i].content));
    Trigger(if b.branches == [] then [key] else Named(key, b.branches), b.paths, b.ignored)
  }

  // ---------------------------------------------------------- what it must find

  function Join(a: Trigger, b: Trigger): Trigger {
    Trigger(a.names + b.names, a.paths + b.paths, a.pathsIgnore + b.pathsIgnore)
  }

  function TriggersOf(lines: seq<Line>, i: nat): Trigger
    requires i < |lines|
  {
    if ListsTriggers(lines[i]) then
      var value := OnValue(lines[i].content);
      Trigger(if InlineList(value).Some? then InlineList(value).value else [Unquote(value)], [], [])
    else if NamesTrigger(lines, i) then TriggerAt(lines, i)
    else Trigger([], [], [])
  }

  /** The triggers of the lines that have any, in order. */
  function AllTriggers(lines: seq<Line>, n: nat): Trigger
    requires n <= |lines|
  {
    if n == 0 then Trigger([], [], []) else Join(AllTriggers(lines, n - 1), TriggersOf(lines, n - 1))
  }

  /** One job for each line that heads one, in order. */
  function AllJobs(refs: Secrets, lines: seq<Line>, n: nat): seq<Job>
    requires n <= |lines|
  {
    if n == 0 then []
    else AllJobs(refs, lines, n - 1) + (if HeadsJob(lines, n - 1) then [JobAt(refs, lines, n - 1)] else [])
  }

  /** The last top-level permissions. */
  function LastPermissions(lines: seq<Line>, n: nat): Option<Permission>
    requires n <= |lines|
  {
    if n == 0 then None
    else if lines[n - 1].indent == 0 && "permissions:" <= lines[n - 1].content
    then Some(PermissionOf(lines, n - 1, 0, lines[n - 1].content[12..]))
    else LastPermissions(lines, n - 1)
  }

  predicate OpensPermissions(line: Line) {
    line.indent == 0 && "permissions:" <= line.content && Trim(line.content[12..]) == ""
  }

  /** A block that the scan reads on its own, apart from the top level. */
  predicate OpensBlock(line: Line) { OpensJobs(line) || OpensTriggers(line) || OpensPermissions(line) }

  /** The line is read at the top level: it belongs to no such block. */
  predicate AtTop(lines: seq<Line>, i: nat)
    requires i < |lines|
  {
    var t := Owner(lines, i);
    t.Some? && t.value < i ==> !OpensBlock(lines[t.value])
  }

  /** The secret references of the lines read at the top level. */
  function TopSecrets(refs: Secrets, lines: seq<Line>, n: nat): set<string>
    requires n <= |lines|
  {
    if n == 0 then {} else TopSecrets(refs, lines, n - 1) + (if AtTop(lines, n - 1) then refs(lines[n - 1].content) else {})
  }

  datatype Scan = Scan(triggers: Trigger, jobs: seq<Job>, permissions: Option<Permission>, secrets: set<string>)

  function Found(refs: Secrets, lines: seq<Line>, n: nat): Scan
    requires n <= |lines|
  {
    Scan(AllTriggers(lines, n), AllJobs(refs, lines, n), LastPermissions(lines, n), TopSecrets(refs, lines, n))
  }

  /** Lines in a block that are neither heads nor trigger names give nothing. */
  lemma {:induction false} NothingFound(refs: Secrets, lines: seq<Line>, from: nat, to: nat)
    requires from <= to <= |lines|
    requires forall j :: from <= j < to ==> lines[j].indent > 0 && !HeadsJob(lines, j) && !NamesTrigger(lines, j) && !AtTop(lines, j)
    ensures Found(refs, lines, to) == Found(refs, lines, from)
  {
    hide HeadsJob, NamesTrigger, AtTop, JobAt, TriggerAt, PermissionOf;
    if from < to { NothingFound(refs, lines, from, to - 1); }
  }

  // ------------------------------------------------------------------ the scan

  lemma {:induction false} OwnerInBlock(lines: seq<Line>, t: nat, i: nat)
    requires t <= i < |lines| && lines[t].indent == 0 && forall j :: t < j <= i ==> lines[j].indent > 0
    ensures Owner(lines, i) == Some(t)
  {
    if t < i { OwnerInBlock(lines, t, i - 1); }
  }

  /** One line of a job's body. */
  method StepJob(refs: Secrets, lines: seq<Line>, c: nat, job: Job) returns (next: Job, cursor: nat)
    requires c < |lines|
    ensures next == JobLine(refs, lines, c, job) && cursor == TakesTo(lines, c)
  {
    hide ListItems, ListNext, ListEnd, StrategyOf, NextAfter, PermissionOf, PermissionNext, ParseU64, Unquote, Trim, Lower;
    var body := Body(lines[c].content);
    var indent := lines[c].indent;
    next, cursor := job.(secrets := job.secrets + refs(body)), c + 1;
    if "runs-on:" <= body {
      var items, after := ListAt(lines, c, indent, body[8..]);
      next, cursor := next.(runsOn := next.runsOn + items), after;
    } else if "strategy:" <= body {
      var size, gaps, after := StrategySizeAt(lines, c, indent, body[9..]);
      next, cursor := next.(matrixSize := size, gaps := next.gaps + gaps), after;
    } else if "timeout-minutes:" <= body {
      var n := ParseU64(Trim(body[16..]));
      next := next.(timeout := if n.Some? then n else next.timeout);
    } else if "uses:" <= body {
      var reference := Unquote(body[5..]);
      next := next.(uses := next.uses + (if reference != "" then [reference] else []));
    } else if "permissions:" <= body {
      var value, after := PermissionsAt(lines, c, indent, body[12..]);
      next, cursor := next.(permissions := Some(value)), after;
    } else if "secrets:" <= body && Lower(Unquote(body[8..])) == "inherit" {
      next := next.(secrets := next.secrets + {"inherit"});
    } else if next.name.None? && "name:" <= lines[c].content {
      var value := Unquote(lines[c].content[5..]);
      if value != "" { next := next.(name := Some(value)); }
    }
    PrefixesDiffer(body);
  }

  lemma PrefixesDiffer(body: string)
    ensures "timeout-minutes:" <= body || "uses:" <= body ==> !("permissions:" <= body)
  {
    assert "permissions:" <= body ==> body[0] == 'p';
    assert "timeout-minutes:" <= body ==> body[0] == 't';
    assert "uses:" <= body ==> body[0] == 'u';
  }

  /** The body of the job that line `i` heads. */
  method ScanJob(refs: Secrets, lines: seq<Line>, i: nat) returns (job: Job, cursor: nat)
    requires i < |lines|
    ensures job == JobAt(refs, lines, i) && cursor == BlockEnd(lines, i + 1, lines[i].indent)
  {
    hide JobLine, TakesTo, Read, Frontier;
    ghost var end, next := BlockEnd(lines, i + 1, lines[i].indent), JobNext(lines);
    job, cursor := EmptyJob(Unquote(TrimColons(lines[i].content))), i + 1;
    FrontierStarts(next, i);
    while cursor < |lines| && lines[cursor].indent > lines[i].indent
      invariant i + 1 <= cursor <= end
      invariant Frontier(next, i, cursor) && job == JobTo(refs, lines, i, cursor)
    {
      ghost var c := cursor;
      NestedBlocks(lines, i + 1, lines[i].indent, c);
      job, cursor := StepJob(refs, lines, cursor, job);
      FrontierMoves(next, i, c);
      UnreadLines(refs, lines, i, c + 1, cursor);
    }
  }

  lemma FrontierStarts(next: nat -> nat, head: nat)
    ensures Frontier(next, head, head + 1)
  {
  }

  method StepBranches(lines: seq<Line>, c: nat, b: Branches) returns (next: Branches, cursor: nat)
    requires c < |lines|
    ensures next == BranchLine(lines, c, b) && cursor == BranchTakesTo(lines, c)
  {
    hide ListItems, ListNext, ListEnd;
    var content, indent := lines[c].content, lines[c].indent;
    next, cursor := b, c + 1;
    if "branches:" <= content {
      var items, after := ListAt(lines, c, indent, content[9..]);
      next, cursor := b.(branches := b.branches + items), after;
    } else if "paths-ignore:" <= content {
      var items, after := ListAt(lines, c, indent, content[13..]);
      next, cursor := b.(ignored := b.ignored + items), after;
    } else if "paths:" <= content {
      var items, after := ListAt(lines, c, indent, content[6..]);
      next, cursor := b.(paths := b.paths + items), after;
    }
  }

  /** The trigger that line `i` names. */
  method ScanTrigger(lines: seq<Line>, i: nat) returns (trigger: Trigger, cursor: nat)
    requires i < |lines|
    ensures trigger == TriggerAt(lines, i) && cursor == BlockEnd(lines, i + 1, lines[i].indent)
  {
    hide Unquote, BeforeColon;
    var key := Unquote(BeforeColon(lines[i].content));
    var b;
    b, cursor := ScanBranches(lines, i);
    var names: seq<string> := [];
    if b.branches == [] {
      names := [key];
    } else {
      for n := 0 to |b.branches|
        invariant names == Named(key, b.branches[..n])
      {
        assert b.branches[..n + 1][..n] == b.branches[..n];
        names := names + [key + ":" + b.branches[n]];
      }
      assert b.branches[..|b.branches|] == b.branches;
    }
    trigger := Trigger(names, b.paths, b.ignored);
  }

  method ScanBranches(lines: seq<Line>, i: nat) returns (b: Branches, cursor: nat)
    requires i < |lines|
    ensures cursor == BlockEnd(lines, i + 1, lines[i].indent) && b == BranchesTo(lines, i, cursor)
  {
    hide BranchLine, BranchTakesTo, Read, Frontier;
    ghost var end, next := BlockEnd(lines, i + 1, lines[i].indent), BranchNext(lines);
    b, cursor := Branches([], [], []), i + 1;
    FrontierStarts(next, i);
    while cursor < |lines| && lines[cursor].indent > lines[i].indent
      invariant i + 1 <= cursor <= end
      invariant Frontier(next, i, cursor) && b == BranchesTo(lines, i, cursor)
    {
      ghost var c := cursor;
      NestedBlocks(lines, i + 1, lines[i].indent, c);
      b, cursor := StepBranches(lines, cursor, b);
      FrontierMoves(next, i, c);
      UnreadBranches(lines, i, c + 1, cursor);
    }
  }

  /** What a line in the block of `t` can be. */
  lemma BlockLine(lines: seq<Line>, t: nat, i: nat)
    requires t < i < |lines| && OpensBlock(lines[t]) && forall j :: t < j <= i ==> lines[j].indent > 0
    ensures Owner(lines, i) == Some(t) && !AtTop(lines, i)
    ensures HeadsJob(lines, i) <==> OpensJobs(lines[t]) && IsChild(lines, t, i) && EndsWith(lines[i].content, ':')
    ensures NamesTrigger(lines, i) <==> OpensTriggers(lines[t]) && IsChild(lines, t, i)
    ensures OpensTriggers(lines[t]) ==> !OpensJobs(lines[t])
  {
    hide OnValue;
    OwnerInBlock(lines, t, i);
    OpenersDiffer(lines[t]);
  }

  /** The block under `jobs:`. */
  method ScanJobs(refs: Secrets, lines: seq<Line>, start: nat, scan: Scan) returns (now: Scan, index: nat)
    requires start < |lines| && OpensJobs(lines[start]) && scan == Found(refs, lines, start + 1)
    ensures index == BlockEnd(lines, start + 1, 0) && now == Found(refs, lines, index)
  {
    hide JobAt, TriggerAt, PermissionOf, BlockEnd, Found, Owner, AtTop, HeadsJob, NamesTrigger, OpensTriggers;
    now, index := scan, start + 1;
    while index < |lines|
      invariant start + 1 <= index <= |lines|
      invariant forall j :: start < j < index ==> lines[j].indent > 0
      invariant now == Found(refs, lines, index)
    {
      if lines[index].indent == 0 { break; }
      var expected := lines[start + 1].indent;
      BlockLine(lines, start, index);
      var at := index;
      if lines[index].indent != expected || "-" <= lines[index].content || !EndsWith(lines[index].content, ':') {
        index := index + 1;
        NothingFound(refs, lines, at, index);
      } else {
        var job;
        job, index := ScanJob(refs, lines, at);
        now := now.(jobs := now.jobs + [job]);
        OneJob(refs, lines, start, at);
        DeeperLines(refs, lines, start, at, index);
      }
    }
    BlockEndIs(lines, start + 1, 0, index);
  }

  lemma OneJob(refs: Secrets, lines: seq<Line>, t: nat, i: nat)
    requires t < i < |lines| && Owner(lines, i) == Some(t) && OpensJobs(lines[t]) && HeadsJob(lines, i)
    ensures var f := Found(refs, lines, i); Found(refs, lines, i + 1) == f.(jobs := f.jobs + [JobAt(refs, lines, i)])
  {
    hide JobAt, TriggerAt, PermissionOf;
  }

  /** Lines deeper than a child give nothing of their own. */
  lemma DeeperLines(refs: Secrets, lines: seq<Line>, t: nat, i: nat, end: nat)
    requires t < i < end <= |lines| && OpensBlock(lines[t]) && forall j :: t < j < end ==> lines[j].indent > 0
    requires lines[i].indent == lines[t + 1].indent && forall j :: i < j < end ==> lines[j].indent > lines[i].indent
    ensures Found(refs, lines, end) == Found(refs, lines, i + 1)
  {
    hide Found, HeadsJob, NamesTrigger, AtTop;
    forall j | i < j < end ensures !HeadsJob(lines, j) && !NamesTrigger(lines, j) && !AtTop(lines, j) { BlockLine(lines, t, j); }
    NothingFound(refs, lines, i + 1, end);
  }

  /** The block under `on:`. */
  method ScanTriggers(refs: Secrets, lines: seq<Line>, start: nat, scan: Scan) returns (now: Scan, index: nat)
    requires start < |lines| && OpensTriggers(lines[start]) && scan == Found(refs, lines, start + 1)
    ensures index == BlockEnd(lines, start + 1, 0) && now == Found(refs, lines, index)
  {
    hide JobAt, TriggerAt, PermissionOf, BlockEnd, Found, Owner, AtTop, HeadsJob, NamesTrigger, OpensJobs;
    now, index := scan, start + 1;
    while index < |lines|
      invariant start + 1 <= index <= |lines|
      invariant forall j :: start < j < index ==> lines[j].indent > 0
      invariant now == Found(refs, lines, index)
    {
      if lines[index].indent == 0 { break; }
      BlockLine(lines, start, index);
      var at := index;
      if lines[index].indent != lines[start + 1].indent || "-" <= lines[index].content {
        index := index + 1;
        NothingFound(refs, lines, at, index);
      } else {
        var trigger;
        trigger, index := ScanTrigger(lines, at);
        now := now.(triggers := Join(now.triggers, trigger));
        OneTrigger(refs, lines, start, at);
        DeeperLines(refs, lines, start, at, index);
      }
    }
    BlockEndIs(lines, start + 1, 0, index);
  }

  lemma OpenersDiffer(line: Line)
    ensures IsOn(line.content) ==> !OpensJobs(line) && !("permissions:" <= line.content)
    ensures OpensJobs(line) ==> !("permissions:" <= line.content)
  {
    assert "permissions:" <= line.content ==> line.content[0] == 'p';
    assert IsOn(line.content) ==> line.content[0] == 'o' || line.content[0] == '"';
  }

  lemma OneTrigger(refs: Secrets, lines: seq<Line>, t: nat, i: nat)
    requires t < i < |lines| && Owner(lines, i) == Some(t) && OpensTriggers(lines[t]) && NamesTrigger(lines, i)
    ensures var f := Found(refs, lines, i);
      Found(refs, lines, i + 1) == f.(triggers := Join(f.triggers, TriggerAt(lines, i)))
  {
    hide JobAt, TriggerAt, PermissionOf, IsOn, OnValue;
    OpenersDiffer(lines[t]);
  }

  /** The next line, if there is one, is read at the top level. */
  ghost predicate Unclaimed(lines: seq<Line>, i: nat) { i < |lines| ==> AtTop(lines, i) }

  /** The top-level loop of `scan_workflow_text`: the cursors find every job and trigger of the file, each once and in order. */
  method ScanLines(refs: Secrets, lines: seq<Line>) returns (scan: Scan)
    ensures scan == Found(refs, lines, |lines|)
  {
    hide JobAt, TriggerAt, PermissionOf, PermissionNext, BlockEnd, IsOn, OnValue, Found, InlineList, Unquote, Owner, AtTop, Trim;
    scan := NothingYet(refs, lines);
    var index := 0;
    while index < |lines|
      invariant 0 <= index <= |lines|
      invariant scan == Found(refs, lines, index) && Unclaimed(lines, index)
    {
      var at, line := index, lines[index];
      OpenersDiffer(line);
      OneLine(refs, lines, at);
      scan := scan.(secrets := scan.secrets + refs(line.content));
      if line.indent == 0 && "permissions:" <= line.content {
        var permission, next := PermissionsAt(lines, at, 0, line.content[12..]);
        scan := scan.(permissions := Some(permission));
        index := next;
        UnclaimedBlock(refs, lines, at, index);
      } else if line.indent == 0 && IsOn(line.content) {
        var value := OnValue(line.content);
        if value != "" {
          var names := if InlineList(value).Some? then InlineList(value).value else [Unquote(value)];
          scan := scan.(triggers := Join(scan.triggers, Trigger(names, [], [])));
          index := index + 1;
        } else {
          scan, index := ScanTriggers(refs, lines, at, scan);
          BlockIsOver(lines, at, index);
        }
      } else if line.indent == 0 && line.content == "jobs:" {
        scan, index := ScanJobs(refs, lines, at, scan);
        BlockIsOver(lines, at, index);
      } else {
        index := index + 1;
      }
    }
  }

  lemma BlockIsOver(lines: seq<Line>, i: nat, next: nat)
    requires i < |lines| && next == BlockEnd(lines, i + 1, 0)
    ensures Unclaimed(lines, next)
  {
  }

  method NothingYet(refs: Secrets, lines: seq<Line>) returns (scan: Scan)
    ensures scan == Found(refs, lines, 0) && Unclaimed(lines, 0)
  {
    scan := Scan(Trigger([], [], []), [], None, {});
  }

  /** What one line gives by itself, and whom the next line belongs to. */
  lemma OneLine(refs: Secrets, lines: seq<Line>, i: nat)
    requires i < |lines| && Unclaimed(lines, i)
    ensures var line := lines[i];
      var f := Found(refs, lines, i).(secrets := Found(refs, lines, i).secrets + refs(line.content));
      Found(refs, lines, i + 1) ==
        if line.indent == 0 && "permissions:" <= line.content then
          f.(permissions := Some(PermissionOf(lines, i, 0, line.content[12..])))
        else if ListsTriggers(line) then
          var value := OnValue(line.content);
          f.(triggers := Join(f.triggers, Trigger(if InlineList(value).Some? then InlineList(value).value else [Unquote(value)], [], [])))
        else f
    ensures !OpensBlock(lines[i]) ==> Unclaimed(lines, i + 1)
  {
    hide JobAt, TriggerAt, PermissionOf, IsOn, OnValue, InlineList, Unquote;
    OpenersDiffer(lines[i]);
    var f := Found(refs, lines, i);
    assert f.jobs + [] == f.jobs;
    assert Join(f.triggers, Trigger([], [], [])) == f.triggers;
    assert !HeadsJob(lines, i) && !NamesTrigger(lines, i);
  }

  /** The lines that a permissions block consumes give nothing else. */
  lemma UnclaimedBlock(refs: Secrets, lines: seq<Line>, i: nat, next: nat)
    requires i < |lines| && lines[i].indent == 0
    requires "permissions:" <= lines[i].content && next == PermissionNext(lines, i, 0, lines[i].content[12..])
    ensures Found(refs, lines, next) == Found(refs, lines, i + 1) && Unclaimed(lines, next)
  {
    hide Found, IsOn, OnValue, Trim;
    OpenersDiffer(lines[i]);
    if OpensPermissions(lines[i]) {
      forall j | i < j < next ensures !HeadsJob(lines, j) && !NamesTrigger(lines, j) && !AtTop(lines, j) { OwnerInBlock(lines, i, j); }
      NothingFound(refs, lines, i + 1, next);
    } else if next < |lines| && lines[next].indent > 0 {
      OwnerInBlock(lines, i, next);
    }
  }

  /** No line lies in the bodies of two jobs: a body ends before the next head. */
  lemma BodiesDoNotOverlap(lines: seq<Line>, i: nat, j: nat)
    requires i < j < |lines| && HeadsJob(lines, i) && HeadsJob(lines, j)
    ensures BlockEnd(lines, i + 1, lines[i].indent) <= j
  {
    var s, t := Owner(lines, i).value, Owner(lines, j).value;
    if i < t {
      assert lines[t].indent <= lines[i].indent;
    } else {
      OwnerInBlock(lines, t, i);
      assert lines[j].indent == lines[i].indent;
    }
  }

  /** A body line that is not read lies in the block of a line that is: a deeper list, strategy or permissions line. */
  lemma UnreadLiesInABlock(lines: seq<Line>, i: nat, c: nat) returns (d: nat)
    requires i < c < |lines| && !Read(JobNext(lines), i, c)
    ensures i < d < c && Read(JobNext(lines), i, d) && lines[c].indent > lines[d].indent
    ensures var body := Body(lines[d].content); "runs-on:" <= body || "strategy:" <= body || "permissions:" <= body
  {
    d :| i < d < c && Read(JobNext(lines), i, d) && JobNext(lines)(d) > c;
  }

  // ------------------------------------------------------------------ whole text

  predicate CancelsLine(line: Line) {
    "cancel-in-progress:" <= line.content && Lower(Unquote(line.content[19..])) == "true"
  }

  predicate Cancels(lines: seq<Line>) { exists i :: 0 <= i < |lines| && CancelsLine(lines[i]) }

  datatype WorkflowFile = WorkflowFile(scan: Scan, cancels: bool)

  /** `scan_workflow_text`. */
  method ScanWorkflow(refs: Secrets, text: string) returns (file: WorkflowFile)
    ensures var lines := LinesOf(text); file == WorkflowFile(Found(refs, lines, |lines|), Cancels(lines))
  {
    var lines := PrepareLines(text);
    var scan := ScanLines(refs, lines);
    file := WorkflowFile(scan, Cancels(lines));
  }
}
