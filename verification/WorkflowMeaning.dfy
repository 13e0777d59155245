/** What a scanned job and a scanned trigger say, in terms of the lines that are read for them: which line each field
    comes from. */
module WorkflowMeaning {
  import opened Collections
  import opened Strings
  import opened YamlLines
  import opened MatrixSize
  import opened WorkflowScan

  function Undashed(content: string): string { if |content| >= 2 && content[0] == '-' && content[1] == ' ' then content[2..] else content }

  lemma UndashedIsBody(content: string)
    ensures Undashed(content) == Body(content)
  {
  }

  // The keys of a job body exclude each other.
  lemma KeysExclude(body: string)
    ensures "runs-on:" <= body ==> body[0] == 'r'
    ensures "strategy:" <= body ==> body[0] == 's' && body[1] == 't'
    ensures "timeout-minutes:" <= body ==> body[0] == 't'
    ensures "uses:" <= body ==> body[0] == 'u'
    ensures "permissions:" <= body ==> body[0] == 'p'
    ensures "secrets:" <= body ==> body[0] == 's' && body[1] == 'e'
    ensures "name:" <= body ==> body[0] == 'n'
    ensures "- " <= body ==> body[0] == '-'
  {
    assert "strategy:"[1] == 't' && "secrets:"[1] == 'e';
    assert "strategy:" <= body ==> body[1] == "strategy:"[1];
    assert "secrets:" <= body ==> body[1] == "secrets:"[1];
  }

  /** Every key acts on its own field, and a line has at most one. */
  lemma LineSays(refs: Secrets, lines: seq<Line>, c: nat, job: Job)
    requires c < |lines|
    ensures var r, body, indent := JobLine(refs, lines, c, job), Undashed(lines[c].content), lines[c].indent;
      && r.id == job.id
      && r.runsOn == job.runsOn + (if "runs-on:" <= body then ListItems(lines, c, indent, body[8..]) else [])
      && r.matrixSize == (if "strategy:" <= body then StrategyOf(lines, c, indent, body[9..]).size else job.matrixSize)
      && r.gaps == job.gaps + (if "strategy:" <= body then StrategyOf(lines, c, indent, body[9..]).gaps else [])
      && r.timeout == (if "timeout-minutes:" <= body && ParseU64(Trim(body[16..])).Some? then ParseU64(Trim(body[16..])) else job.timeout)
      && r.uses == job.uses + (if "uses:" <= body && Unquote(body[5..]) != "" then [Unquote(body[5..])] else [])
      && r.permissions == (if "permissions:" <= body then Some(PermissionOf(lines, c, indent, body[12..])) else job.permissions)
      && r.secrets == job.secrets + refs(body) + (if "secrets:" <= body && Lower(Unquote(body[8..])) == "inherit" then {"inherit"} else {})
      && r.name == if job.name.None? && "name:" <= lines[c].content && Unquote(lines[c].content[5..]) != ""
                   then Some(Unquote(lines[c].content[5..])) else job.name
  {
    hide ListItems, StrategyOf, PermissionOf, ParseU64, Trim, Unquote, Lower;
    UndashedIsBody(lines[c].content);
    KeysExclude(Body(lines[c].content));
    KeysExclude(lines[c].content);
  }

  // ------------------------------------------------------------- a whole job

  /** The last value given at a place from `lo` up to `hi`. */
  function Latest<T>(at: nat -> Option<T>, lo: nat, hi: nat): (r: Option<T>)
    ensures r.None? <==> forall c: nat :: lo <= c < hi ==> at(c).None?
    ensures r.Some? ==> exists c: nat :: lo <= c < hi && at(c) == r && forall d: nat :: c < d < hi ==> at(d).None?
    decreases hi
  {
    if hi <= lo then None else if at(hi - 1).Some? then at(hi - 1) else Latest(at, lo, hi - 1)
  }

  /** The first one. */
  function Earliest<T>(at: nat -> Option<T>, lo: nat, hi: nat): (r: Option<T>)
    ensures r.None? <==> forall c: nat :: lo <= c < hi ==> at(c).None?
    ensures r.Some? ==> exists c: nat :: lo <= c < hi && at(c) == r && forall d: nat :: lo <= d < c ==> at(d).None?
    decreases hi
  {
    if hi <= lo then None else if Earliest(at, lo, hi - 1).Some? then Earliest(at, lo, hi - 1) else at(hi - 1)
  }

  /** Everything given, in order. */
  function Gathered<T>(at: nat -> seq<T>, lo: nat, hi: nat): (r: seq<T>)
    ensures forall x :: x in r ==> exists c: nat :: lo <= c < hi && x in at(c)
    ensures forall c: nat, x :: lo <= c < hi && x in at(c) ==> x in r
    decreases hi
  {
    if hi <= lo then [] else Gathered(at, lo, hi - 1) + at(hi - 1)
  }

  /** The key of a line that is read for the job of line `i`, and what follows it. */
  function After(lines: seq<Line>, i: nat, c: nat, key: string): Option<string> {
    if i < c < |lines| && Read(JobNext(lines), i, c) && key <= Undashed(lines[c].content)
    then Some(Undashed(lines[c].content)[|key|..]) else None
  }

  function Timeout(lines: seq<Line>, i: nat): nat -> Option<nat> {
    (c: nat) => var v := After(lines, i, c, "timeout-minutes:"); if v.Some? then ParseU64(Trim(v.value)) else None
  }

  function Permissions(lines: seq<Line>, i: nat): nat -> Option<Permission> {
    (c: nat) =>
      var v := After(lines, i, c, "permissions:");
      if c < |lines| && v.Some? then Some(PermissionOf(lines, c, lines[c].indent, v.value)) else None
  }

  function Strategy(lines: seq<Line>, i: nat): nat -> Option<Sized> {
    (c: nat) =>
      var v := After(lines, i, c, "strategy:");
      if c < |lines| && v.Some? then Some(StrategyOf(lines, c, lines[c].indent, v.value)) else None
  }

  function Gaps(lines: seq<Line>, i: nat): nat -> seq<Gap> {
    (c: nat) => if Strategy(lines, i)(c).Some? then Strategy(lines, i)(c).value.gaps else []
  }

  /** A name is not blank, and its line has no dash. */
  function Name(lines: seq<Line>, i: nat): nat -> Option<string> {
    (c: nat) =>
      if i < c < |lines| && Read(JobNext(lines), i, c) && "name:" <= lines[c].content && Unquote(lines[c].content[5..]) != ""
      then Some(Unquote(lines[c].content[5..])) else None
  }

  function RunsOn(lines: seq<Line>, i: nat): nat -> seq<string> {
    (c: nat) =>
      var v := After(lines, i, c, "runs-on:");
      if c < |lines| && v.Some? then ListItems(lines, c, lines[c].indent, v.value) else []
  }

  function Uses(lines: seq<Line>, i: nat): nat -> seq<string> {
    (c: nat) => var v := After(lines, i, c, "uses:"); if v.Some? && Unquote(v.value) != "" then [Unquote(v.value)] else []
  }

  predicate Secret(refs: Secrets, lines: seq<Line>, i: nat, c: int, secret: string) {
    i < c < |lines| && Read(JobNext(lines), i, c) &&
    var body := Undashed(lines[c].content);
    secret in refs(body) || (secret == "inherit" && "secrets:" <= body && Lower(Unquote(body[8..])) == "inherit")
  }

  /** The job of line `i`, from the lines before `n` that are read: the last timeout that is a number, the last permissions, the
      size of the last strategy, the first name that is not blank, and every runner, action, gap and secret. */
  ghost predicate Says(refs: Secrets, lines: seq<Line>, i: nat, n: nat, job: Job) {
    SaysValues(lines, i, n, job) && SaysLists(lines, i, n, job) && SaysSecrets(refs, lines, i, n, job)
  }

  predicate SaysValues(lines: seq<Line>, i: nat, n: nat, job: Job) {
    && job.timeout == Latest(Timeout(lines, i), i + 1, n)
    && job.permissions == Latest(Permissions(lines, i), i + 1, n)
    && (var s := Latest(Strategy(lines, i), i + 1, n); job.matrixSize == if s.Some? then s.value.size else 1)
    && job.name == Earliest(Name(lines, i), i + 1, n)
  }

  predicate SaysLists(lines: seq<Line>, i: nat, n: nat, job: Job) {
    && job.gaps == Gathered(Gaps(lines, i), i + 1, n)
    && job.runsOn == Gathered(RunsOn(lines, i), i + 1, n)
    && job.uses == Gathered(Uses(lines, i), i + 1, n)
  }

  ghost predicate SaysSecrets(refs: Secrets, lines: seq<Line>, i: nat, n: nat, job: Job) {
    forall secret :: secret in job.secrets <==> exists c :: c < n && Secret(refs, lines, i, c, secret)
  }

  /** What the places of line `c` hold, when it is read and when it is not. */
  lemma PlacesOf(lines: seq<Line>, i: nat, c: nat)
    requires i < c < |lines|
    ensures var body, indent, read := Undashed(lines[c].content), lines[c].indent, Read(JobNext(lines), i, c);
      && Timeout(lines, i)(c) == (if read && "timeout-minutes:" <= body then ParseU64(Trim(body[16..])) else None)
      && Permissions(lines, i)(c) == (if read && "permissions:" <= body then Some(PermissionOf(lines, c, indent, body[12..])) else None)
      && Strategy(lines, i)(c) == (if read && "strategy:" <= body then Some(StrategyOf(lines, c, indent, body[9..])) else None)
      && Gaps(lines, i)(c) == (if read && "strategy:" <= body then StrategyOf(lines, c, indent, body[9..]).gaps else [])
      && RunsOn(lines, i)(c) == (if read && "runs-on:" <= body then ListItems(lines, c, indent, body[8..]) else [])
      && Uses(lines, i)(c) == (if read && "uses:" <= body && Unquote(body[5..]) != "" then [Unquote(body[5..])] else [])
  {
    hide Read, ParseU64, Trim, Unquote, ListItems, StrategyOf, PermissionOf, Undashed;
  }

  lemma SaysMoreValues(refs: Secrets, lines: seq<Line>, i: nat, c: nat, job: Job)
    requires i < c < |lines| && SaysValues(lines, i, c, job)
    ensures SaysValues(lines, i, c + 1, if Read(JobNext(lines), i, c) then JobLine(refs, lines, c, job) else job)
  {
    hide JobLine, Read, ParseU64, Trim, Unquote, Lower, ListItems, StrategyOf, PermissionOf, Undashed, Timeout, Permissions, Strategy;
    PlacesOf(lines, i, c);
    LineSays(refs, lines, c, job);
  }

  lemma SaysMoreLists(refs: Secrets, lines: seq<Line>, i: nat, c: nat, job: Job)
    requires i < c < |lines| && SaysLists(lines, i, c, job)
    ensures SaysLists(lines, i, c + 1, if Read(JobNext(lines), i, c) then JobLine(refs, lines, c, job) else job)
  {
    hide JobLine, Read, ParseU64, Trim, Unquote, Lower, ListItems, StrategyOf, PermissionOf, Undashed, Gaps, RunsOn, Uses;
    PlacesOf(lines, i, c);
    LineSays(refs, lines, c, job);
    var next := if Read(JobNext(lines), i, c) then JobLine(refs, lines, c, job) else job;
    assert job.gaps + [] == job.gaps && job.runsOn + [] == job.runsOn && job.uses + [] == job.uses;
  }

  lemma SaysMoreSecrets(refs: Secrets, lines: seq<Line>, i: nat, c: nat, job: Job)
    requires i < c < |lines| && SaysSecrets(refs, lines, i, c, job)
    ensures SaysSecrets(refs, lines, i, c + 1, if Read(JobNext(lines), i, c) then JobLine(refs, lines, c, job) else job)
  {
    hide JobLine, Read, ParseU64, Trim, Unquote, Lower, ListItems, StrategyOf, PermissionOf, Undashed;
    LineSays(refs, lines, c, job);
    var next := if Read(JobNext(lines), i, c) then JobLine(refs, lines, c, job) else job;
    forall secret ensures secret in next.secrets <==> exists d :: d < c + 1 && Secret(refs, lines, i, d, secret) {
      assert secret in next.secrets <==> secret in job.secrets || Secret(refs, lines, i, c, secret);
    }
  }

  lemma {:induction false} JobSaysItsLines(refs: Secrets, lines: seq<Line>, i: nat, n: nat)
    requires i < n <= |lines|
    ensures Says(refs, lines, i, n, JobTo(refs, lines, i, n))
  {
    hide JobLine, Read, SaysValues, SaysLists, SaysSecrets;
    if n == i + 1 {
      NothingSaid(refs, lines, i);
    } else {
      var job := JobTo(refs, lines, i, n - 1);
      JobSaysItsLines(refs, lines, i, n - 1);
      SaysMoreValues(refs, lines, i, n - 1, job);
      SaysMoreLists(refs, lines, i, n - 1, job);
      SaysMoreSecrets(refs, lines, i, n - 1, job);
    }
  }

  lemma NothingSaid(refs: Secrets, lines: seq<Line>, i: nat)
    requires i < |lines|
    ensures Says(refs, lines, i, i + 1, EmptyJob(Unquote(TrimColons(lines[i].content))))
  {
  }

  // ---------------------------------------------------------------- a trigger

  /** The items under a key of a line that is read for the trigger of line `i`. */
  function Under(lines: seq<Line>, i: nat, key: string): nat -> seq<string> {
    (c: nat) =>
      if i < c < |lines| && Read(BranchNext(lines), i, c) && key <= lines[c].content
      then ListItems(lines, c, lines[c].indent, lines[c].content[|key|..]) else []
  }

  lemma BranchKeysExclude(content: string)
    ensures "branches:" <= content ==> content[0] == 'b'
    ensures "paths:" <= content ==> content[0] == 'p' && content[5] == ':'
    ensures "paths-ignore:" <= content ==> content[0] == 'p' && content[5] == '-'
  {
    assert "paths:"[5] == ':' && "paths-ignore:"[5] == '-';
    assert "paths:" <= content ==> content[5] == "paths:"[5];
    assert "paths-ignore:" <= content ==> content[5] == "paths-ignore:"[5];
  }

  /** The branches and paths of a trigger are all those under the three keys, in order. */
  lemma {:induction false} BranchesSayTheirLines(lines: seq<Line>, i: nat, n: nat)
    requires i < n <= |lines|
    ensures var b := BranchesTo(lines, i, n);
      && b.branches == Gathered(Under(lines, i, "branches:"), i + 1, n)
      && b.paths == Gathered(Under(lines, i, "paths:"), i + 1, n)
      && b.ignored == Gathered(Under(lines, i, "paths-ignore:"), i + 1, n)
  {
    hide Read, ListItems;
    if n > i + 1 {
      BranchesSayTheirLines(lines, i, n - 1);
      BranchKeysExclude(lines[n - 1].content);
      var b := BranchesTo(lines, i, n - 1);
      assert b.branches + [] == b.branches && b.paths + [] == b.paths && b.ignored + [] == b.ignored;
    }
  }

  /** A trigger is named by its key, once for each of its branches, or alone when it has none. */
  lemma TriggerIsNamed(lines: seq<Line>, i: nat)
    requires i < |lines|
    ensures var t, branches := TriggerAt(lines, i), Gathered(Under(lines, i, "branches:"), i + 1, BlockEnd(lines, i + 1, lines[i].indent));
      var key := Unquote(BeforeColon(lines[i].content));
      if branches == [] then t.names == [key]
      else |t.names| == |branches| && forall k :: 0 <= k < |branches| ==> t.names[k] == key + ":" + branches[k]
  {
    hide Unquote, BeforeColon, BranchesTo, Gathered;
    BranchesSayTheirLines(lines, i, BlockEnd(lines, i + 1, lines[i].indent));
    NamedEach(Unquote(BeforeColon(lines[i].content)), BranchesTo(lines, i, BlockEnd(lines, i + 1, lines[i].indent)).branches);
  }

  lemma {:induction false} NamedEach(key: string, branches: seq<string>)
    ensures |Named(key, branches)| == |branches| && forall k :: 0 <= k < |branches| ==> Named(key, branches)[k] == key + ":" + branches[k]
  {
    if branches != [] { NamedEach(key, branches[..|branches| - 1]); }
  }

  // ----------------------------------------------------------- the whole file

  /** The jobs of a file are those of the lines that head one, in order. */
  lemma {:induction false} JobsAreTheHeads(refs: Secrets, lines: seq<Line>, n: nat)
    requires n <= |lines|
    ensures AllJobs(refs, lines, n) == Gathered(JobOf(refs, lines), 0, n)
  {
    hide HeadsJob, JobAt;
    if n > 0 { JobsAreTheHeads(refs, lines, n - 1); }
  }

  function JobOf(refs: Secrets, lines: seq<Line>): nat -> seq<Job> {
    (c: nat) => if c < |lines| && HeadsJob(lines, c) then [JobAt(refs, lines, c)] else []
  }
}
