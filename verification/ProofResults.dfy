/** `proof_result_consistent` (`scripts/reconcile-task-projections.py`): whether the aggregate result of a proof
    receipt fits the command sides that produced it. */
module ProofResults {
  import opened Collections

  datatype Command = Command(side: Option<string>, status: Option<string>, duration: Option<int>)

  /** `None` stands for a missing or wrongly typed field. */
  datatype Proof = Proof(
    id: Option<string>, schemaKnown: bool, kind: Option<string>, result: Option<string>, mode: Option<string>,
    revision: Option<string>, requestIds: Option<seq<string>>, requestedBy: Option<seq<string>>, commands: seq<Command>)

  datatype PacketKind = Review | Worker

  const STATUSES := {"passed", "failed", "timed_out", "skipped"}

  /** The `sides` table of the first `n` commands: later ones overwrite earlier ones of the same side. */
  function SideTable(commands: seq<Command>, n: nat): map<string, Option<string>>
    requires n <= |commands|
  {
    if n == 0 then map[]
    else
      var t := SideTable(commands, n - 1);
      var c := commands[n - 1];
      if c.side.Some? then t[c.side.value := c.status] else t
  }

  function Sides(commands: seq<Command>): map<string, Option<string>> { SideTable(commands, |commands|) }

  predicate SidesKnown(commands: seq<Command>) {
    var t := Sides(commands);
    commands != [] && |t| == |commands| && "head" in t
    && forall s :: s in t ==> t[s].Some? && t[s].value in STATUSES
  }

  predicate WorkerConsistent(p: Proof, sides: set<string>, head: string, result: string) {
    && p.mode == Some("head-only") && sides == {"head", "nightly-preflight"}
    && if result == "skipped_unresolved" then head == "skipped"
       else result == if head == "failed" && p.kind == Some("sanitizer-witness") then "sanitizer_ub_detected" else head
  }

  predicate BaseConsistent(base: string, result: string) {
    || (base == "failed" && result == "discriminating")
    || (base == "passed" && result == "non_discriminating")
    || (base == "timed_out" && result == "timed_out")
    || (base == "skipped" && result in {"skipped_profile", "base_patch_failed"})
  }

  predicate Consistent(p: Proof, kind: PacketKind) {
    SidesKnown(p.commands) && p.result.Some? && p.kind.Some? &&
    var t := Sides(p.commands);
    var head, result, sides := t["head"].value, p.result.value, t.Keys;
    if kind.Worker? then WorkerConsistent(p, sides, head, result)
    else if p.kind.value !in {"focused-head", "focused-build", "focused-red-green"} then false
    else if head != "passed" then
      sides == {"head"} &&
      (|| (head == "failed" && result == "head_failed") || (head == "timed_out" && result == "timed_out")
       || (head == "skipped" && result in {"skipped_profile", "skipped_budget"}))
    else if p.kind.value in {"focused-head", "focused-build"} then
      p.mode == Some("head-only") && sides == {"head"} && result == "head_passed"
    else
      p.mode == Some("base-plus-tests") && sides == {"head", "base-plus-tests"} && BaseConsistent(t["base-plus-tests"].value, result)
  }

  predicate Ran(c: Command) { c.status in {Some("passed"), Some("failed"), Some("timed_out")} }

  lemma {:induction false} TableHasCommand(commands: seq<Command>, n: nat, side: string)
    requires n <= |commands| && side in SideTable(commands, n)
    ensures exists c :: c in commands && c.side == Some(side) && c.status == SideTable(commands, n)[side]
  {
    assert commands[n - 1] in commands;
    if commands[n - 1].side != Some(side) { TableHasCommand(commands, n - 1, side); }
  }

  /** A passing result is earned: the head side passed, every side ran, and a discriminating
      receipt also shows its tests failing on the base. */
  lemma PassingIsEarned(p: Proof)
    requires Consistent(p, Review) && p.result.value in {"head_passed", "discriminating"}
    ensures exists c :: c in p.commands && c.side == Some("head") && c.status == Some("passed")
    ensures p.result.value == "discriminating" ==>
      exists c :: c in p.commands && c.side == Some("base-plus-tests") && c.status == Some("failed")
    ensures forall c :: c in p.commands ==> Ran(c)
  {
    TableHasCommand(p.commands, |p.commands|, "head");
    if p.result.value == "discriminating" { TableHasCommand(p.commands, |p.commands|, "base-plus-tests"); }
    forall c | c in p.commands ensures Ran(c) { TableIsExact(p.commands, c); }
  }

  /** With as many sides as commands, each command is the entry of its side. */
  lemma TableIsExact(commands: seq<Command>, c: Command)
    requires |Sides(commands)| == |commands| && c in commands
    ensures c.side.Some? && c.side.value in Sides(commands) && Sides(commands)[c.side.value] == c.status
  {
    TableSize(commands, |commands|);
    var i :| 0 <= i < |commands| && commands[i] == c;
    TableKeeps(commands, |commands|, i);
  }

  predicate SidesDiffer(commands: seq<Command>, n: nat)
    requires n <= |commands|
  {
    && (forall i :: 0 <= i < n ==> commands[i].side.Some?)
    && (forall i, j :: 0 <= i < j < n ==> commands[i].side != commands[j].side)
  }

  lemma {:induction false} TableSize(commands: seq<Command>, n: nat)
    requires n <= |commands|
    ensures forall i :: 0 <= i < n && commands[i].side.Some? ==> commands[i].side.value in SideTable(commands, n)
    ensures |SideTable(commands, n)| <= n
    ensures |SideTable(commands, n)| == n ==> SidesDiffer(commands, n)
  {
    if n > 0 {
      var t, c := SideTable(commands, n - 1), commands[n - 1];
      TableSize(commands, n - 1);
      if c.side.Some? {
        assert SideTable(commands, n).Keys == t.Keys + {c.side.value};
        assert |SideTable(commands, n).Keys| == |t.Keys| + if c.side.value in t then 0 else 1;
      }
    }
  }

  lemma {:induction false} TableKeeps(commands: seq<Command>, n: nat, i: nat)
    requires i < n <= |commands| && SidesDiffer(commands, n)
    ensures commands[i].side.value in SideTable(commands, n)
    ensures SideTable(commands, n)[commands[i].side.value] == commands[i].status
  {
    if i < n - 1 { TableKeeps(commands, n - 1, i); }
  }

  // ------------------------------------------------- which results are earned

  /** What a receipt may say: for these kinds, in this mode (`None`: any), with these sides (`None`: no base side). */
  datatype Outcome = Outcome(kinds: set<string>, mode: Option<string>, head: string, base: Option<string>, result: string)

  const OUTCOMES := [
    Outcome({"focused-head", "focused-build", "focused-red-green"}, None, "failed", None, "head_failed"),
    Outcome({"focused-head", "focused-build", "focused-red-green"}, None, "timed_out", None, "timed_out"),
    Outcome({"focused-head", "focused-build", "focused-red-green"}, None, "skipped", None, "skipped_profile"),
    Outcome({"focused-head", "focused-build", "focused-red-green"}, None, "skipped", None, "skipped_budget"),
    Outcome({"focused-head", "focused-build"}, Some("head-only"), "passed", None, "head_passed"),
    Outcome({"focused-red-green"}, Some("base-plus-tests"), "passed", Some("failed"), "discriminating"),
    Outcome({"focused-red-green"}, Some("base-plus-tests"), "passed", Some("passed"), "non_discriminating"),
    Outcome({"focused-red-green"}, Some("base-plus-tests"), "passed", Some("timed_out"), "timed_out"),
    Outcome({"focused-red-green"}, Some("base-plus-tests"), "passed", Some("skipped"), "skipped_profile"),
    Outcome({"focused-red-green"}, Some("base-plus-tests"), "passed", Some("skipped"), "base_patch_failed")]

  predicate Ended(commands: seq<Command>, side: string, status: string) {
    exists c :: c in commands && c.side == Some(side) && c.status == Some(status)
  }

  /** The receipt has exactly the commands of the outcome, and says its result. */
  predicate Shows(p: Proof, o: Outcome) {
    && p.kind.Some? && p.kind.value in o.kinds && (o.mode.Some? ==> p.mode == o.mode) && p.result == Some(o.result)
    && |p.commands| == (if o.base.None? then 1 else 2) && Ended(p.commands, "head", o.head)
    && (o.base.Some? ==> Ended(p.commands, "base-plus-tests", o.base.value))
  }

  lemma HeadAlone(commands: seq<Command>, head: string)
    requires head in STATUSES
    ensures |commands| == 1 && Ended(commands, "head", head) <==>
      SidesKnown(commands) && Sides(commands).Keys == {"head"} && Sides(commands)["head"] == Some(head)
  {
    if |commands| == 1 && Ended(commands, "head", head) {
      assert SideTable(commands, 0) == map[];
      assert Sides(commands) == map["head" := Some(head)];
    }
    if SidesKnown(commands) && Sides(commands).Keys == {"head"} && Sides(commands)["head"] == Some(head) {
      TableHasCommand(commands, |commands|, "head");
      assert |Sides(commands)| == |Sides(commands).Keys| == 1;
    }
  }

  lemma HeadAndBase(commands: seq<Command>, head: string, base: string)
    requires head in STATUSES && base in STATUSES
    ensures |commands| == 2 && Ended(commands, "head", head) && Ended(commands, "base-plus-tests", base) <==>
      && SidesKnown(commands) && Sides(commands).Keys == {"head", "base-plus-tests"}
      && Sides(commands)["head"] == Some(head) && Sides(commands)["base-plus-tests"] == Some(base)
  {
    if |commands| == 2 && Ended(commands, "head", head) && Ended(commands, "base-plus-tests", base) {
      var a, b := commands[0], commands[1];
      assert commands == [a, b];
      assert SideTable(commands, 0) == map[];
      assert SideTable(commands, 1) == map[a.side.value := a.status];
      assert Sides(commands) == map[a.side.value := a.status][b.side.value := b.status];
      assert Sides(commands) == map["head" := Some(head), "base-plus-tests" := Some(base)];
    }
    if SidesKnown(commands) && Sides(commands).Keys == {"head", "base-plus-tests"} && Sides(commands)["head"] == Some(head)
       && Sides(commands)["base-plus-tests"] == Some(base) {
      TableHasCommand(commands, |commands|, "head");
      TableHasCommand(commands, |commands|, "base-plus-tests");
      assert |Sides(commands)| == |Sides(commands).Keys| == 2;
    }
  }

  lemma ShownIsConsistent(p: Proof, n: nat)
    requires n < |OUTCOMES| && Shows(p, OUTCOMES[n])
    ensures Consistent(p, Review)
  {
    hide Sides, SidesKnown, Ended;
    var o := OUTCOMES[n];
    if o.base.None? { HeadAlone(p.commands, o.head); } else { HeadAndBase(p.commands, o.head, o.base.value); }
  }

  lemma ConsistentIsShown(p: Proof) returns (n: nat)
    requires Consistent(p, Review)
    ensures n < |OUTCOMES| && Shows(p, OUTCOMES[n])
  {
    hide Sides, SidesKnown, Ended;
    var t, result := Sides(p.commands), p.result.value;
    var head := HeadStatus(p);
    if head != "passed" {
      n := if head == "failed" then 0 else if head == "timed_out" then 1 else if result == "skipped_profile" then 2 else 3;
      HeadAlone(p.commands, head);
    } else if p.kind.value in {"focused-head", "focused-build"} {
      n := 4;
      HeadAlone(p.commands, head);
    } else {
      var base := BaseStatus(p);
      n := if base == "failed" then 5 else if base == "passed" then 6 else if base == "timed_out" then 7
           else if result == "skipped_profile" then 8 else 9;
      HeadAndBase(p.commands, head, base);
    }
  }

  lemma HeadStatus(p: Proof) returns (head: string)
    requires SidesKnown(p.commands)
    ensures "head" in Sides(p.commands) && Sides(p.commands)["head"] == Some(head) && head in STATUSES
  {
    head := Sides(p.commands)["head"].value;
  }

  lemma BaseStatus(p: Proof) returns (base: string)
    requires SidesKnown(p.commands) && "base-plus-tests" in Sides(p.commands)
    ensures Sides(p.commands)["base-plus-tests"] == Some(base) && base in STATUSES
  {
    base := Sides(p.commands)["base-plus-tests"].value;
  }

  /** A review receipt is consistent exactly when it shows one of the ten outcomes: its head command alone, or head and base
      together, ended as its result claims, in the mode of its kind. */
  lemma ConsistentExactlyWhenShown(p: Proof)
    ensures Consistent(p, Review) <==> exists o :: o in OUTCOMES && Shows(p, o)
  {
    hide Consistent, Shows;
    if Consistent(p, Review) {
      var n := ConsistentIsShown(p);
      assert OUTCOMES[n] in OUTCOMES;
    }
    if exists o :: o in OUTCOMES && Shows(p, o) {
      var o :| o in OUTCOMES && Shows(p, o);
      var n :| 0 <= n < |OUTCOMES| && OUTCOMES[n] == o;
      ShownIsConsistent(p, n);
    }
  }
}
