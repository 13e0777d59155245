/** The packet of `scripts/reconcile-task-projections.py`: bounded reads, bounded issue and observation sets, and the
    bookkeeping that keeps every failure visible. */
module TaskPacket {
  import opened Collections

  const MAX_FILE_BYTES: nat := 4 * 1024 * 1024
  const MAX_INPUT_BYTES: nat := 32 * 1024 * 1024
  const MAX_INPUT_FILES: nat := 256
  const MAX_ISSUES: nat := 256

  type Issue = (string, string, string)

  /** What a packet path leads to. `UnsafePath` covers rejected names and symlinks. */
  datatype File = UnsafePath | NotRegular | Regular(size: nat, wellFormed: bool)

  datatype ReadResult = Raised | Missing | Content(bytes: nat)

  predicate Blank(s: string) { forall ch :: ch in s ==> ch in {' ', '\t', '\n', '\r'} }

  predicate ValidId(id: Option<string>) { id.Some? && !Blank(id.value) }

  predicate UniqueIds(ids: seq<Option<string>>) {
    (forall id :: id in ids ==> ValidId(id)) && Distinct(ids)
  }

  function Least(a: nat, b: nat): nat { if a < b then a else b }

  class Packet {
    const files: map<string, File>
    const safeLabel: string -> string
    var raw: map<string, Option<nat>>
    var total: nat
    var issues: set<Issue>
    var overflow: bool
    var observations: set<Issue>
    var observationsOverflow: bool
    var inputUnavailable: bool
    ghost var bytesRead: nat

    constructor (files: map<string, File>, safeLabel: string -> string)
      ensures Valid() && Clean() && this.files == files && this.safeLabel == safeLabel
    {
      this.files, this.safeLabel := files, safeLabel;
      raw, total, bytesRead := map[], 0, 0;
      issues, observations := {}, {};
      overflow, observationsOverflow, inputUnavailable := false, false, false;
    }

    /** Every budget holds, every byte read is charged, and an unavailable input is never silent. */
    ghost predicate Valid()
      reads this
    {
      && |issues| <= MAX_ISSUES && |observations| <= MAX_ISSUES && |raw| <= MAX_INPUT_FILES
      && bytesRead == total <= MAX_INPUT_BYTES + 1
      && (forall name :: name in raw && raw[name].Some? ==> raw[name].value <= MAX_FILE_BYTES)
      && (inputUnavailable ==> !Clean())
    }

    /** No issue has been raised, retained or not. */
    predicate Clean()
      reads this
    {
      issues == {} && !overflow
    }

    method RaiseIssue(code: string, path: string, identity: string)
      requires Valid()
      modifies `issues, `overflow
      ensures Valid() && !Clean() && old(issues) <= issues && (old(overflow) ==> overflow)
      ensures (code, safeLabel(path), safeLabel(identity)) in issues || overflow
    {
      var row := (code, safeLabel(path), safeLabel(identity));
      if row in issues { return; }
      if |issues| < MAX_ISSUES { issues := issues + {row}; } else { overflow := true; }
    }

    method Observe(code: string, path: string, identity: string)
      requires Valid()
      modifies `observations, `observationsOverflow
      ensures Valid()
    {
      var row := (code, safeLabel(path), safeLabel(identity));
      if row in observations { return; }
      if |observations| < MAX_ISSUES { observations := observations + {row}; } else { observationsOverflow := true; }
    }

    /** Raises `code` unless `ok`. */
    method Demand(ok: bool, code: string, path: string, identity: string)
      requires Valid()
      modifies `issues, `overflow
      ensures Valid() && (Clean() <==> old(Clean()) && ok)
    {
      if !ok { RaiseIssue(code, path, identity); }
    }

    /** Raises `code` and marks the input unavailable unless `ok`. */
    method DemandInput(ok: bool, code: string, path: string, identity: string)
      requires Valid()
      modifies `issues, `overflow, `inputUnavailable
      ensures Valid() && (Clean() <==> old(Clean()) && ok)
    {
      if !ok {
        RaiseIssue(code, path, identity);
        inputUnavailable := true;
      }
    }

    /** `read`: at most one byte past the remaining budget is ever taken, and then only once. */
    method Read(name: string, required: bool) returns (r: ReadResult)
      requires Valid()
      modifies `raw, `total, `bytesRead, `issues, `overflow
      ensures Valid() && (old(!Clean()) ==> !Clean())
      ensures old(total) > MAX_INPUT_BYTES ==> total == old(total)
      ensures r.Content? ==> r.bytes <= MAX_FILE_BYTES && name in raw && raw[name] == Some(r.bytes)
      ensures r.Missing? && required ==> !Clean()
      ensures name !in old(raw) && r.Content? ==> old(total) + r.bytes == total <= MAX_INPUT_BYTES
    {
      if name in raw {
        if raw[name].None? {
          if required { RaiseIssue("missing_projection", name, ""); }
          return Missing;
        }
        return Content(raw[name].value);
      }
      if |raw| >= MAX_INPUT_FILES { return Raised; }
      raw := raw[name := None];
      if name !in files {
        if required { RaiseIssue("missing_projection", name, ""); }
        return Missing;
      }
      if !files[name].Regular? || total >= MAX_INPUT_BYTES { return Raised; }
      var taken := Least(files[name].size, Least(MAX_FILE_BYTES, MAX_INPUT_BYTES - total) + 1);
      total := total + taken;
      bytesRead := bytesRead + taken;
      if taken > MAX_FILE_BYTES || total > MAX_INPUT_BYTES { return Raised; }
      raw := raw[name := Some(taken)];
      r := Content(taken);
    }

    /** `load`: an input that cannot be read or parsed leaves an issue behind. */
    method Load(name: string, required: bool) returns (loaded: bool)
      requires Valid()
      modifies `raw, `total, `bytesRead, `issues, `overflow, `inputUnavailable
      ensures Valid() && (old(!Clean()) ==> !Clean())
      ensures loaded ==> name in files && files[name].Regular? && files[name].wellFormed
      ensures !loaded && required ==> !Clean()
    {
      var r := Read(name, required);
      loaded := false;
      match r
      case Missing =>
      case Raised => DemandInput(false, "invalid_projection", name, "");
      case Content(_) =>
        loaded := name in files && files[name].Regular? && files[name].wellFormed;
        DemandInput(loaded, "invalid_projection", name, "");
    }

    /** `index`: the first row of each identity; bad and repeated identities are issues. */
    method Index(ids: seq<Option<string>>, path: string) returns (first: map<string, nat>)
      requires Valid()
      modifies `issues, `overflow
      ensures Valid() && (Clean() <==> old(Clean()) && UniqueIds(ids))
      ensures forall id :: id in first ==> first[id] < |ids| && ids[first[id]] == Some(id)
      ensures forall i :: 0 <= i < |ids| && ValidId(ids[i]) ==> ids[i].value in first && first[ids[i].value] <= i
    {
      first := map[];
      for i := 0 to |ids|
        invariant Valid() && (Clean() <==> old(Clean()) && UniqueIds(ids[..i]))
        invariant forall id :: id in first ==> first[id] < i && ids[first[id]] == Some(id)
        invariant forall k :: 0 <= k < i && ValidId(ids[k]) ==> ids[k].value in first && first[ids[k].value] <= k
      {
        assert ids[..i + 1] == ids[..i] + [ids[i]];
        UniqueStep(ids[..i], ids[i]);
        if !ValidId(ids[i]) {
          RaiseIssue("invalid_identity", path, "");
        } else if ids[i].value in first {
          assert ids[..i][first[ids[i].value]] == ids[i];
          RaiseIssue("duplicate_identity", path, ids[i].value);
        } else {
          assert ids[i] !in ids[..i];
          first := first[ids[i].value := i];
        }
      }
      assert ids[..|ids|] == ids;
    }
  }

  lemma UniqueStep(ids: seq<Option<string>>, id: Option<string>)
    ensures UniqueIds(ids + [id]) <==> UniqueIds(ids) && ValidId(id) && id !in ids
  {
    var all := ids + [id];
    assert all[|ids|] == id;
    assert forall x :: x in all <==> x in ids || x == id;
    if Distinct(all) {
      forall i, j | 0 <= i < j < |ids| ensures ids[i] != ids[j] { assert all[i] != all[j]; }
      forall i | 0 <= i < |ids| ensures ids[i] != id { assert all[i] != all[|ids|]; }
    }
  }
}
