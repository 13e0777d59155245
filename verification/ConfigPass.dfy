/** The pass itself: it removes keys from the parsed document in place and pushes one receipt for each (`src/config.rs`). */
module ConfigPass {
  import opened Collections
  import opened TomlDocuments
  import opened ConfigSanitizer

  // ------------------------------------------------------------------ receipts

  ghost function Prefixed(path: seq<string>, s: set<Receipt>): set<Receipt> {
    set r | r in s :: Receipt(path + r.path, r.index)
  }

  lemma PrefixedByNothing(s: set<Receipt>)
    ensures Prefixed([], s) == s
  {
    assert forall r: Receipt :: [] + r.path == r.path;
    assert forall r :: r in s ==> r in Prefixed([], s) by {
      assert forall r :: r in s ==> r == Receipt([] + r.path, r.index);
    }
  }

  /** `now` is `was` followed by the receipts of `s`, each once, in some order. */
  ghost predicate Adds(now: seq<Receipt>, was: seq<Receipt>, s: set<Receipt>) {
    && |now| == |was| + |s| && now[..|was|] == was
    && forall r :: r in s <==> exists i :: |was| <= i < |now| && now[i] == r
  }

  lemma AddsNothing(errors: seq<Receipt>, path: seq<string>)
    ensures Adds(errors, errors, Prefixed(path, {}))
  {
    assert Prefixed(path, {}) == {};
  }

  lemma AddsOne(errors: seq<Receipt>, path: seq<string>, index: Option<nat>)
    ensures Adds(errors + [Receipt(path, index)], errors, Prefixed(path, {Receipt([], index)}))
  {
    var s := {Receipt([], index)};
    assert Receipt([], index) in s && path + [] == path;
    assert forall r :: r in s ==> r == Receipt([], index);
    assert Prefixed(path, s) == {Receipt(path, index)};
    assert (errors + [Receipt(path, index)])[|errors|] == Receipt(path, index);
  }

  lemma AddsJoin(was: seq<Receipt>, mid: seq<Receipt>, now: seq<Receipt>, s: set<Receipt>, t: set<Receipt>)
    requires Adds(mid, was, s) && Adds(now, mid, t) && s !! t
    ensures Adds(now, was, s + t)
  {
    assert now[..|was|] == mid[..|was|];
    forall r ensures r in s + t <==> exists i :: |was| <= i < |now| && now[i] == r {
      if r in s { var i :| |was| <= i < |mid| && mid[i] == r; assert now[i] == r; }
      if i: int :| |was| <= i < |now| && now[i] == r && i < |mid| { assert mid[i] == r; }
    }
  }

  // ----------------------------------------------------------- a table half done

  ghost predicate Halfway(rule: Rule, m: map<string, Value>, pending: set<string>, t: map<string, Value>) {
    && pending <= m.Keys
    && t == map k | k in m && (k in pending || rule.clean(k, m[k]).Some?) :: if k in pending then m[k] else rule.clean(k, m[k]).value
  }

  ghost predicate Reported(rule: Rule, m: map<string, Value>, pending: set<string>, path: seq<string>, now: seq<Receipt>, was: seq<Receipt>) {
    Adds(now, was, Prefixed(path, LostEntries(rule, m, m.Keys - pending)))
  }

  function Put(t: map<string, Value>, k: string, v: Option<Value>): map<string, Value> {
    if v.None? then t - {k} else t[k := v.value]
  }

  lemma HalfwayStep(rule: Rule, m: map<string, Value>, pending: set<string>, t: map<string, Value>, k: string)
    requires Halfway(rule, m, pending, t) && k in pending
    ensures k in t && t[k] == m[k]
    ensures Halfway(rule, m, pending - {k}, Put(t, k, rule.clean(k, m[k])))
  {
  }

  lemma ReportedStep(rule: Rule, m: map<string, Value>, pending: set<string>, path: seq<string>, k: string,
                     now: seq<Receipt>, mid: seq<Receipt>, was: seq<Receipt>)
    requires k in pending && pending <= m.Keys
    requires Reported(rule, m, pending, path, mid, was)
    requires Adds(now, mid, Prefixed(path + [k], rule.lost(k, m[k])))
    ensures Reported(rule, m, pending - {k}, path, now, was)
  {
    hide Adds;
    var before, more := Prefixed(path, LostEntries(rule, m, m.Keys - pending)), Prefixed(path + [k], rule.lost(k, m[k]));
    LostByOneMore(rule, m, m.Keys - pending, path, k);
    assert (m.Keys - pending) + {k} == m.Keys - (pending - {k});
    AddsJoin(was, mid, now, before, more);
  }

  lemma LostByOneMore(rule: Rule, m: map<string, Value>, done: set<string>, path: seq<string>, k: string)
    requires done <= m.Keys && k in m && k !in done
    ensures Prefixed(path, LostEntries(rule, m, done + {k})) ==
      Prefixed(path, LostEntries(rule, m, done)) + Prefixed(path + [k], rule.lost(k, m[k]))
    ensures Prefixed(path, LostEntries(rule, m, done)) !! Prefixed(path + [k], rule.lost(k, m[k]))
  {
    var some, one := LostEntries(rule, m, done), LostAt(rule, m, k);
    assert LostEntries(rule, m, done + {k}) == some + one;
    forall r ensures r in Prefixed(path + [k], rule.lost(k, m[k])) <==> r in Prefixed(path, one) {
      assert forall q: Receipt :: path + [k] + q.path == path + ([k] + q.path);
      if r in Prefixed(path, one) {
        var o :| o in one && r == Receipt(path + o.path, o.index);
        var q :| q in rule.lost(k, m[k]) && o == Receipt([k] + q.path, q.index);
        assert r == Receipt(path + [k] + q.path, q.index);
      }
      if r in Prefixed(path + [k], rule.lost(k, m[k])) {
        var q :| q in rule.lost(k, m[k]) && r == Receipt(path + [k] + q.path, q.index);
        assert Receipt([k] + q.path, q.index) in one;
      }
    }
    assert Prefixed(path, some + one) == Prefixed(path, some) + Prefixed(path, one);
    assert forall r :: r in Prefixed(path, some) ==> |r.path| > |path| && r.path[|path|] in done;
    assert forall r :: r in Prefixed(path, one) ==> |r.path| > |path| && r.path[|path|] == k;
  }

  lemma HalfwayStart(rule: Rule, m: map<string, Value>, path: seq<string>, errors: seq<Receipt>)
    ensures Halfway(rule, m, m.Keys, m) && Reported(rule, m, m.Keys, path, errors, errors)
  {
    assert m.Keys - m.Keys == {};
    assert LostEntries(rule, m, {}) == {};
    AddsNothing(errors, path);
  }

  lemma HalfwayKeys(rule: Rule, m: map<string, Value>, pending: set<string>, t: map<string, Value>)
    requires Halfway(rule, m, pending, t)
    ensures pending <= t.Keys <= m.Keys
  {
  }

  lemma KnownLoseNothing(rule: Rule, m: map<string, Value>, sections: set<string>)
    requires sections <= KNOWN_TOP_LEVEL_KEYS
    requires forall k :: k in m && k in KNOWN_TOP_LEVEL_KEYS && k !in sections ==> rule.lost(k, m[k]) == {}
    ensures LostEntries(rule, m, m.Keys - m.Keys * KNOWN_TOP_LEVEL_KEYS) == LostEntries(rule, m, m.Keys - m.Keys * sections)
  {
    assert forall k :: k in m && k in KNOWN_TOP_LEVEL_KEYS && k !in sections ==> LostAt(rule, m, k) == {};
  }

  /** Known keys that no section names are left alone. */
  lemma KnownStay(p: Probes, m: map<string, Value>, sections: set<string>, t: map<string, Value>, errors: seq<Receipt>)
    requires sections == {"gate", "review_body", "impact", "tools", "proof", "providers"}
    requires Halfway(TopRule(p), m, m.Keys * KNOWN_TOP_LEVEL_KEYS, t)
    requires Reported(TopRule(p), m, m.Keys * KNOWN_TOP_LEVEL_KEYS, [], errors, [])
    ensures Halfway(TopRule(p), m, m.Keys * sections, t)
    ensures Reported(TopRule(p), m, m.Keys * sections, [], errors, [])
  {
    hide Adds, Prefixed, LostEntries, GateRule, ReviewBodyRule, ImpactRule, ToolsRule, ProofRule, ProvidersRule;
    var rule := TopRule(p);
    forall k: string | k in m && k in KNOWN_TOP_LEVEL_KEYS && k !in sections
      ensures rule.clean(k, m[k]) == Some(m[k]) && rule.lost(k, m[k]) == {}
    {
      assert Anything(k, m[k]);
    }
    KnownLoseNothing(rule, m, sections);
  }

  lemma HalfwayEnd(rule: Rule, m: map<string, Value>, t: map<string, Value>, path: seq<string>, now: seq<Receipt>, was: seq<Receipt>)
    requires Halfway(rule, m, {}, t) && Reported(rule, m, {}, path, now, was)
    ensures t == CleanEntries(rule, m) && Adds(now, was, Prefixed(path, LostEntries(rule, m, m.Keys)))
  {
    assert m.Keys - {} == m.Keys;
  }

  // ------------------------------------------------------------------ the pass

  class Pass {
    const p: Probes
    var table: map<string, Value>
    var errors: seq<Receipt>

    constructor (p: Probes, table: map<string, Value>)
      ensures this.p == p && this.table == table && errors == []
    {
      this.p, this.table, errors := p, table, [];
    }

    /** The loop of every section whose keys are judged one by one: a key that fails leaves the table with a receipt. */
    method StripKeys(path: seq<string>, m: map<string, Value>, keep: (string, Value) -> bool) returns (t: map<string, Value>)
      modifies this`errors
      ensures t == CleanEntries(KeepIf(keep), m)
      ensures Adds(errors, old(errors), Prefixed(path, LostEntries(KeepIf(keep), m, m.Keys)))
    {
      hide Adds, Halfway, Reported, Prefixed, LostEntries, CleanEntries;
      ghost var rule := KeepIf(keep);
      t := m;
      HalfwayStart(rule, m, path, errors);
      var pending := m.Keys;
      while pending != {}
        invariant pending <= m.Keys && Halfway(rule, m, pending, t) && Reported(rule, m, pending, path, errors, old(errors))
      {
        var k :| k in pending;
        HalfwayStep(rule, m, pending, t, k);
        ghost var mid := errors;
        AddsNothing(errors, path + [k]);
        AddsOne(errors, path + [k], None);
        if !keep(k, m[k]) {
          errors := errors + [Receipt(path + [k], None)];
          t := t - {k};
        } else {
          t := t[k := m[k]];
        }
        ReportedStep(rule, m, pending, path, k, errors, mid, old(errors));
        pending := pending - {k};
      }
      HalfwayEnd(rule, m, t, path, errors, old(errors));
    }

    /** A value that must be a table of judged keys. */
    method StripTable(path: seq<string>, v: Value, keep: (string, Value) -> bool) returns (now: Option<Value>)
      modifies this`errors
      ensures now == SectionOf(KeepIf(keep), v)
      ensures Adds(errors, old(errors), Prefixed(path, LostIn(KeepIf(keep), v)))
    {
      hide Adds, Prefixed, LostEntries, CleanEntries;
      if !v.Table? {
        AddsOne(errors, path, None);
        errors := errors + [Receipt(path, None)];
        return None;
      }
      var t := StripKeys(path, v.entries, keep);
      now := Some(Table(t));
    }

    /** `sanitize_tool_gate_value`: a gate that loses every key is dropped. */
    method SanitizeToolGate(path: seq<string>, gate: Value) returns (now: Option<Value>)
      modifies this`errors
      ensures now == ToolGateRule(p).clean("gate", gate)
      ensures Adds(errors, old(errors), Prefixed(path, ToolGateRule(p).lost("gate", gate)))
    {
      hide Adds, Prefixed, LostEntries, CleanEntries;
      now := StripTable(path, gate, (k, v) => ToolGateKey(p, k, v));
      if gate.Table? && now.value.entries == map[] && gate.entries != map[] { now := None; }
    }

    /** One `[tools.<id>]` table. */
    method SanitizeTool(path: seq<string>, tool: Value) returns (now: Option<Value>)
      modifies this`errors
      ensures now == ToolRule(p).clean("", tool)
      ensures Adds(errors, old(errors), Prefixed(path, ToolRule(p).lost("", tool)))
    {
      hide Adds, Halfway, Reported, Prefixed, LostEntries, CleanEntries, ToolGateRule;
      if !tool.Table? {
        AddsOne(errors, path, None);
        errors := errors + [Receipt(path, None)];
        return None;
      }
      ghost var rule := ByKey(k => ToolFor(p, k));
      var m := tool.entries;
      var t := m;
      HalfwayStart(rule, m, path, errors);
      var pending := m.Keys;
      while pending != {}
        invariant pending <= m.Keys && Halfway(rule, m, pending, t) && Reported(rule, m, pending, path, errors, old(errors))
      {
        var k :| k in pending;
        HalfwayStep(rule, m, pending, t, k);
        ghost var mid := errors;
        AddsNothing(errors, path + [k]);
        AddsOne(errors, path + [k], None);
        if k == "gate" {
          var gate := SanitizeToolGate(path + [k], m[k]);
          t := Put(t, k, gate);
        } else if k !in KNOWN_TOOL_POLICY_KEYS || !p.tool(k, m[k]) {
          errors := errors + [Receipt(path + [k], None)];
          t := t - {k};
        } else {
          t := t[k := m[k]];
        }
        ReportedStep(rule, m, pending, path, k, errors, mid, old(errors));
        pending := pending - {k};
      }
      HalfwayEnd(rule, m, t, path, errors, old(errors));
      now := Some(Table(t));
    }

    /** `sanitize_tools_section`. */
    method SanitizeTools(path: seq<string>, tools: Value) returns (now: Option<Value>)
      modifies this`errors
      ensures now == ToolsRule(p).clean("tools", tools)
      ensures Adds(errors, old(errors), Prefixed(path, ToolsRule(p).lost("tools", tools)))
    {
      hide Adds, Halfway, Reported, Prefixed, LostEntries, CleanEntries, ByKey;
      if !tools.Table? {
        AddsOne(errors, path, None);
        errors := errors + [Receipt(path, None)];
        return None;
      }
      ghost var rule := ToolRule(p);
      var m := tools.entries;
      var t := m;
      HalfwayStart(rule, m, path, errors);
      var pending := m.Keys;
      while pending != {}
        invariant pending <= m.Keys && Halfway(rule, m, pending, t) && Reported(rule, m, pending, path, errors, old(errors))
      {
        var id :| id in pending;
        HalfwayStep(rule, m, pending, t, id);
        ghost var mid := errors;
        var tool := SanitizeTool(path + [id], m[id]);
        t := Put(t, id, tool);
        ReportedStep(rule, m, pending, path, id, errors, mid, old(errors));
        pending := pending - {id};
      }
      HalfwayEnd(rule, m, t, path, errors, old(errors));
      now := Some(Table(t));
    }

    /** The entries of `[[proof.required]]`, each validated with its place. */
    method SanitizeRequired(path: seq<string>, required: Value) returns (now: Option<Value>)
      modifies this`errors
      ensures now == RequiredRule(p).clean("required", required)
      ensures Adds(errors, old(errors), Prefixed(path, RequiredRule(p).lost("required", required)))
    {
      hide Adds, Prefixed, RequiredProof, Filter;
      if !required.Array? {
        AddsOne(errors, path, None);
        errors := errors + [Receipt(path, None)];
        return None;
      }
      ghost var ok := (v: Value) => RequiredProof(p, v);
      var kept: seq<Value> := [];
      var items := required.items;
      NoItemsLost(ok, items, path, errors);
      for i := 0 to |items|
        invariant kept == Filter(ok, items[..i])
        invariant Adds(errors, old(errors), Prefixed(path, LostBelow(ok, items, i)))
      {
        FilterAppend(ok, items[..i], [items[i]]);
        assert items[..i + 1] == items[..i] + [items[i]];
        FilterOne(ok, items[i]);
        AddsOne(errors, path, Some(i));
        OneItemLost(ok, items, i, path, errors, old(errors));
        if RequiredProof(p, items[i]) {
          kept := kept + [items[i]];
        } else {
          errors := errors + [Receipt(path, Some(i))];
        }
      }
      assert items[..|items|] == items;
      assert LostBelow(ok, items, |items|) == LostItems(ok, items);
      now := Some(Array(kept));
    }

    /** `sanitize_proof_section`. */
    method SanitizeProof(path: seq<string>, proof: Value) returns (now: Option<Value>)
      modifies this`errors
      ensures now == ProofRule(p).clean("proof", proof)
      ensures Adds(errors, old(errors), Prefixed(path, ProofRule(p).lost("proof", proof)))
    {
      hide Adds, Halfway, Reported, Prefixed, LostEntries, CleanEntries, RequiredRule;
      if !proof.Table? {
        AddsOne(errors, path, None);
        errors := errors + [Receipt(path, None)];
        return None;
      }
      ghost var rule := ByKey(k => ProofFor(p, k));
      var m := proof.entries;
      var t := m;
      HalfwayStart(rule, m, path, errors);
      var pending := m.Keys;
      while pending != {}
        invariant pending <= m.Keys && Halfway(rule, m, pending, t) && Reported(rule, m, pending, path, errors, old(errors))
      {
        var k :| k in pending;
        HalfwayStep(rule, m, pending, t, k);
        ghost var mid := errors;
        AddsOne(errors, path + [k], None);
        if k == "required" {
          var required := SanitizeRequired(path + [k], m[k]);
          t := Put(t, k, required);
        } else {
          assert !Nothing(k, m[k]);
          errors := errors + [Receipt(path + [k], None)];
          t := t - {k};
        }
        ReportedStep(rule, m, pending, path, k, errors, mid, old(errors));
        pending := pending - {k};
      }
      HalfwayEnd(rule, m, t, path, errors, old(errors));
      now := Some(Table(t));
    }

    /** The keys of one provider, when its table is there. */
    method SanitizeProvider(path: seq<string>, provider: string, v: Value) returns (now: Option<Value>)
      modifies this`errors
      ensures now == ProviderRule(provider).clean(provider, v)
      ensures Adds(errors, old(errors), Prefixed(path, ProviderRule(provider).lost(provider, v)))
    {
      hide Adds, Prefixed, LostEntries, CleanEntries;
      now := StripTable(path, v, (key, w) => ProviderKey(provider, key, w));
    }

    /** `sanitize_providers_section`. */
    method SanitizeProviders(path: seq<string>, providers: Value) returns (now: Option<Value>)
      modifies this`errors
      ensures now == ProvidersRule(p).clean("providers", providers)
      ensures Adds(errors, old(errors), Prefixed(path, ProvidersRule(p).lost("providers", providers)))
    {
      hide Adds, Halfway, Reported, Prefixed, LostEntries, CleanEntries, ProviderRule;
      if !providers.Table? {
        AddsOne(errors, path, None);
        errors := errors + [Receipt(path, None)];
        return None;
      }
      ghost var rule := ByKey(k => ProvidersFor(p, k));
      var m := providers.entries;
      var t := m;
      HalfwayStart(rule, m, path, errors);
      var pending := m.Keys;
      while pending != {}
        invariant pending <= m.Keys && Halfway(rule, m, pending, t) && Reported(rule, m, pending, path, errors, old(errors))
      {
        var k :| k in pending;
        HalfwayStep(rule, m, pending, t, k);
        ghost var mid := errors;
        AddsNothing(errors, path + [k]);
        AddsOne(errors, path + [k], None);
        if k == "policy" {
          if !ProviderPolicy(p, m[k]) {
            errors := errors + [Receipt(path + [k], None)];
            t := t - {k};
          } else {
            t := t[k := m[k]];
          }
        } else if k == "minimax" || k == "opencode" {
          var provider := SanitizeProvider(path + [k], k, m[k]);
          t := Put(t, k, provider);
        } else {
          assert Anything(k, m[k]);
          t := t[k := m[k]];
        }
        ReportedStep(rule, m, pending, path, k, errors, mid, old(errors));
        pending := pending - {k};
      }
      HalfwayEnd(rule, m, t, path, errors, old(errors));
      now := Some(Table(t));
    }

    /** The top-level keys that no part of the config knows. */
    method StripUnknown(ghost m: map<string, Value>)
      requires table == m && errors == []
      modifies this
      ensures Halfway(TopRule(p), m, m.Keys * KNOWN_TOP_LEVEL_KEYS, table)
      ensures Reported(TopRule(p), m, m.Keys * KNOWN_TOP_LEVEL_KEYS, [], errors, [])
    {
      hide Adds, Halfway, Reported, Prefixed, LostEntries, CleanEntries;
      ghost var rule := TopRule(p);
      ghost var known := m.Keys * KNOWN_TOP_LEVEL_KEYS;
      HalfwayStart(rule, m, [], errors);
      var unknown := table.Keys - KNOWN_TOP_LEVEL_KEYS;
      assert known + unknown == m.Keys;
      while unknown != {}
        invariant unknown !! KNOWN_TOP_LEVEL_KEYS && unknown <= m.Keys
        invariant Halfway(rule, m, known + unknown, table) && Reported(rule, m, known + unknown, [], errors, [])
      {
        var k :| k in unknown;
        HalfwayStep(rule, m, known + unknown, table, k);
        ghost var mid := errors;
        assert [] + [k] == [k] && !Nothing(k, m[k]);
        AddsOne(errors, [k], None);
        errors := errors + [Receipt([k], None)];
        table := table - {k};
        ReportedStep(rule, m, known + unknown, [], k, errors, mid, []);
        assert known + unknown - {k} == known + (unknown - {k});
        unknown := unknown - {k};
      }
      assert known + {} == known;
    }

    /** One section by its name, when the document has it. */
    method SanitizeSection(k: string, ghost m: map<string, Value>, ghost pending: set<string>, ghost was: seq<Receipt>)
      requires k in {"gate", "review_body", "impact", "tools", "proof", "providers"}
      requires k in pending <==> k in table
      requires pending <= m.Keys && Halfway(TopRule(p), m, pending, table) && Reported(TopRule(p), m, pending, [], errors, was)
      modifies this
      ensures Halfway(TopRule(p), m, pending - {k}, table) && Reported(TopRule(p), m, pending - {k}, [], errors, was)
      ensures pending - {k} <= table.Keys <= m.Keys
    {
      hide Adds, Halfway, Reported, Prefixed, LostEntries, CleanEntries, ToolsRule, ProofRule, ProvidersRule;
      HalfwayKeys(TopRule(p), m, pending, table);
      if k !in table {
        assert pending - {k} == pending;
        return;
      }
      HalfwayStep(TopRule(p), m, pending, table, k);
      ghost var mid := errors;
      assert [] + [k] == [k];
      var now: Option<Value>;
      match k {
        case "gate" => now := StripTable(["gate"], table["gate"], (key, v) => GateKey(p, key, v));
        case "review_body" => now := StripTable(["review_body"], table["review_body"], p.reviewBody);
        case "impact" => now := StripTable(["impact"], table["impact"], ImpactKey);
        case "tools" => now := SanitizeTools(["tools"], table["tools"]);
        case "proof" => now := SanitizeProof(["proof"], table["proof"]);
        case "providers" => now := SanitizeProviders(["providers"], table["providers"]);
      }
      table := Put(table, k, now);
      ReportedStep(TopRule(p), m, pending, [], k, errors, mid, was);
      HalfwayKeys(TopRule(p), m, pending - {k}, table);
    }

    /** `sanitize_policy_sections` on a document that is a table. */
    method SanitizePolicySections()
      requires errors == []
      modifies this
      ensures Table(table) == Sanitized(p, Table(old(table)))
      ensures Adds(errors, [], Receipts(p, Table(old(table))))
    {
      hide Adds, Halfway, Reported, Prefixed, LostEntries, CleanEntries, RuleFor;
      ghost var m := table;
      ghost var rule := TopRule(p);
      ghost var sections := {"gate", "review_body", "impact", "tools", "proof", "providers"};
      HalfwayStart(rule, m, [], errors);
      StripUnknown(m);
      KnownStay(p, m, sections, table, errors);
      HalfwayKeys(rule, m, m.Keys * sections, table);
      SanitizeSection("gate", m, m.Keys * sections, []);
      SanitizeSection("review_body", m, m.Keys * sections - {"gate"}, []);
      SanitizeSection("impact", m, m.Keys * sections - {"gate"} - {"review_body"}, []);
      SanitizeSection("tools", m, m.Keys * sections - {"gate"} - {"review_body"} - {"impact"}, []);
      SanitizeSection("proof", m, m.Keys * sections - {"gate"} - {"review_body"} - {"impact"} - {"tools"}, []);
      SanitizeSection("providers", m, m.Keys * sections - {"gate"} - {"review_body"} - {"impact"} - {"tools"} - {"proof"}, []);
      assert m.Keys * sections - {"gate"} - {"review_body"} - {"impact"} - {"tools"} - {"proof"} - {"providers"} == {};
      HalfwayEnd(rule, m, table, [], errors, []);
      PrefixedByNothing(LostEntries(rule, m, m.Keys));
    }
  }

  function LostBelow(ok: Value -> bool, items: seq<Value>, n: nat): set<Receipt>
    requires n <= |items|
  {
    set i: nat | i < n && !ok(items[i]) :: Receipt([], Some(i))
  }

  lemma NoItemsLost(ok: Value -> bool, items: seq<Value>, path: seq<string>, errors: seq<Receipt>)
    ensures Adds(errors, errors, Prefixed(path, LostBelow(ok, items, 0)))
  {
    assert LostBelow(ok, items, 0) == {};
    AddsNothing(errors, path);
  }

  lemma OneItemLost(ok: Value -> bool, items: seq<Value>, i: nat, path: seq<string>, mid: seq<Receipt>, was: seq<Receipt>)
    requires i < |items| && Adds(mid, was, Prefixed(path, LostBelow(ok, items, i)))
    ensures Adds(if ok(items[i]) then mid else mid + [Receipt(path, Some(i))], was, Prefixed(path, LostBelow(ok, items, i + 1)))
  {
    hide Adds;
    var some := LostBelow(ok, items, i);
    if ok(items[i]) {
      assert LostBelow(ok, items, i + 1) == some;
    } else {
      var one := {Receipt([], Some(i))};
      assert LostBelow(ok, items, i + 1) == some + one;
      assert Prefixed(path, some + one) == Prefixed(path, some) + Prefixed(path, one);
      assert forall r :: r in Prefixed(path, some) ==> r.index != Some(i);
      assert forall r :: r in Prefixed(path, one) ==> r.index == Some(i);
      AddsOne(mid, path, Some(i));
      AddsJoin(was, mid, mid + [Receipt(path, Some(i))], Prefixed(path, some), Prefixed(path, one));
    }
  }
}
