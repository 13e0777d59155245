/** Exactly what survives the config pass, key by key, in the keys and values of the document. */
module ConfigSurvivors {
  import opened Collections
  import opened Strings
  import opened TomlDocuments
  import opened ConfigSanitizer

  function After(p: Probes, doc: map<string, Value>): map<string, Value> { CleanEntries(TopRule(p), doc) }

  lemma AfterIsSanitized(p: Probes, doc: map<string, Value>)
    ensures Sanitized(p, Table(doc)) == Table(After(p, doc))
  {
  }

  /** The key survives with this value. */
  predicate Stays(now: Value, was: Value, key: string) {
    now.Table? && was.Table? && key in now.entries && key in was.entries && now.entries[key] == was.entries[key]
  }

  predicate Goes(now: Value, key: string) { now.Table? && key !in now.entries }

  /** Known sections survive; the six policy sections only as tables, and every other one unchanged. */
  lemma SectionsThatSurvive(p: Probes, doc: map<string, Value>, k: string)
    requires k in doc
    ensures k in After(p, doc) <==>
      || (k in {"review_profile", "profile", "repo", "review", "profiles", "lanes", "issues"})
      || (k in {"gate", "review_body", "impact", "tools", "proof", "providers"} && doc[k].Table?)
    ensures k in {"review_profile", "profile", "repo", "review", "profiles", "lanes", "issues"} ==> After(p, doc)[k] == doc[k]
    ensures k in After(p, doc) && doc[k].Table? ==> After(p, doc)[k].Table?
  {
    EntrySurvives(TopRule(p), doc, k);
    if k in {"gate", "review_body", "impact", "tools", "proof", "providers"} {
      SectionsNeedTables(p, k, doc[k]);
    } else {
      assert TopRule(p).clean(k, doc[k]) == RuleFor(p, k).clean(k, doc[k]);
      OthersAreKept(p, k, doc[k]);
    }
  }

  lemma SectionsNeedTables(p: Probes, k: string, v: Value)
    requires k in {"gate", "review_body", "impact", "tools", "proof", "providers"}
    ensures RuleFor(p, k).clean(k, v).Some? <==> v.Table?
    ensures v.Table? ==> RuleFor(p, k).clean(k, v).value.Table?
  {
  }

  lemma OthersAreKept(p: Probes, k: string, v: Value)
    requires k !in {"gate", "review_body", "impact", "tools", "proof", "providers"}
    ensures RuleFor(p, k).clean(k, v) ==
      if k in {"review_profile", "profile", "repo", "review", "profiles", "lanes", "issues"} then Some(v) else None
  {
    assert KeepIf(Anything).clean(k, v) == Some(v) && KeepIf(Nothing).clean(k, v) == None;
  }

  lemma EntrySurvives(rule: Rule, m: map<string, Value>, k: string)
    ensures k in CleanEntries(rule, m) <==> k in m && rule.clean(k, m[k]).Some?
    ensures k in CleanEntries(rule, m) ==> CleanEntries(rule, m)[k] == rule.clean(k, m[k]).value
  {
  }

  /** Of a gate every key survives that the gate policy reads by itself, except the removed synchronize mode. */
  lemma GateKeysThatSurvive(p: Probes, doc: map<string, Value>, key: string)
    requires "gate" in doc && doc["gate"].Table? && key in doc["gate"].entries
    ensures "gate" in After(p, doc)
    ensures if key != "synchronize_mode" && p.gate(key, doc["gate"].entries[key]) then Stays(After(p, doc)["gate"], doc["gate"], key)
            else Goes(After(p, doc)["gate"], key)
  {
    EntrySurvives(TopRule(p), doc, "gate");
  }

  lemma BodyKeysThatSurvive(p: Probes, doc: map<string, Value>, key: string)
    requires "review_body" in doc && doc["review_body"].Table? && key in doc["review_body"].entries
    ensures "review_body" in After(p, doc)
    ensures if p.reviewBody(key, doc["review_body"].entries[key]) then Stays(After(p, doc)["review_body"], doc["review_body"], key)
            else Goes(After(p, doc)["review_body"], key)
  {
    EntrySurvives(TopRule(p), doc, "review_body");
  }

  /** Of an impact section only a mode survives that is `shadow` or `active`. */
  lemma ImpactKeysThatSurvive(p: Probes, doc: map<string, Value>, key: string)
    requires "impact" in doc && doc["impact"].Table? && key in doc["impact"].entries
    ensures "impact" in After(p, doc)
    ensures var v := doc["impact"].entries[key];
      if key == "mode" && (v == Text("active") || v == Text("shadow")) then Stays(After(p, doc)["impact"], doc["impact"], key)
      else Goes(After(p, doc)["impact"], key)
  {
    EntrySurvives(TopRule(p), doc, "impact");
    SectionEntry(ImpactKey, doc["impact"].entries, key);
  }

  /** In a section whose keys are judged one by one, a key stays unchanged when it passes and goes when it does not. */
  lemma SectionEntry(keep: (string, Value) -> bool, m: map<string, Value>, key: string)
    requires key in m
    ensures var now := CleanEntries(KeepIf(keep), m);
      if keep(key, m[key]) then key in now && now[key] == m[key] else key !in now
  {
  }

  /** Of a tool that is a table, a key survives that is known and that the tool policy reads by itself. */
  lemma ToolKeysThatSurvive(p: Probes, doc: map<string, Value>, id: string, key: string)
    requires "tools" in doc && doc["tools"].Table? && id in doc["tools"].entries
    requires doc["tools"].entries[id].Table? && key in doc["tools"].entries[id].entries && key != "gate"
    ensures var tool := doc["tools"].entries[id];
      && "tools" in After(p, doc) && After(p, doc)["tools"].Table? && id in After(p, doc)["tools"].entries
      && var now := After(p, doc)["tools"].entries[id];
         if key in {"id", "command", "class", "weight", "default", "required", "timeout_sec", "artifact_budget_mb", "requires_lease",
                    "enabled", "phase"} && p.tool(key, tool.entries[key])
         then Stays(now, tool, key) else Goes(now, key)
  {
    ToolSurvives(p, doc, id);
    var tool := doc["tools"].entries[id];
    EntrySurvives(ByKey(k => ToolFor(p, k)), tool.entries, key);
    assert ToolFor(p, key).clean(key, tool.entries[key]) == if ToolKey(p, key, tool.entries[key]) then Some(tool.entries[key]) else None;
  }

  lemma ToolSurvives(p: Probes, doc: map<string, Value>, id: string)
    requires "tools" in doc && doc["tools"].Table? && id in doc["tools"].entries
    ensures "tools" in After(p, doc) && After(p, doc)["tools"].Table?
    ensures id in After(p, doc)["tools"].entries <==> doc["tools"].entries[id].Table?
    ensures doc["tools"].entries[id].Table? ==>
      After(p, doc)["tools"].entries[id] == Table(CleanEntries(ByKey(k => ToolFor(p, k)), doc["tools"].entries[id].entries))
  {
    EntrySurvives(TopRule(p), doc, "tools");
    EntrySurvives(ToolRule(p), doc["tools"].entries, id);
  }

  /** A key of a tool gate passes when the gate policy reads it by itself; a scope given as text must be `on-diff`. */
  predicate GateKeyPasses(p: Probes, key: string, v: Value) { p.toolGate(key, v) && (key == "scope" ==> v.Text? ==> v.text == "on-diff") }

  /** The gate of a tool survives when it is a table that was empty or keeps a key, and keeps exactly the keys that pass. */
  lemma ToolGateThatSurvives(p: Probes, doc: map<string, Value>, id: string)
    requires "tools" in doc && doc["tools"].Table? && id in doc["tools"].entries
    requires doc["tools"].entries[id].Table? && "gate" in doc["tools"].entries[id].entries
    ensures "tools" in After(p, doc) && After(p, doc)["tools"].Table? && id in After(p, doc)["tools"].entries
    ensures After(p, doc)["tools"].entries[id].Table?
    ensures var was, tool := doc["tools"].entries[id].entries["gate"], After(p, doc)["tools"].entries[id].entries;
      && ("gate" in tool <==> was.Table? && (was.entries == map[] || exists key :: key in was.entries && GateKeyPasses(p, key, was.entries[key])))
      && ("gate" in tool ==>
            && tool["gate"].Table? && tool["gate"].entries.Keys <= was.entries.Keys
            && forall key :: key in was.entries ==>
                 if GateKeyPasses(p, key, was.entries[key]) then Stays(tool["gate"], was, key) else Goes(tool["gate"], key))
  {
    ToolSurvives(p, doc, id);
    var tool := doc["tools"].entries[id];
    var was := tool.entries["gate"];
    EntrySurvives(ByKey(k => ToolFor(p, k)), tool.entries, "gate");
    assert ToolFor(p, "gate").clean("gate", was) == ShellOf(KeepIf((k, v) => ToolGateKey(p, k, v)), was);
    if was.Table? {
      var kept := CleanEntries(KeepIf((k, v) => ToolGateKey(p, k, v)), was.entries);
      forall key | key in was.entries
        ensures if GateKeyPasses(p, key, was.entries[key]) then key in kept && kept[key] == was.entries[key] else key !in kept
      {
        SectionEntry((k, v) => ToolGateKey(p, k, v), was.entries, key);
      }
      assert kept == map[] <==> forall key :: key in was.entries ==> key !in kept;
    }
  }

  /** A selector is a wildcard or a known word, in any case, with underscores for hyphens, and blanks around it. */
  predicate Selects(s: string, words: set<string>) {
    var t := Trim(s);
    exists w :: w in words + {"all", "any", "*"} && |w| == |t| &&
      forall k :: 0 <= k < |t| ==> w[k] == (if t[k] == '_' then '-' else LowerChar(t[k]))
  }

  /** A required proof passes when it reads, names a command, and selects only known classes and languages. */
  predicate ProofPasses(p: Probes, entry: Value) {
    p.proof(entry).Some? &&
    var q := p.proof(entry).value;
    && Trim(q.command) != ""
    && (forall n :: 0 <= n < |q.diffClasses| ==> Selects(q.diffClasses[n],
          {"source-ub", "source-general", "tests-only", "workflow/tooling", "docs-only", "artifact-only-smoke"}))
    && forall n :: 0 <= n < |q.languages| ==> Selects(q.languages[n],
         {"rust", "typescript", "javascript", "c-cpp", "zig", "go", "python", "shell", "yaml", "toml", "json", "markdown", "mixed"})
  }

  lemma SelectsExactlyWhenKnown(s: string, words: set<string>)
    ensures KnownSelector(s, words) <==> Selects(s, words)
  {
    var t, n := Trim(s), Normalize(s);
    assert |n| == |t| && forall k :: 0 <= k < |t| ==> n[k] == (if t[k] == '_' then '-' else LowerChar(t[k])) by {
      assert forall k :: 0 <= k < |t| ==> (LowerChar(t[k]) == '_' <==> t[k] == '_');
    }
    forall w: string | |w| == |t| && forall k :: 0 <= k < |t| ==> w[k] == (if t[k] == '_' then '-' else LowerChar(t[k])) ensures w == n {}
    if KnownSelector(s, words) { assert n in words + {"all", "any", "*"}; }
  }

  lemma ProofPassesExactlyWhen(p: Probes, entry: Value)
    ensures RequiredProof(p, entry) <==> ProofPasses(p, entry)
  {
    hide KnownSelector, Selects;
    if p.proof(entry).Some? {
      var q := p.proof(entry).value;
      forall n | 0 <= n < |q.diffClasses| ensures q.diffClasses[n] in q.diffClasses {}
      forall n | 0 <= n < |q.languages| ensures q.languages[n] in q.languages {}
      forall d ensures KnownSelector(d, KNOWN_DIFF_CLASSES) <==> Selects(d, KNOWN_DIFF_CLASSES) { SelectsExactlyWhenKnown(d, KNOWN_DIFF_CLASSES); }
      forall l ensures KnownSelector(l, KNOWN_LANGUAGES) <==> Selects(l, KNOWN_LANGUAGES) { SelectsExactlyWhenKnown(l, KNOWN_LANGUAGES); }
    }
  }

  /** Of a proof section only the array of required entries survives, with those that pass, in order. */
  lemma ProofsThatSurvive(p: Probes, doc: map<string, Value>)
    requires "proof" in doc && doc["proof"].Table?
    ensures "proof" in After(p, doc) && After(p, doc)["proof"].Table?
    ensures var was, now := doc["proof"].entries, After(p, doc)["proof"].entries;
      && now.Keys <= {"required"} && ("required" in now <==> "required" in was && was["required"].Array?)
      && ("required" in now ==> now["required"] == Array(Filter((entry: Value) => ProofPasses(p, entry), was["required"].items)))
  {
    EntrySurvives(TopRule(p), doc, "proof");
    var was := doc["proof"].entries;
    forall k | k in was ensures ProofFor(p, k).clean(k, was[k]).Some? <==> k == "required" && was[k].Array? {
      assert KeepIf(Nothing).clean(k, was[k]) == None;
    }
    if "required" in was && was["required"].Array? {
      var items := was["required"].items;
      forall entry | entry in items ensures RequiredProof(p, entry) <==> ProofPasses(p, entry) { ProofPassesExactlyWhen(p, entry); }
      FilterAgrees((v: Value) => RequiredProof(p, v), (entry: Value) => ProofPasses(p, entry), items);
    }
  }

  /** Of the providers a policy survives that names one, and a provider that is a table; in a provider every key survives but
      a concurrency that is not a positive integer and a cache mode that is unknown or not for this provider. */
  lemma ProvidersThatSurvive(p: Probes, doc: map<string, Value>, key: string)
    requires "providers" in doc && doc["providers"].Table? && key in doc["providers"].entries
    ensures "providers" in After(p, doc) && After(p, doc)["providers"].Table?
    ensures var v, now := doc["providers"].entries[key], After(p, doc)["providers"];
      && (key == "policy" ==> if v.Text? && p.provider(v.text) then Stays(now, doc["providers"], key) else Goes(now, key))
      && (key in {"minimax", "opencode"} ==> if v.Table? then key in now.entries && now.entries[key].Table? else Goes(now, key))
      && (key !in {"policy", "minimax", "opencode"} ==> Stays(now, doc["providers"], key))
  {
    EntrySurvives(TopRule(p), doc, "providers");
    EntrySurvives(ByKey(k => ProvidersFor(p, k)), doc["providers"].entries, key);
    assert KeepIf(Anything).clean(key, doc["providers"].entries[key]) == Some(doc["providers"].entries[key]);
  }

  lemma ProviderKeysThatSurvive(p: Probes, doc: map<string, Value>, provider: string, key: string)
    requires "providers" in doc && doc["providers"].Table? && provider in doc["providers"].entries && provider in {"minimax", "opencode"}
    requires doc["providers"].entries[provider].Table? && key in doc["providers"].entries[provider].entries
    ensures "providers" in After(p, doc) && After(p, doc)["providers"].Table? && provider in After(p, doc)["providers"].entries
    ensures var was, now := doc["providers"].entries[provider], After(p, doc)["providers"].entries[provider];
      var v := was.entries[key];
      if || (key == "max_concurrency" && !(v.Integer? && v.number >= 1))
         || (key == "prompt_cache" && !(provider == "minimax" && (v == Text("off") || v == Text("explicit-anthropic"))))
      then Goes(now, key) else Stays(now, was, key)
  {
    EntrySurvives(TopRule(p), doc, "providers");
    EntrySurvives(ByKey(k => ProvidersFor(p, k)), doc["providers"].entries, provider);
    SectionEntry((k, v) => ProviderKey(provider, k, v), doc["providers"].entries[provider].entries, key);
  }

  // ---------------------------------------------------------------- receipts

  /** A receipt names something that was there: a place that is gone, or an item of an array. */
  ghost predicate NamesALoss(r: Receipt, was: Value, now: Option<Value>) {
    && Lookup(was, r.path).Some?
    && (r.index.None? ==> now.None? || Lookup(now.value, r.path).None?)
    && (r.index.Some? ==> Lookup(was, r.path).value.Array? && r.index.value < |Lookup(was, r.path).value.items|)
  }

  ghost predicate PreciseAt(rule: Rule, k: string, v: Value) { forall r :: r in rule.lost(k, v) ==> NamesALoss(r, v, rule.clean(k, v)) }

  ghost predicate Precise(rule: Rule) { forall k: string, v: Value :: PreciseAt(rule, k, v) }

  lemma KeepIfIsPrecise(keep: (string, Value) -> bool)
    ensures Precise(KeepIf(keep))
  {
    forall k: string, v: Value ensures PreciseAt(KeepIf(keep), k, v) {}
  }

  lemma ItemsArePrecise(ok: Value -> bool)
    ensures Precise(Items(ok))
  {
    forall k: string, v: Value ensures PreciseAt(Items(ok), k, v) {}
  }

  lemma ByKeyIsPrecise(pick: string -> Rule)
    requires forall k: string :: Precise(pick(k))
    ensures Precise(ByKey(pick))
  {
    forall k: string, v: Value ensures PreciseAt(ByKey(pick), k, v) { assert PreciseAt(pick(k), k, v); }
  }

  lemma EntriesArePrecise(rule: Rule, m: map<string, Value>, r: Receipt)
    requires Precise(rule) && r in LostEntries(rule, m, m.Keys)
    ensures NamesALoss(r, Table(m), Some(Table(CleanEntries(rule, m)))) && r.path != []
  {
    var k :| k in m.Keys && r in LostAt(rule, m, k);
    var x :| x in rule.lost(k, m[k]) && r == Receipt([k] + x.path, x.index);
    assert PreciseAt(rule, k, m[k]);
    assert NamesALoss(x, m[k], rule.clean(k, m[k]));
    assert ([k] + x.path)[0] == k && ([k] + x.path)[1..] == x.path;
  }

  lemma SectionIsPrecise(rule: Rule)
    requires Precise(rule)
    ensures Precise(Section(rule)) && Precise(Shell(rule))
  {
    hide Precise, CleanEntries, LostEntries, NamesALoss;
    forall k: string, v: Value ensures PreciseAt(Section(rule), k, v) && PreciseAt(Shell(rule), k, v) { SectionIsPreciseAt(rule, k, v); }
    AllPrecise(Section(rule));
    AllPrecise(Shell(rule));
  }

  lemma AllPrecise(rule: Rule)
    requires forall k: string, v: Value :: PreciseAt(rule, k, v)
    ensures Precise(rule)
  {
  }

  lemma SectionIsPreciseAt(rule: Rule, k: string, v: Value)
    requires Precise(rule)
    ensures PreciseAt(Section(rule), k, v) && PreciseAt(Shell(rule), k, v)
  {
    hide Precise, CleanEntries, LostEntries;
    if v.Table? {
      forall r | r in LostEntries(rule, v.entries, v.entries.Keys) ensures NamesALoss(r, v, SectionOf(rule, v)) && NamesALoss(r, v, ShellOf(rule, v)) {
        EntriesArePrecise(rule, v.entries, r);
      }
    }
  }

  lemma RulesArePrecise(p: Probes, k: string)
    ensures Precise(RuleFor(p, k))
  {
    hide Precise, KeepIf, Section, Shell, Items, ByKey;
    KeepIfIsPrecise((key, v) => GateKey(p, key, v));
    SectionIsPrecise(KeepIf((key, v) => GateKey(p, key, v)));
    KeepIfIsPrecise(p.reviewBody);
    SectionIsPrecise(KeepIf(p.reviewBody));
    KeepIfIsPrecise(ImpactKey);
    SectionIsPrecise(KeepIf(ImpactKey));
    KeepIfIsPrecise(Anything);
    KeepIfIsPrecise(Nothing);
    ToolRulesArePrecise(p);
    OtherRulesArePrecise(p);
  }

  lemma ToolRulesArePrecise(p: Probes)
    ensures Precise(ToolsRule(p))
  {
    hide Precise, KeepIf, Section, Shell, ByKey;
    forall k: string ensures Precise(ToolFor(p, k)) {
      KeepIfIsPrecise((g, v) => ToolGateKey(p, g, v));
      SectionIsPrecise(KeepIf((g, v) => ToolGateKey(p, g, v)));
      KeepIfIsPrecise((key, v) => ToolKey(p, key, v));
    }
    ByKeyIsPrecise(k => ToolFor(p, k));
    SectionIsPrecise(ByKey(k => ToolFor(p, k)));
    SectionIsPrecise(ToolRule(p));
  }

  lemma OtherRulesArePrecise(p: Probes)
    ensures Precise(ProofRule(p)) && Precise(ProvidersRule(p))
  {
    hide Precise, KeepIf, Section, Items, ByKey;
    forall k: string ensures Precise(ProofFor(p, k)) {
      ItemsArePrecise(v => RequiredProof(p, v));
      KeepIfIsPrecise(Nothing);
    }
    ByKeyIsPrecise(k => ProofFor(p, k));
    SectionIsPrecise(ByKey(k => ProofFor(p, k)));
    forall k: string ensures Precise(ProvidersFor(p, k)) {
      KeepIfIsPrecise((key, v) => ProviderPolicy(p, v));
      KeepIfIsPrecise((key, v) => ProviderKey(k, key, v));
      SectionIsPrecise(KeepIf((key, v) => ProviderKey(k, key, v)));
      KeepIfIsPrecise(Anything);
    }
    ByKeyIsPrecise(k => ProvidersFor(p, k));
    SectionIsPrecise(ByKey(k => ProvidersFor(p, k)));
  }

  /** Every receipt of the pass names something the document had: a place that is gone afterwards, or an item of an array. */
  lemma ReceiptsNameLosses(p: Probes, doc: map<string, Value>, r: Receipt)
    requires r in Receipts(p, Table(doc))
    ensures NamesALoss(r, Table(doc), Some(Sanitized(p, Table(doc)))) && r.path != []
  {
    hide Precise, CleanEntries, LostEntries, NamesALoss, RuleFor;
    forall k: string ensures Precise(RuleFor(p, k)) { RulesArePrecise(p, k); }
    ByKeyIsPrecise(k => RuleFor(p, k));
    EntriesArePrecise(TopRule(p), doc, r);
  }
}
