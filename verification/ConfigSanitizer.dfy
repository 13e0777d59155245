/** The strip-and-receipt pass over the policy sections of a parsed config document (`src/config.rs`). */
module ConfigSanitizer {
  import opened Collections
  import opened Strings
  import opened TomlDocuments

  const KNOWN_TOP_LEVEL_KEYS := {
    "review_profile", "profile", "repo", "review", "review_body", "gate", "proof", "profiles", "tools", "lanes", "issues",
    "providers", "impact"}
  const KNOWN_TOOL_POLICY_KEYS := {
    "id", "command", "class", "weight", "default", "required", "timeout_sec", "artifact_budget_mb", "requires_lease",
    "enabled", "phase", "gate"}
  const KNOWN_TOOL_GATE_SCOPES := {"on-diff"}
  const WILDCARDS := {"*", "any", "all"}
  const KNOWN_DIFF_CLASSES := {"source-ub", "source-general", "tests-only", "workflow/tooling", "docs-only", "artifact-only-smoke"}
  const KNOWN_LANGUAGES := {
    "rust", "typescript", "javascript", "c-cpp", "zig", "go", "python", "shell", "yaml", "toml", "json", "markdown", "mixed"}

  datatype ProofPolicy = ProofPolicy(command: string, diffClasses: seq<string>, languages: seq<string>)

  /** Which single-key tables deserialize into each policy type, which provider policies exist, and how a proof entry reads. */
  datatype Probes = Probes(
    gate: (string, Value) -> bool, reviewBody: (string, Value) -> bool, tool: (string, Value) -> bool,
    toolGate: (string, Value) -> bool, provider: string -> bool, proof: Value -> Option<ProofPolicy>)

  // ----------------------------------------------------------------- selectors

  function Normalize(s: string): string {
    var t := Lower(Trim(s));
    seq(|t|, i requires 0 <= i < |t| => if t[i] == '_' then '-' else t[i])
  }

  predicate KnownSelector(value: string, known: set<string>) { Normalize(value) in WILDCARDS || Normalize(value) in known }

  // --------------------------------------------------------- what each key must be

  predicate GateKey(p: Probes, k: string, v: Value) { k != "synchronize_mode" && p.gate(k, v) }

  predicate ImpactKey(k: string, v: Value) { k == "mode" && (v == Text("shadow") || v == Text("active")) }

  predicate ToolGateKey(p: Probes, k: string, v: Value) {
    p.toolGate(k, v) && (k == "scope" && v.Text? ==> v.text in KNOWN_TOOL_GATE_SCOPES)
  }

  predicate ToolKey(p: Probes, k: string, v: Value) { k in KNOWN_TOOL_POLICY_KEYS && p.tool(k, v) }

  predicate ProviderKey(provider: string, k: string, v: Value) {
    && (k == "max_concurrency" ==> v.Integer? && v.number > 0)
    && (k == "prompt_cache" ==> provider == "minimax" && (v == Text("explicit-anthropic") || v == Text("off")))
  }

  predicate ProviderPolicy(p: Probes, v: Value) { v.Text? && p.provider(v.text) }

  predicate RequiredProof(p: Probes, entry: Value) {
    match p.proof(entry)
    case None => false
    case Some(policy) =>
      && Trim(policy.command) != ""
      && (forall d :: d in policy.diffClasses ==> KnownSelector(d, KNOWN_DIFF_CLASSES))
      && (forall l :: l in policy.languages ==> KnownSelector(l, KNOWN_LANGUAGES))
  }

  /** Every section of the document passes its own validation. */
  ghost predicate Valid(p: Probes, doc: map<string, Value>) {
    && doc.Keys <= KNOWN_TOP_LEVEL_KEYS
    && ("gate" in doc ==> Keys(doc["gate"], (k, v) => GateKey(p, k, v)))
    && ("review_body" in doc ==> Keys(doc["review_body"], p.reviewBody))
    && ("impact" in doc ==> Keys(doc["impact"], ImpactKey))
    && ("tools" in doc ==> Keys(doc["tools"], (id, tool) => ValidTool(p, tool)))
    && ("proof" in doc ==> Keys(doc["proof"], (k, v) => k == "required" && ValidRequired(p, v)))
    && ("providers" in doc ==> Keys(doc["providers"], (k, v) => ValidProvider(p, k, v)))
  }

  ghost predicate Keys(v: Value, ok: (string, Value) -> bool) {
    v.Table? && forall k :: k in v.entries ==> ok(k, v.entries[k])
  }

  ghost predicate ValidTool(p: Probes, tool: Value) {
    Keys(tool, (k, v) => if k == "gate" then Keys(v, (g, w) => ToolGateKey(p, g, w)) else ToolKey(p, k, v))
  }

  ghost predicate ValidRequired(p: Probes, v: Value) {
    v.Array? && forall i :: 0 <= i < |v.items| ==> RequiredProof(p, v.items[i])
  }

  ghost predicate ValidProvider(p: Probes, k: string, v: Value) {
    && (k == "policy" ==> ProviderPolicy(p, v))
    && (k == "minimax" || k == "opencode" ==> Keys(v, (key, w) => ProviderKey(k, key, w)))
  }

  // --------------------------------------------------------------------- rules

  function Anything(k: string, v: Value): bool { true }
  function Nothing(k: string, v: Value): bool { false }

  function GateRule(p: Probes): Rule { Section(KeepIf((k, v) => GateKey(p, k, v))) }
  function ReviewBodyRule(p: Probes): Rule { Section(KeepIf(p.reviewBody)) }
  function ImpactRule(): Rule { Section(KeepIf(ImpactKey)) }

  function ToolGateRule(p: Probes): Rule { Shell(KeepIf((k, v) => ToolGateKey(p, k, v))) }
  function ToolFor(p: Probes, k: string): Rule {
    if k == "gate" then ToolGateRule(p) else KeepIf((key, v) => ToolKey(p, key, v))
  }
  function ToolRule(p: Probes): Rule { Section(ByKey(k => ToolFor(p, k))) }
  function ToolsRule(p: Probes): Rule { Section(ToolRule(p)) }

  function RequiredRule(p: Probes): Rule { Items(v => RequiredProof(p, v)) }
  function ProofFor(p: Probes, k: string): Rule {
    if k == "required" then RequiredRule(p) else KeepIf(Nothing)
  }
  function ProofRule(p: Probes): Rule { Section(ByKey(k => ProofFor(p, k))) }

  function ProviderRule(provider: string): Rule { Section(KeepIf((k, v) => ProviderKey(provider, k, v))) }
  function ProvidersFor(p: Probes, k: string): Rule {
    if k == "policy" then KeepIf((key, v) => ProviderPolicy(p, v))
    else if k == "minimax" || k == "opencode" then ProviderRule(k)
    else KeepIf(Anything)
  }
  function ProvidersRule(p: Probes): Rule { Section(ByKey(k => ProvidersFor(p, k))) }

  function RuleFor(p: Probes, k: string): Rule {
    if k == "gate" then GateRule(p)
    else if k == "review_body" then ReviewBodyRule(p)
    else if k == "impact" then ImpactRule()
    else if k == "tools" then ToolsRule(p)
    else if k == "proof" then ProofRule(p)
    else if k == "providers" then ProvidersRule(p)
    else if k in KNOWN_TOP_LEVEL_KEYS then KeepIf(Anything)
    else KeepIf(Nothing)
  }
  function TopRule(p: Probes): Rule { ByKey(k => RuleFor(p, k)) }

  /** The document after `sanitize_policy_sections`, and the receipts it returns. */
  function Sanitized(p: Probes, doc: Value): Value {
    if doc.Table? then Table(CleanEntries(TopRule(p), doc.entries)) else doc
  }

  function Receipts(p: Probes, doc: Value): set<Receipt> {
    if doc.Table? then LostEntries(TopRule(p), doc.entries, doc.entries.Keys) else {}
  }

  lemma TopIsSound(p: Probes)
    ensures Sound(TopRule(p))
  {
    hide Sound;
    forall k: string ensures Sound(RuleFor(p, k)) { RuleIsSound(p, k); }
    ByKeySound(k => RuleFor(p, k));
  }

  lemma RuleIsSound(p: Probes, k: string)
    ensures Sound(RuleFor(p, k))
  {
    hide Sound, KeepIf, Section, Shell, Items, ByKey;
    KeepIfSound((k, v) => GateKey(p, k, v));
    SectionSound(KeepIf((k, v) => GateKey(p, k, v)));
    KeepIfSound(p.reviewBody);
    SectionSound(KeepIf(p.reviewBody));
    KeepIfSound(ImpactKey);
    SectionSound(KeepIf(ImpactKey));
    KeepIfSound(Anything);
    KeepIfSound(Nothing);
    ToolsAreSound(p);
    ProofIsSound(p);
    ProvidersAreSound(p);
  }

  lemma ToolsAreSound(p: Probes)
    ensures Sound(ToolRule(p)) && Sound(ToolsRule(p))
  {
    hide Sound, KeepIf, Section, Shell, ByKey;
    forall k: string ensures Sound(ToolFor(p, k)) {
      KeepIfSound((g, v) => ToolGateKey(p, g, v));
      SectionSound(KeepIf((g, v) => ToolGateKey(p, g, v)));
      KeepIfSound((key, v) => ToolKey(p, key, v));
    }
    ByKeySound(k => ToolFor(p, k));
    SectionSound(ByKey(k => ToolFor(p, k)));
    SectionSound(ToolRule(p));
  }

  lemma ProofIsSound(p: Probes)
    ensures Sound(ProofRule(p))
  {
    hide Sound, KeepIf, Section, Items, ByKey;
    forall k: string ensures Sound(ProofFor(p, k)) {
      ItemsSound(v => RequiredProof(p, v));
      KeepIfSound(Nothing);
    }
    ByKeySound(k => ProofFor(p, k));
    SectionSound(ByKey(k => ProofFor(p, k)));
  }

  lemma ProvidersAreSound(p: Probes)
    ensures Sound(ProvidersRule(p))
  {
    hide Sound, KeepIf, Section, ByKey;
    forall k: string ensures Sound(ProvidersFor(p, k)) {
      KeepIfSound((key, v) => ProviderPolicy(p, v));
      KeepIfSound((key, v) => ProviderKey(k, key, v));
      SectionSound(KeepIf((key, v) => ProviderKey(k, key, v)));
      KeepIfSound(Anything);
    }
    ByKeySound(k => ProvidersFor(p, k));
    SectionSound(ByKey(k => ProvidersFor(p, k)));
  }

  // ------------------------------------------------------------------- promises

  /** What is left is a sub-document of what came in, and a second pass changes nothing and reports nothing. */
  lemma SanitizedIsStable(p: Probes, doc: Value)
    ensures SubDocument(Sanitized(p, doc), doc)
    ensures Sanitized(p, Sanitized(p, doc)) == Sanitized(p, doc)
    ensures Receipts(p, Sanitized(p, doc)) == {}
  {
    hide Sound, TopRule, SubDocument, CleanEntries, LostEntries;
    TopIsSound(p);
    SubItself(doc);
    if doc.Table? {
      CleanEntriesSound(TopRule(p), doc.entries);
      CleanEntriesSound(TopRule(p), CleanEntries(TopRule(p), doc.entries));
    }
  }

  /** There are receipts exactly when something was removed. */
  lemma NoReceiptsExactlyWhenUnchanged(p: Probes, doc: Value)
    ensures Receipts(p, doc) == {} <==> Sanitized(p, doc) == doc
  {
    hide Sound, TopRule, SubDocument, CleanEntries, LostEntries;
    TopIsSound(p);
    if doc.Table? { CleanEntriesSound(TopRule(p), doc.entries); }
  }

  /** Whatever no receipt concerns, above it or below it, keeps its value: valid siblings of a stripped key survive. */
  lemma UnreportedSurvives(p: Probes, doc: Value, path: seq<string>)
    requires Lookup(doc, path).Some? && Untouched(Receipts(p, doc), path)
    ensures Lookup(Sanitized(p, doc), path) == Lookup(doc, path)
  {
    hide Sound, TopRule, CleanEntries, LostEntries;
    TopIsSound(p);
    if doc.Table? { SectionKeeps(TopRule(p), doc, path); }
  }

  /** The pass reports nothing exactly when every section passes its own validation. */
  lemma NoReceiptsExactlyWhenValid(p: Probes, doc: map<string, Value>)
    ensures Receipts(p, Table(doc)) == {} <==> Valid(p, doc)
  {
    hide RuleFor, Keys, LostEntries;
    NothingLost(TopRule(p), doc);
    forall k: string, v: Value ensures RuleFor(p, k).lost(k, v) == {} <==> ValidAt(p, k, v) { RuleMatchesValidation(p, k, v); }
    assert Valid(p, doc) <==> forall k :: k in doc ==> ValidAt(p, k, doc[k]);
  }

  /** What is left after the pass is valid. */
  lemma SanitizedIsValid(p: Probes, doc: map<string, Value>)
    ensures Sanitized(p, Table(doc)).Table? && Valid(p, Sanitized(p, Table(doc)).entries)
  {
    hide Valid, TopRule;
    SanitizedIsStable(p, Table(doc));
    NoReceiptsExactlyWhenValid(p, Sanitized(p, Table(doc)).entries);
  }

  ghost predicate ValidAt(p: Probes, k: string, v: Value) {
    && k in KNOWN_TOP_LEVEL_KEYS
    && (k == "gate" ==> Keys(v, (key, w) => GateKey(p, key, w)))
    && (k == "review_body" ==> Keys(v, p.reviewBody))
    && (k == "impact" ==> Keys(v, ImpactKey))
    && (k == "tools" ==> Keys(v, (id, tool) => ValidTool(p, tool)))
    && (k == "proof" ==> Keys(v, (key, w) => key == "required" && ValidRequired(p, w)))
    && (k == "providers" ==> Keys(v, (key, w) => ValidProvider(p, key, w)))
  }

  lemma SectionMatches(rule: Rule, k: string, v: Value, ok: (string, Value) -> bool)
    requires forall key: string, w: Value :: rule.lost(key, w) == {} <==> ok(key, w)
    ensures LostIn(rule, v) == {} <==> Keys(v, ok)
  {
    hide LostEntries;
    if v.Table? { NothingLost(rule, v.entries); }
  }

  lemma RuleMatchesValidation(p: Probes, k: string, v: Value)
    ensures RuleFor(p, k).lost(k, v) == {} <==> ValidAt(p, k, v)
  {
    hide Keys, LostIn, ValidTool, ValidProvider, ValidRequired, GateKey, ImpactKey, ToolRule, ByKey, ProvidersFor, ProofFor;
    if k == "gate" {
      SectionMatches(KeepIf((key, w) => GateKey(p, key, w)), k, v, (key, w) => GateKey(p, key, w));
    } else if k == "review_body" {
      SectionMatches(KeepIf(p.reviewBody), k, v, p.reviewBody);
    } else if k == "impact" {
      SectionMatches(KeepIf(ImpactKey), k, v, ImpactKey);
    } else if k == "tools" {
      ToolsMatch(p, v);
    } else if k == "proof" {
      ProofMatches(p, v);
    } else if k == "providers" {
      ProvidersMatch(p, v);
    } else {
      KeepIfLost(Anything, k, v);
      KeepIfLost(Nothing, k, v);
    }
  }

  lemma ToolsMatch(p: Probes, v: Value)
    ensures LostIn(ToolRule(p), v) == {} <==> Keys(v, (id, tool) => ValidTool(p, tool))
  {
    hide LostIn, Keys;
    forall id: string, tool: Value ensures ToolRule(p).lost(id, tool) == {} <==> ValidTool(p, tool) {
      forall k: string, w: Value
        ensures ToolFor(p, k).lost(k, w) == {} <==> if k == "gate" then Keys(w, (g, x) => ToolGateKey(p, g, x)) else ToolKey(p, k, w)
      {
        SectionMatches(KeepIf((g, x) => ToolGateKey(p, g, x)), k, w, (g, x) => ToolGateKey(p, g, x));
      }
      SectionMatches(ByKey(k => ToolFor(p, k)), id, tool,
        (k, w) => if k == "gate" then Keys(w, (g, x) => ToolGateKey(p, g, x)) else ToolKey(p, k, w));
    }
    SectionMatches(ToolRule(p), "tools", v, (id, tool) => ValidTool(p, tool));
  }

  lemma ProofMatches(p: Probes, v: Value)
    ensures LostIn(ByKey(k => ProofFor(p, k)), v) == {} <==> Keys(v, (key, w) => key == "required" && ValidRequired(p, w))
  {
    hide LostIn, Keys;
    var rule := ByKey(k => ProofFor(p, k));
    var ok := (key: string, w: Value) => key == "required" && ValidRequired(p, w);
    forall k: string, w: Value ensures rule.lost(k, w) == {} <==> ok(k, w) {
      assert rule.lost(k, w) == ProofFor(p, k).lost(k, w);
      KeepIfLost(Nothing, k, w);
      if w.Array? { LostItemsMean(x => RequiredProof(p, x), w.items); }
    }
    SectionMatches(rule, "proof", v, ok);
  }

  lemma ProvidersMatch(p: Probes, v: Value)
    ensures LostIn(ByKey(k => ProvidersFor(p, k)), v) == {} <==> Keys(v, (key, w) => ValidProvider(p, key, w))
  {
    hide LostIn, Keys;
    forall k: string, w: Value ensures ProvidersFor(p, k).lost(k, w) == {} <==> ValidProvider(p, k, w) {
      KeepIfLost((key, x) => ProviderPolicy(p, x), k, w);
      KeepIfLost(Anything, k, w);
      SectionMatches(KeepIf((key, x) => ProviderKey(k, key, x)), k, w, (key, x) => ProviderKey(k, key, x));
    }
    SectionMatches(ByKey(k => ProvidersFor(p, k)), "providers", v, (key, w) => ValidProvider(p, key, w));
  }
}
