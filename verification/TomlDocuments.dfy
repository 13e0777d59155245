/** Nested documents, and rules that strip them key by key and report what they strip. */
module TomlDocuments {
  import opened Collections

  datatype Value =
    | Text(text: string)
    | Integer(number: int)
    | Plain(kind: string, literal: string)
    | Array(items: seq<Value>)
    | Table(entries: map<string, Value>)

  predicate Subsequence(a: seq<Value>, b: seq<Value>) {
    if a == [] then true
    else if b == [] then false
    else (a[0] == b[0] && Subsequence(a[1..], b[1..])) || Subsequence(a, b[1..])
  }

  /** `a` is `b` with some keys removed at any depth and some array items left out; what is left is unchanged. */
  ghost predicate SubDocument(a: Value, b: Value)
    decreases b
  {
    || a == b
    || (a.Array? && b.Array? && Subsequence(a.items, b.items))
    || (a.Table? && b.Table? && forall k :: k in a.entries ==> k in b.entries && SubDocument(a.entries[k], b.entries[k]))
  }

  /** A removed piece: the path of keys to it, and the place in the array at the end of the path for an array item. */
  datatype Receipt = Receipt(path: seq<string>, index: Option<nat>)

  /** What lies under a path of keys. */
  function Lookup(v: Value, path: seq<string>): Option<Value>
    decreases |path|
  {
    if path == [] then Some(v)
    else if v.Table? && path[0] in v.entries then Lookup(v.entries[path[0]], path[1..])
    else None
  }

  /** One path leads through the other. */
  predicate Along(p: seq<string>, q: seq<string>) { p <= q || q <= p }

  /** What becomes of the value under a key, and the receipts for it, with paths from the value. */
  datatype Rule = Rule(clean: (string, Value) -> Option<Value>, lost: (string, Value) -> set<Receipt>)

  /** No receipt concerns the path. */
  ghost predicate Untouched(lost: set<Receipt>, path: seq<string>) { forall r :: r in lost ==> !Along(r.path, path) }

  ghost predicate SoundAt(rule: Rule, k: string, v: Value) {
    var now := rule.clean(k, v);
    && (rule.lost(k, v) == {} <==> now == Some(v))
    && (now.Some? ==> SubDocument(now.value, v) && rule.clean(k, now.value) == now)
    && forall path :: Lookup(v, path).Some? && Untouched(rule.lost(k, v), path) ==>
         now.Some? && Lookup(now.value, path) == Lookup(v, path)
  }

  /** A rule that leaves a sub-document it would leave alone, reports exactly its changes, and keeps what it does not report. */
  ghost predicate Sound(rule: Rule) { forall k: string, v: Value :: SoundAt(rule, k, v) }

  // -------------------------------------------------------------------- tables

  function CleanEntries(rule: Rule, m: map<string, Value>): map<string, Value> {
    map k | k in m && rule.clean(k, m[k]).Some? :: rule.clean(k, m[k]).value
  }

  function LostAt(rule: Rule, m: map<string, Value>, k: string): set<Receipt>
    requires k in m
  {
    set r | r in rule.lost(k, m[k]) :: Receipt([k] + r.path, r.index)
  }

  function LostEntries(rule: Rule, m: map<string, Value>, keys: set<string>): set<Receipt>
    requires keys <= m.Keys
  {
    set k, r | k in keys && r in LostAt(rule, m, k) :: r
  }

  lemma CleanEntriesSound(rule: Rule, m: map<string, Value>)
    requires Sound(rule)
    ensures var now := CleanEntries(rule, m);
      && (LostEntries(rule, m, m.Keys) == {} <==> now == m)
      && SubDocument(Table(now), Table(m)) && CleanEntries(rule, now) == now
  {
    hide SubDocument;
    var now := CleanEntries(rule, m);
    assert forall k :: k in m ==> SoundAt(rule, k, m[k]);
    assert forall k :: k in now ==> SubDocument(now[k], m[k]);
    TableIsSub(now, m);
    if LostEntries(rule, m, m.Keys) == {} {
      forall k | k in m ensures rule.clean(k, m[k]) == Some(m[k]) {
        assert forall r :: r in rule.lost(k, m[k]) ==> Receipt([k] + r.path, r.index) in LostAt(rule, m, k);
        assert forall r :: r in LostAt(rule, m, k) ==> r in LostEntries(rule, m, m.Keys);
      }
    }
    if now == m {
      forall k | k in m ensures rule.lost(k, m[k]) == {} { assert k in now; }
    }
  }

  lemma AlongFrom(k: string, p: seq<string>, q: seq<string>)
    ensures Along([k] + p, [k] + q) <==> Along(p, q)
  {
    assert ([k] + p)[1..] == p && ([k] + q)[1..] == q;
    assert p <= q ==> q == p + q[|p|..];
    assert q <= p ==> p == q + p[|q|..];
  }

  lemma TableIsSub(a: map<string, Value>, b: map<string, Value>)
    requires forall k :: k in a ==> k in b && SubDocument(a[k], b[k])
    ensures SubDocument(Table(a), Table(b))
  {
  }

  /** A path that no receipt concerns keeps its value. */
  lemma CleanEntriesKeep(rule: Rule, m: map<string, Value>, path: seq<string>)
    requires Sound(rule) && path != [] && path[0] in m && Lookup(m[path[0]], path[1..]).Some?
    requires Untouched(LostAt(rule, m, path[0]), path)
    ensures path[0] in CleanEntries(rule, m)
    ensures Lookup(Table(CleanEntries(rule, m)), path) == Lookup(Table(m), path)
  {
    hide SubDocument;
    var k, rest := path[0], path[1..];
    assert path == [k] + rest;
    assert SoundAt(rule, k, m[k]);
    forall r | r in rule.lost(k, m[k]) ensures !Along(r.path, rest) {
      assert Receipt([k] + r.path, r.index) in LostAt(rule, m, k);
      AlongFrom(k, r.path, rest);
    }
    assert Untouched(rule.lost(k, m[k]), rest);
  }

  // ------------------------------------------------------------- rules of rules

  /** Keep the value as it is, or drop it. */
  function KeepIf(keep: (string, Value) -> bool): Rule {
    Rule((k, v) => if keep(k, v) then Some(v) else None, (k, v) => if keep(k, v) then {} else {Receipt([], None)})
  }

  lemma KeepIfSound(keep: (string, Value) -> bool)
    ensures Sound(KeepIf(keep))
  {
    hide SubDocument;
    forall k: string, v: Value ensures SoundAt(KeepIf(keep), k, v) {
      assert SubDocument(v, v) by { SubItself(v); }
      var gone := Receipt([], None);
      if !keep(k, v) {
        assert gone in KeepIf(keep).lost(k, v);
        assert forall path: seq<string> :: Along(gone.path, path);
      }
    }
  }

  lemma KeepIfLost(keep: (string, Value) -> bool, k: string, v: Value)
    ensures KeepIf(keep).lost(k, v) == {} <==> keep(k, v)
  {
    assert Receipt([], None) in {Receipt([], None)};
  }

  lemma SubItself(v: Value)
    ensures SubDocument(v, v)
  {
  }

  function LostIn(rule: Rule, v: Value): set<Receipt> {
    if v.Table? then LostEntries(rule, v.entries, v.entries.Keys) else {Receipt([], None)}
  }

  function SectionOf(rule: Rule, v: Value): Option<Value> {
    if v.Table? then Some(Table(CleanEntries(rule, v.entries))) else None
  }

  function ShellOf(rule: Rule, v: Value): Option<Value> {
    if v.Table? && CleanEntries(rule, v.entries) == map[] && v.entries != map[] then None else SectionOf(rule, v)
  }

  /** The value must be a table, and each of its keys follows the rule. */
  function Section(rule: Rule): Rule {
    Rule((k: string, v: Value) => SectionOf(rule, v), (k: string, v: Value) => LostIn(rule, v))
  }

  /** As `Section`, but a table that loses all its keys goes too. */
  function Shell(rule: Rule): Rule {
    Rule((k: string, v: Value) => ShellOf(rule, v), (k: string, v: Value) => LostIn(rule, v))
  }

  lemma SectionSound(rule: Rule)
    requires Sound(rule)
    ensures Sound(Section(rule)) && Sound(Shell(rule))
  {
    hide Sound, SoundAt;
    forall k: string, v: Value ensures SoundAt(Section(rule), k, v) && SoundAt(Shell(rule), k, v) {
      SectionSoundAt(rule, k, v);
      ShellSoundAt(rule, k, v);
    }
    AllSound(Section(rule));
    AllSound(Shell(rule));
  }

  lemma AllSound(rule: Rule)
    requires forall k: string, v: Value :: SoundAt(rule, k, v)
    ensures Sound(rule)
  {
  }

  lemma SectionKeeps(rule: Rule, v: Value, path: seq<string>)
    requires Sound(rule) && v.Table?
    requires Lookup(v, path).Some? && Untouched(LostEntries(rule, v.entries, v.entries.Keys), path)
    ensures Lookup(Table(CleanEntries(rule, v.entries)), path) == Lookup(v, path)
    ensures path == [] ==> CleanEntries(rule, v.entries) == v.entries
    ensures path != [] ==> path[0] in CleanEntries(rule, v.entries)
  {
    hide SubDocument, SoundAt;
    var lost := LostEntries(rule, v.entries, v.entries.Keys);
    if path == [] {
      CleanEntriesSound(rule, v.entries);
      assert forall r :: r in lost ==> Along(r.path, path);
    } else {
      assert forall r :: r in LostAt(rule, v.entries, path[0]) ==> r in lost;
      CleanEntriesKeep(rule, v.entries, path);
    }
  }

  lemma NotATable(k: string, v: Value)
    ensures forall path: seq<string> :: !Untouched({Receipt([], None)}, path)
  {
    forall path: seq<string> ensures !Untouched({Receipt([], None)}, path) {
      assert Receipt([], None) in {Receipt([], None)} && Along([], path);
    }
  }

  lemma SectionSoundAt(rule: Rule, k: string, v: Value)
    requires Sound(rule)
    ensures SoundAt(Section(rule), k, v)
  {
    hide Sound, SubDocument, LostEntries, CleanEntries;
    NotATable(k, v);
    if v.Table? {
      CleanEntriesSound(rule, v.entries);
      forall path | Lookup(v, path).Some? && Untouched(LostEntries(rule, v.entries, v.entries.Keys), path)
        ensures Lookup(Table(CleanEntries(rule, v.entries)), path) == Lookup(v, path)
      {
        SectionKeeps(rule, v, path);
      }
    }
  }

  lemma ShellSoundAt(rule: Rule, k: string, v: Value)
    requires Sound(rule)
    ensures SoundAt(Shell(rule), k, v)
  {
    hide Sound, SubDocument, LostEntries, CleanEntries;
    NotATable(k, v);
    if v.Table? {
      CleanEntriesSound(rule, v.entries);
      var now := CleanEntries(rule, v.entries);
      forall path | Lookup(v, path).Some? && Untouched(LostEntries(rule, v.entries, v.entries.Keys), path)
        ensures Lookup(Table(now), path) == Lookup(v, path)
        ensures !(now == map[] && v.entries != map[])
      {
        SectionKeeps(rule, v, path);
      }
    }
  }

  /** Each key has its own rule. */
  function ByKey(pick: string -> Rule): Rule {
    Rule((k, v) => pick(k).clean(k, v), (k, v) => pick(k).lost(k, v))
  }

  lemma ByKeySound(pick: string -> Rule)
    requires forall k: string :: Sound(pick(k))
    ensures Sound(ByKey(pick))
  {
    hide SoundAt;
    forall k: string, v: Value ensures SoundAt(ByKey(pick), k, v) {
      assert SoundAt(pick(k), k, v);
      SameAt(pick(k), ByKey(pick), k, v);
    }
  }

  lemma SameAt(one: Rule, other: Rule, k: string, v: Value)
    requires SoundAt(one, k, v)
    requires forall w: Value :: other.clean(k, w) == one.clean(k, w) && other.lost(k, w) == one.lost(k, w)
    ensures SoundAt(other, k, v)
  {
    hide SubDocument, Lookup;
  }

  // -------------------------------------------------------------------- arrays

  function LostItems(ok: Value -> bool, items: seq<Value>): set<Receipt> {
    set i: nat | i < |items| && !ok(items[i]) :: Receipt([], Some(i))
  }

  function ItemsOf(ok: Value -> bool, v: Value): Option<Value> {
    if v.Array? then Some(Array(Filter(ok, v.items))) else None
  }

  function LostFrom(ok: Value -> bool, v: Value): set<Receipt> {
    if v.Array? then LostItems(ok, v.items) else {Receipt([], None)}
  }

  /** The value must be an array, and keeps the items that pass. */
  function Items(ok: Value -> bool): Rule {
    Rule((k: string, v: Value) => ItemsOf(ok, v), (k: string, v: Value) => LostFrom(ok, v))
  }

  lemma ItemsSound(ok: Value -> bool)
    ensures Sound(Items(ok))
  {
    hide SoundAt;
    forall k: string, v: Value ensures SoundAt(Items(ok), k, v) { ItemsSoundAt(ok, k, v); }
  }

  lemma ItemsSoundAt(ok: Value -> bool, k: string, v: Value)
    ensures SoundAt(Items(ok), k, v)
  {
    hide SubDocument, LostItems, Filter;
    NotATable(k, v);
    if v.Array? {
      var kept := Filter(ok, v.items);
      FilterIsSubsequence(ok, v.items);
      ArrayIsSub(kept, v.items);
      FilterKeepsAll(ok, v.items);
      FilterKeepsAll(ok, kept);
      LostItemsMean(ok, v.items);
      assert kept == v.items <==> LostFrom(ok, v) == {};
      assert Filter(ok, kept) == kept by { assert forall i :: 0 <= i < |kept| ==> ok(kept[i]); }
    }
  }

  lemma LostItemsMean(ok: Value -> bool, items: seq<Value>)
    ensures LostItems(ok, items) == {} <==> forall i :: 0 <= i < |items| ==> ok(items[i])
    ensures forall r :: r in LostItems(ok, items) ==> r.path == [] && forall path: seq<string> :: Along(r.path, path)
    ensures forall path: seq<string> :: Untouched(LostItems(ok, items), path) ==> LostItems(ok, items) == {}
  {
    assert forall i: nat :: i < |items| && !ok(items[i]) ==> Receipt([], Some(i)) in LostItems(ok, items);
    forall path: seq<string> ensures Untouched(LostItems(ok, items), path) ==> LostItems(ok, items) == {} {
      assert forall r :: r in LostItems(ok, items) ==> Along(r.path, path);
    }
  }

  lemma ArrayIsSub(a: seq<Value>, b: seq<Value>)
    requires Subsequence(a, b)
    ensures SubDocument(Array(a), Array(b))
  {
  }

  lemma {:induction false} FilterIsSubsequence(ok: Value -> bool, s: seq<Value>)
    ensures Subsequence(Filter(ok, s), s)
  {
    if s != [] {
      var rest := Filter(ok, s[1..]);
      FilterIsSubsequence(ok, s[1..]);
      assert Filter(ok, s) == if ok(s[0]) then [s[0]] + rest else rest;
      assert ([s[0]] + rest)[1..] == rest;
    }
  }

  /** A table loses nothing exactly when none of its keys does. */
  lemma NothingLost(rule: Rule, m: map<string, Value>)
    ensures LostEntries(rule, m, m.Keys) == {} <==> forall k :: k in m ==> rule.lost(k, m[k]) == {}
  {
    var all := LostEntries(rule, m, m.Keys);
    forall k | k in m ensures rule.lost(k, m[k]) != {} ==> all != {} {
      forall r | r in rule.lost(k, m[k]) ensures Receipt([k] + r.path, r.index) in all {
        assert Receipt([k] + r.path, r.index) in LostAt(rule, m, k);
      }
    }
    forall r | r in all ensures exists k :: k in m && rule.lost(k, m[k]) != {} {
      var k :| k in m && r in LostAt(rule, m, k);
      var q :| q in rule.lost(k, m[k]);
    }
  }
}
