/** The canonical revision identity of `scripts/reconcile-publication-boundaries-core.py`: its eight-line text form,
    the parser with every check it makes, and the printer the parser compares its input with at the end. */
module RevisionIdentity {
  import opened Collections
  import opened Text

  const VERSION := "ub-review.revision-identity.v1"
  const HEX := "0123456789abcdef"

  type Oids = (string, string)

  datatype Semantics = CandidateHead | MergeResult

  datatype Identity = Identity(
    semantics: Semantics, base: Oids, head: Oids, reviewed: Oids, merge: Option<Oids>, changedPaths: string, diff: string)

  predicate Hex(s: string, n: nat) { |s| == n && forall ch :: ch in s ==> ch in HEX }

  predicate ValidOid(s: string) { (Hex(s, 40) || Hex(s, 64)) && exists ch :: ch in s && ch != '0' }

  predicate ValidPair(p: Oids) { ValidOid(p.0) && ValidOid(p.1) }

  /** All object ids have one width. */
  predicate OneWidth(id: Identity) {
    var n := |id.base.0|;
    && |id.base.1| == n && |id.head.0| == n && |id.head.1| == n && |id.reviewed.0| == n && |id.reviewed.1| == n
    && (id.merge.Some? ==> |id.merge.value.0| == n && |id.merge.value.1| == n)
  }

  /** The reviewed commit is the one the semantics name. */
  predicate Reviewable(id: Identity) {
    match id.semantics
    case CandidateHead => id.merge.None? && id.reviewed == id.head
    case MergeResult => id.merge.Some? && id.reviewed == id.merge.value
  }

  predicate Valid(id: Identity) {
    && ValidPair(id.base) && ValidPair(id.head) && ValidPair(id.reviewed)
    && (id.merge.Some? ==> ValidPair(id.merge.value))
    && Hex(id.changedPaths, 64) && Hex(id.diff, 64)
    && OneWidth(id) && Reviewable(id)
  }

  // ------------------------------------------------------------------ printer

  function Word(s: Semantics): string { if s.CandidateHead? then "candidate_head" else "merge_result" }

  function PrintPair(p: Oids): string { p.0 + " " + p.1 }

  const KEYS: seq<string> := ["semantics", "base", "head", "reviewed", "merge", "changed_paths", "diff"]

  function Values(id: Identity): (r: seq<string>)
    ensures |r| == 7
  {
    [Word(id.semantics), PrintPair(id.base), PrintPair(id.head), PrintPair(id.reviewed),
     if id.merge.None? then "-" else PrintPair(id.merge.value), id.changedPaths, id.diff]
  }

  function Lines(values: seq<string>): (r: seq<string>)
    requires |values| == 7
    ensures |r| == 8 && r[0] == VERSION && forall i :: 0 <= i < 7 ==> r[i + 1] == KEYS[i] + "=" + values[i]
  {
    [VERSION] + seq(7, i requires 0 <= i < 7 => KEYS[i] + "=" + values[i])
  }

  function Print(id: Identity): string { Join(Lines(Values(id)), '\n') + "\n" }

  // ------------------------------------------------------------------- parser

  /** `str.partition("=")`: the text before and after the first `=`. */
  function Partition(line: string): Option<(string, string)> {
    if line == [] then None
    else if line[0] == '=' then Some(("", line[1..]))
    else match Partition(line[1..])
         case None => None
         case Some((key, value)) => Some(([line[0]] + key, value))
  }

  lemma {:induction false} PartitionMeans(line: string, key: string, value: string)
    requires '=' !in key
    ensures Partition(line) == Some((key, value)) <==> line == key + "=" + value
  {
    if line != [] {
      if key == [] {
        assert key + "=" + value == ['='] + value;
      } else if line[0] == key[0] {
        PartitionMeans(line[1..], key[1..], value);
        assert key == [key[0]] + key[1..];
        assert key + "=" + value == [key[0]] + (key[1..] + "=" + value);
        assert line == [line[0]] + line[1..];
      } else {
        assert (key + "=" + value)[0] == key[0];
      }
    }
  }

  function ParsePair(value: string): Option<Oids> {
    var parts := Split(value, ' ');
    if |parts| == 2 && ValidOid(parts[0]) && ValidOid(parts[1]) then Some((parts[0], parts[1])) else None
  }

  lemma NoSeparatorInOid(s: string)
    requires ValidOid(s)
    ensures ' ' !in s && '\n' !in s && '\r' !in s && s != "-"
  {
  }

  lemma ParsePairMeans(value: string, p: Oids)
    ensures ParsePair(value) == Some(p) <==> ValidPair(p) && value == PrintPair(p)
  {
    var parts := Split(value, ' ');
    if ValidPair(p) && value == PrintPair(p) {
      NoSeparatorInOid(p.0);
      NoSeparatorInOid(p.1);
      SplitJoin([p.0, p.1], ' ');
      assert Join([p.0, p.1], ' ') == value;
    }
    if ParsePair(value) == Some(p) {
      JoinSplit(value, ' ');
      assert parts == [p.0, p.1] && Join(parts, ' ') == p.0 + " " + p.1;
    }
  }

  /** The line must be its expected key and a value that is not empty. */
  predicate KeyedAt(lines: seq<string>, i: nat)
    requires |lines| == 8 && i < 7
  {
    var kv := Partition(lines[i + 1]);
    kv.Some? && kv.value.0 == KEYS[i] && kv.value.1 != ""
  }

  predicate Keyed(lines: seq<string>) {
    |lines| == 8 && lines[0] == VERSION && forall i :: 0 <= i < 7 ==> KeyedAt(lines, i)
  }

  function ValueAt(lines: seq<string>, i: nat): string
    requires Keyed(lines) && i < 7
  {
    assert KeyedAt(lines, i);
    Partition(lines[i + 1]).value.1
  }

  function ParseSemantics(word: string): Option<Semantics> {
    if word == "candidate_head" then Some(CandidateHead) else if word == "merge_result" then Some(MergeResult) else None
  }

  /** Everything the parser checks before it compares the text with its normal form. */
  function ParseFields(text: string): Option<Identity> {
    if '\r' in text || text == "" || text[|text| - 1] != '\n' then None
    else
      var lines := Split(text[..|text| - 1], '\n');
      if !Keyed(lines) then None
      else
        var semantics := ParseSemantics(ValueAt(lines, 0));
        var base, head, reviewed := ParsePair(ValueAt(lines, 1)), ParsePair(ValueAt(lines, 2)), ParsePair(ValueAt(lines, 3));
        var merge := if ValueAt(lines, 4) == "-" then None else ParsePair(ValueAt(lines, 4));
        if semantics.None? || base.None? || head.None? || reviewed.None? || (ValueAt(lines, 4) != "-" && merge.None?) then None
        else
          var id := Identity(semantics.value, base.value, head.value, reviewed.value, merge, ValueAt(lines, 5), ValueAt(lines, 6));
          if Hex(id.changedPaths, 64) && Hex(id.diff, 64) && OneWidth(id) && Reviewable(id) then Some(id) else None
  }

  /** `parse_revision_canonical`, including the final comparison. */
  function Parse(text: string): Option<Identity> {
    var id := ParseFields(text);
    if id.Some? && Print(id.value) == text then id else None
  }

  // ----------------------------------------------------------- mutual inverses

  lemma KeysAreTokens(i: nat)
    requires i < 7
    ensures '=' !in KEYS[i] && '\n' !in KEYS[i] && '\r' !in KEYS[i]
  {
  }

  /** The values a valid identity prints are not empty and hold no line break. */
  lemma ValuesAreTokens(id: Identity)
    requires Valid(id)
    ensures forall i :: 0 <= i < 7 ==> Values(id)[i] != "" && '\n' !in Values(id)[i] && '\r' !in Values(id)[i]
  {
    hide ValidPair, ValidOid, PrintPair, OneWidth, Reviewable;
    PairIsToken(id.base);
    PairIsToken(id.head);
    PairIsToken(id.reviewed);
    if id.merge.Some? { PairIsToken(id.merge.value); }
  }

  lemma PairIsToken(p: Oids)
    requires ValidPair(p)
    ensures PrintPair(p) != "" && '\n' !in PrintPair(p) && '\r' !in PrintPair(p) && PrintPair(p) != "-"
  {
    NoSeparatorInOid(p.0);
    NoSeparatorInOid(p.1);
  }

  /** The lines of a text are keyed exactly when they are the lines of their values. */
  lemma KeyedLines(lines: seq<string>)
    requires Keyed(lines)
    ensures lines == Lines(seq(7, i requires 0 <= i < 7 => ValueAt(lines, i)))
  {
    var values := seq(7, i requires 0 <= i < 7 => ValueAt(lines, i));
    forall k | 1 <= k < 8 ensures lines[k] == Lines(values)[k] {
      KeysAreTokens(k - 1);
      assert KeyedAt(lines, k - 1);
      PartitionMeans(lines[k - 1 + 1], KEYS[k - 1], values[k - 1]);
      assert Lines(values)[k - 1 + 1] == KEYS[k - 1] + "=" + values[k - 1];
    }
  }

  lemma PrintedLinesAreKeyed(values: seq<string>)
    requires |values| == 7 && forall i :: 0 <= i < 7 ==> values[i] != ""
    ensures Keyed(Lines(values)) && forall i :: 0 <= i < 7 ==> ValueAt(Lines(values), i) == values[i]
  {
    forall i | 0 <= i < 7
      ensures KeyedAt(Lines(values), i) && Partition(Lines(values)[i + 1]) == Some((KEYS[i], values[i]))
    {
      KeysAreTokens(i);
      PartitionMeans(Lines(values)[i + 1], KEYS[i], values[i]);
    }
  }

  /** Whatever passes the field checks prints back to the text itself: the final comparison never fails. */
  lemma ComparisonNeverFails(text: string)
    requires ParseFields(text).Some?
    ensures Valid(ParseFields(text).value) && Print(ParseFields(text).value) == text
  {
    var id := ParseFields(text).value;
    var body := text[..|text| - 1];
    var lines := Split(body, '\n');
    JoinSplit(body, '\n');
    KeyedLines(lines);
    var values := seq(7, i requires 0 <= i < 7 => ValueAt(lines, i));
    ParsePairMeans(values[1], id.base);
    ParsePairMeans(values[2], id.head);
    ParsePairMeans(values[3], id.reviewed);
    if id.merge.Some? { ParsePairMeans(values[4], id.merge.value); }
    assert values == Values(id);
    assert body + "\n" == text;
  }

  lemma PrintedIsClean(id: Identity)
    requires Valid(id)
    ensures Free(Lines(Values(id)), '\n') && '\r' !in Print(id)
  {
    hide Values, Valid;
    var lines := Lines(Values(id));
    ValuesAreTokens(id);
    forall p | p in lines ensures '\n' !in p && '\r' !in p {
      var k :| 0 <= k < 8 && lines[k] == p;
      if k > 0 { KeysAreTokens(k - 1); }
    }
    JoinHolds(lines, '\n', '\r');
  }

  /** Every valid identity is accepted from its printed form and comes back unchanged. */
  lemma PrintedIsAccepted(id: Identity)
    requires Valid(id)
    ensures ParseFields(Print(id)) == Some(id)
  {
    hide ValidPair, ValidOid, PrintPair, OneWidth, Reviewable, ParsePair, Split, Join, Free;
    var text, values := Print(id), Values(id);
    ValuesAreTokens(id);
    PrintedIsClean(id);
    SplitJoin(Lines(values), '\n');
    assert text[..|text| - 1] == Join(Lines(values), '\n');
    PrintedLinesAreKeyed(values);
    ParsePairMeans(values[1], id.base);
    ParsePairMeans(values[2], id.head);
    ParsePairMeans(values[3], id.reviewed);
    if id.merge.Some? {
      ParsePairMeans(values[4], id.merge.value);
      PairIsToken(id.merge.value);
    }
  }

  /** Parsing and printing are mutual inverses, on all texts and all identities. */
  lemma ParsePrint(text: string, id: Identity)
    ensures Parse(text) == Some(id) <==> Valid(id) && text == Print(id)
  {
    if ParseFields(text).Some? { ComparisonNeverFails(text); }
    if Valid(id) { PrintedIsAccepted(id); }
  }

  // -------------------------------------------------- what an identity is

  /** A lower-case object id of that width, other than zero. */
  predicate Names(s: string, width: int) {
    && |s| == width && (forall i :: 0 <= i < |s| ==> '0' <= s[i] <= '9' || 'a' <= s[i] <= 'f')
    && exists i :: 0 <= i < |s| && s[i] != '0'
  }

  predicate Digest(s: string) { |s| == 64 && forall i :: 0 <= i < |s| ==> '0' <= s[i] <= '9' || 'a' <= s[i] <= 'f' }

  /** All object ids are of this one width. A candidate head is reviewed as it is, without a merge; a merge result is
      reviewed as merged. */
  predicate Consistent(id: Identity, width: int) {
    && (width == 40 || width == 64)
    && Names(id.base.0, width) && Names(id.base.1, width) && Names(id.head.0, width) && Names(id.head.1, width)
    && (if id.semantics == MergeResult then
          && id.merge == Some(id.reviewed) && Names(id.reviewed.0, width) && Names(id.reviewed.1, width)
        else id.merge == None && id.reviewed == id.head)
    && Digest(id.changedPaths) && Digest(id.diff)
  }

  lemma HexByIndex(s: string, n: nat)
    ensures Hex(s, n) <==> |s| == n && forall i :: 0 <= i < |s| ==> '0' <= s[i] <= '9' || 'a' <= s[i] <= 'f'
  {
    forall i | 0 <= i < |s| ensures s[i] in HEX <==> '0' <= s[i] <= '9' || 'a' <= s[i] <= 'f' { HexCharacter(s[i]); }
    assert (forall ch :: ch in s ==> ch in HEX) <==> forall i :: 0 <= i < |s| ==> s[i] in HEX;
  }

  lemma HexCharacter(ch: char)
    ensures ch in HEX <==> '0' <= ch <= '9' || 'a' <= ch <= 'f'
  {
    if '0' <= ch <= '9' { assert HEX[(ch - '0') as int] == ch; }
    if 'a' <= ch <= 'f' { assert HEX[10 + (ch - 'a') as int] == ch; }
  }

  lemma NamesAnObject(s: string)
    ensures ValidOid(s) <==> Names(s, 40) || Names(s, 64)
  {
    hide Hex;
    HexByIndex(s, 40);
    HexByIndex(s, 64);
    assert (exists ch :: ch in s && ch != '0') <==> exists i :: 0 <= i < |s| && s[i] != '0' by {
      if exists i :: 0 <= i < |s| && s[i] != '0' {
        var i :| 0 <= i < |s| && s[i] != '0';
        assert s[i] in s;
      }
    }
  }

  lemma ValidExactlyWhenConsistent(id: Identity)
    ensures Valid(id) <==> Consistent(id, |id.base.0|)
  {
    hide ValidOid, Hex;
    NamesAnObject(id.base.0);
    NamesAnObject(id.base.1);
    NamesAnObject(id.head.0);
    NamesAnObject(id.head.1);
    NamesAnObject(id.reviewed.0);
    NamesAnObject(id.reviewed.1);
    HexByIndex(id.changedPaths, 64);
    HexByIndex(id.diff, 64);
  }

  function Row(key: string, value: string): string { "\n" + key + "=" + value }

  /** The printed form, written out. */
  lemma PrintedText(id: Identity)
    ensures Print(id) ==
      "ub-review.revision-identity.v1" + Row("semantics", if id.semantics == MergeResult then "merge_result" else "candidate_head")
      + Row("base", id.base.0 + " " + id.base.1) + Row("head", id.head.0 + " " + id.head.1)
      + Row("reviewed", id.reviewed.0 + " " + id.reviewed.1)
      + Row("merge", if id.merge.None? then "-" else id.merge.value.0 + " " + id.merge.value.1)
      + Row("changed_paths", id.changedPaths) + Row("diff", id.diff) + "\n"
  {
    var v := Values(id);
    JoinsRows(v);
  }

  lemma JoinsRows(v: seq<string>)
    requires |v| == 7
    ensures Join(Lines(v), '\n') ==
      "ub-review.revision-identity.v1" + Row("semantics", v[0]) + Row("base", v[1]) + Row("head", v[2]) + Row("reviewed", v[3])
      + Row("merge", v[4]) + Row("changed_paths", v[5]) + Row("diff", v[6])
  {
    var lines := Lines(v);
    JoinsFrom(lines, 8);
    assert lines[..8] == lines;
    forall i | 0 <= i < 7 ensures "\n" + lines[i + 1] == Row(KEYS[i], v[i]) {
      assert lines[i + 1] == KEYS[i] + "=" + v[i];
      assert "\n" + (KEYS[i] + "=" + v[i]) == "\n" + KEYS[i] + "=" + v[i];
    }
    assert Flattened(lines, 8) == Flattened(lines, 7) + Row(KEYS[6], v[6]);
    assert Flattened(lines, 7) == Flattened(lines, 6) + Row(KEYS[5], v[5]);
    assert Flattened(lines, 6) == Flattened(lines, 5) + Row(KEYS[4], v[4]);
    assert Flattened(lines, 5) == Flattened(lines, 4) + Row(KEYS[3], v[3]);
    assert Flattened(lines, 4) == Flattened(lines, 3) + Row(KEYS[2], v[2]);
    assert Flattened(lines, 3) == Flattened(lines, 2) + Row(KEYS[1], v[1]);
    assert Flattened(lines, 2) == Flattened(lines, 1) + Row(KEYS[0], v[0]);
  }

  /** The lines, each but the first after a line break. */
  function Flattened(lines: seq<string>, n: nat): string
    requires 1 <= n <= |lines|
  {
    if n == 1 then lines[0] else Flattened(lines, n - 1) + ("\n" + lines[n - 1])
  }

  lemma {:induction false} JoinsFrom(lines: seq<string>, n: nat)
    requires 1 <= n <= |lines|
    ensures Join(lines[..n], '\n') == Flattened(lines, n)
  {
    if n > 1 {
      JoinsFrom(lines, n - 1);
      JoinSnoc(lines[..n - 1], lines[n - 1], '\n');
      assert lines[..n] == lines[..n - 1] + [lines[n - 1]];
    }
  }

  // ------------------------------------------------------- the parser's loop

  /** The values of the seven keyed lines, by key. */
  ghost predicate Tabulates(values: map<string, string>, lines: seq<string>, n: nat)
    requires |lines| == 8 && n <= 7
  {
    forall k :: 0 <= k < n ==> KeyedAt(lines, k) && KEYS[k] in values && values[KEYS[k]] == Partition(lines[k + 1]).value.1
  }

  /** One pass over the lines fills a table by key, and stops at the first line out of place. */
  method ReadFields(lines: seq<string>) returns (values: map<string, string>, ok: bool)
    requires |lines| == 8 && lines[0] == VERSION
    ensures ok <==> Keyed(lines)
    ensures ok ==> Tabulates(values, lines, 7)
  {
    values := map[];
    for i := 0 to 7
      invariant Tabulates(values, lines, i)
    {
      if !KeyedAt(lines, i) { return values, false; }
      var kv := Partition(lines[i + 1]).value;
      KeysDiffer(i);
      values := values[kv.0 := kv.1];
    }
    ok := true;
  }

  lemma TableByName(values: map<string, string>, lines: seq<string>)
    requires Keyed(lines) && Tabulates(values, lines, 7)
    ensures {"semantics", "base", "head", "reviewed", "merge", "changed_paths", "diff"} <= values.Keys
    ensures values["semantics"] == ValueAt(lines, 0) && values["base"] == ValueAt(lines, 1)
    ensures values["head"] == ValueAt(lines, 2) && values["reviewed"] == ValueAt(lines, 3)
    ensures values["merge"] == ValueAt(lines, 4) && values["changed_paths"] == ValueAt(lines, 5)
    ensures values["diff"] == ValueAt(lines, 6)
  {
    hide Partition;
    assert KeyedAt(lines, 0) && KeyedAt(lines, 1) && KeyedAt(lines, 2) && KeyedAt(lines, 3) && KeyedAt(lines, 4)
        && KeyedAt(lines, 5) && KeyedAt(lines, 6);
  }

  /** `parse_revision_canonical` as it runs. */
  method ParseCanonical(text: string) returns (r: Option<Identity>)
    ensures r == Parse(text)
  {
    hide Keyed, Tabulates, ValueAt, ParsePair, OneWidth, Reviewable, Hex, Print, Split;
    if '\r' in text || text == "" || text[|text| - 1] != '\n' { return None; }
    var lines := Split(text[..|text| - 1], '\n');
    if |lines| != 8 || lines[0] != VERSION {
      NotKeyed(lines);
      return None;
    }
    var values, ok := ReadFields(lines);
    if !ok { return None; }
    TableByName(values, lines);
    var semantics := ParseSemantics(values["semantics"]);
    var base, head, reviewed := ParsePair(values["base"]), ParsePair(values["head"]), ParsePair(values["reviewed"]);
    if semantics.None? || base.None? || head.None? || reviewed.None? { return None; }
    var merge: Option<Oids> := None;
    if values["merge"] != "-" {
      merge := ParsePair(values["merge"]);
      if merge.None? { return None; }
    }
    var id := Identity(semantics.value, base.value, head.value, reviewed.value, merge, values["changed_paths"], values["diff"]);
    if !Hex(id.changedPaths, 64) || !Hex(id.diff, 64) || !OneWidth(id) || !Reviewable(id) { return None; }
    if Print(id) != text { return None; }
    r := Some(id);
  }

  lemma NotKeyed(lines: seq<string>)
    ensures Keyed(lines) ==> |lines| == 8 && lines[0] == VERSION
  {
  }

  lemma KeysDiffer(i: nat)
    requires i < 7
    ensures forall k :: 0 <= k < i ==> KEYS[k] != KEYS[i]
  {
    assert |KEYS[0]| == 9 && |KEYS[1]| == 4 && |KEYS[2]| == 4 && |KEYS[3]| == 8 && |KEYS[4]| == 5 && |KEYS[5]| == 13 && |KEYS[6]| == 4;
    assert KEYS[1][0] == 'b' && KEYS[2][0] == 'h' && KEYS[6][0] == 'd';
  }
}
