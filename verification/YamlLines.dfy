/** The text helpers of the workflow scanner, and its helpers that read a block and return a cursor (`src/ci_audit.rs`). */
module YamlLines {
  import opened Collections
  import opened Strings
  import Text

  /** A line that is neither blank nor a comment: its indent, and the rest without trailing space. */
  datatype Line = Line(indent: nat, content: string)

  // ---------------------------------------------------------------------- text

  /** What stands between the quote at both ends. */
  function Between(s: string, open: char, close: char): Option<string> {
    if |s| >= 2 && s[0] == open && s[|s| - 1] == close then Some(s[1..|s| - 1]) else None
  }

  function Unquote(value: string): string {
    var t := Trim(value);
    if Between(t, '"', '"').Some? then Between(t, '"', '"').value
    else if Between(t, '\'', '\'').Some? then Between(t, '\'', '\'').value
    else t
  }

  function SplitOnce(s: string, c: char): Option<(string, string)> {
    if s == "" then None
    else if s[0] == c then Some(("", s[1..]))
    else match SplitOnce(s[1..], c)
         case None => None
         case Some((a, b)) => Some(([s[0]] + a, b))
  }

  function UnquoteAll(parts: seq<string>): seq<string> {
    if parts == [] then []
    else (if Unquote(parts[0]) != "" then [Unquote(parts[0])] else []) + UnquoteAll(parts[1..])
  }

  function InlineList(value: string): Option<seq<string>> {
    match Between(Trim(value), '[', ']')
    case None => None
    case Some(inner) => Some(UnquoteAll(Text.Split(inner, ',')))
  }

  datatype Scalar = Null | Flag(value: bool) | Str(text: string)

  function ScalarOf(value: string): Scalar {
    var u := Unquote(value);
    if Lower(u) == "null" || Lower(u) == "~" then Null
    else if Lower(u) == "true" then Flag(true)
    else if Lower(u) == "false" then Flag(false)
    else Str(u)
  }

  datatype Permission = One(scalar: Scalar) | Each(scopes: map<string, Scalar>)

  function MappingOf(parts: seq<string>): Option<map<string, Scalar>> {
    if parts == [] then Some(map[])
    else
      match (MappingOf(parts[..|parts| - 1]), SplitOnce(parts[|parts| - 1], ':'))
      case (Some(m), Some((k, v))) => if Unquote(k) == "" then None else Some(m[Unquote(k) := ScalarOf(v)])
      case _ => None
  }

  function InlineMapping(value: string): Option<map<string, Scalar>> {
    match Between(Trim(value), '{', '}')
    case None => None
    case Some(inner) => if Trim(inner) == "" then Some(map[]) else MappingOf(Text.Split(Trim(inner), ','))
  }

  // -------------------------------------------------------------------- blocks

  /** The first line from `i` on that is not indented deeper. */
  function BlockEnd(lines: seq<Line>, i: nat, indent: nat): (end: nat)
    requires i <= |lines|
    ensures i <= end <= |lines|
    ensures forall j :: i <= j < end ==> lines[j].indent > indent
    ensures end < |lines| ==> lines[end].indent <= indent
    decreases |lines| - i
  {
    if i < |lines| && lines[i].indent > indent then BlockEnd(lines, i + 1, indent) else i
  }

  lemma {:induction false} BlockEndIs(lines: seq<Line>, i: nat, indent: nat, end: nat)
    requires i <= end <= |lines|
    requires forall j :: i <= j < end ==> lines[j].indent > indent
    requires end < |lines| ==> lines[end].indent <= indent
    ensures BlockEnd(lines, i, indent) == end
    decreases end - i
  {
    if i < end { BlockEndIs(lines, i + 1, indent, end); }
  }

  predicate IsDash(content: string) { "- " <= content || content == "-" }
  function DashRest(content: string): string { if "- " <= content then content[2..] else "" }

  /** The first line from `i` on that is not a deeper dash item. */
  function ListEnd(lines: seq<Line>, i: nat, indent: nat): (end: nat)
    requires i <= |lines|
    ensures i <= end <= BlockEnd(lines, i, indent)
    ensures forall j :: i <= j < end ==> lines[j].indent > indent && IsDash(lines[j].content)
    ensures end < |lines| ==> lines[end].indent <= indent || !IsDash(lines[end].content)
    decreases |lines| - i
  {
    if i < |lines| && lines[i].indent > indent && IsDash(lines[i].content) then ListEnd(lines, i + 1, indent) else i
  }

  function DashItems(lines: seq<Line>, i: nat, end: nat): seq<string>
    requires i <= end <= |lines|
  {
    if i == end then []
    else
      var item := Unquote(DashRest(lines[end - 1].content));
      DashItems(lines, i, end - 1) + (if item != "" then [item] else [])
  }

  function ListItems(lines: seq<Line>, key: nat, indent: nat, value: string): seq<string>
    requires key < |lines|
  {
    if Trim(value) == "" then DashItems(lines, key + 1, ListEnd(lines, key + 1, indent))
    else if InlineList(Trim(value)).Some? then InlineList(Trim(value)).value
    else if Unquote(Trim(value)) != "" then [Unquote(Trim(value))]
    else []
  }

  function ListNext(lines: seq<Line>, key: nat, indent: nat, value: string): (next: nat)
    requires key < |lines|
    ensures key < next <= BlockEnd(lines, key + 1, indent)
  {
    if Trim(value) == "" then ListEnd(lines, key + 1, indent) else key + 1
  }

  /** `ci_yaml_list_at`. */
  method ListAt(lines: seq<Line>, key: nat, indent: nat, value: string) returns (items: seq<string>, next: nat)
    requires key < |lines|
    ensures items == ListItems(lines, key, indent, value) && next == ListNext(lines, key, indent, value)
  {
    hide Unquote, Trim, InlineList, ListEnd, DashItems;
    var inline := Trim(value);
    if inline != "" {
      var list := InlineList(inline);
      if list.Some? { return list.value, key + 1; }
      return if Unquote(inline) != "" then [Unquote(inline)] else [], key + 1;
    }
    items, next := DashList(lines, key, indent);
  }

  /** Its dash items on the following deeper lines. */
  method DashList(lines: seq<Line>, key: nat, indent: nat) returns (items: seq<string>, next: nat)
    requires key < |lines|
    ensures next == ListEnd(lines, key + 1, indent) && items == DashItems(lines, key + 1, next)
  {
    hide Unquote, IsDash, DashRest;
    items, next := [], key + 1;
    while next < |lines|
      invariant key + 1 <= next <= |lines|
      invariant forall j :: key + 1 <= j < next ==> lines[j].indent > indent && IsDash(lines[j].content)
      invariant items == DashItems(lines, key + 1, next)
    {
      if lines[next].indent <= indent { break; }
      if !IsDash(lines[next].content) { break; }
      var item := Unquote(DashRest(lines[next].content));
      if item != "" { items := items + [item]; }
      next := next + 1;
    }
    ListEndIs(lines, key + 1, indent, next);
  }

  lemma {:induction false} ListEndIs(lines: seq<Line>, i: nat, indent: nat, end: nat)
    requires i <= end <= |lines|
    requires forall j :: i <= j < end ==> lines[j].indent > indent && IsDash(lines[j].content)
    requires end < |lines| ==> lines[end].indent <= indent || !IsDash(lines[end].content)
    ensures ListEnd(lines, i, indent) == end
    decreases end - i
  {
    if i < end { ListEndIs(lines, i + 1, indent, end); }
  }

  /** `ci_yaml_skip_nested_block`: exactly the lines indented deeper than the parent. */
  method SkipNestedBlock(lines: seq<Line>, start: nat, parent: nat) returns (next: nat)
    requires start < |lines|
    ensures next == BlockEnd(lines, start + 1, parent)
  {
    next := start + 1;
    while next < |lines| && lines[next].indent > parent
      invariant start + 1 <= next <= |lines|
      invariant forall j :: start + 1 <= j < next ==> lines[j].indent > parent
    {
      next := next + 1;
    }
    BlockEndIs(lines, start + 1, parent, next);
  }

  /** The scopes that the lines of a permissions block name; a later line wins. */
  function Scopes(lines: seq<Line>, i: nat, end: nat): map<string, Scalar>
    requires i <= end <= |lines|
  {
    if i == end then map[]
    else
      var content := lines[end - 1].content;
      var body := if "- " <= content then content[2..] else content;
      var before := Scopes(lines, i, end - 1);
      match SplitOnce(body, ':')
      case None => before
      case Some((k, v)) =>
        if Unquote(k) == "" then before
        else before[Unquote(k) := if Trim(v) == "" then Str("unparsed nested permission") else ScalarOf(Trim(v))]
  }

  function PermissionOf(lines: seq<Line>, key: nat, indent: nat, value: string): Permission
    requires key < |lines|
  {
    var inline := Trim(value);
    if inline != "" then
      if InlineMapping(inline).Some? then Each(InlineMapping(inline).value) else One(ScalarOf(inline))
    else
      var end := BlockEnd(lines, key + 1, indent);
      var scopes := Scopes(lines, key + 1, end);
      if scopes != map[] then Each(scopes)
      else if end > key + 1 then One(Str("unparsed permissions block"))
      else One(Str("empty permissions block"))
  }

  function PermissionNext(lines: seq<Line>, key: nat, indent: nat, value: string): (next: nat)
    requires key < |lines|
    ensures key < next <= BlockEnd(lines, key + 1, indent)
  {
    if Trim(value) != "" then key + 1 else BlockEnd(lines, key + 1, indent)
  }

  /** `ci_yaml_permissions_at`: it consumes the whole block under the key and nothing else. */
  method PermissionsAt(lines: seq<Line>, key: nat, indent: nat, value: string) returns (permission: Permission, next: nat)
    requires key < |lines|
    ensures permission == PermissionOf(lines, key, indent, value) && next == PermissionNext(lines, key, indent, value)
  {
    hide Unquote, Trim, InlineMapping, ScalarOf, SplitOnce, BlockEnd;
    var inline := Trim(value);
    if inline != "" {
      var mapping := InlineMapping(inline);
      return if mapping.Some? then Each(mapping.value) else One(ScalarOf(inline)), key + 1;
    }
    var scopes: map<string, Scalar> := map[];
    var saw := false;
    next := key + 1;
    while next < |lines|
      invariant key + 1 <= next <= |lines|
      invariant forall j :: key + 1 <= j < next ==> lines[j].indent > indent
      invariant scopes == Scopes(lines, key + 1, next) && saw == (next > key + 1)
    {
      if lines[next].indent <= indent { break; }
      saw := true;
      var content := lines[next].content;
      var body := if "- " <= content then content[2..] else content;
      var split := SplitOnce(body, ':');
      if split.Some? {
        var name := Unquote(split.value.0);
        if name != "" {
          var v := Trim(split.value.1);
          scopes := scopes[name := if v == "" then Str("unparsed nested permission") else ScalarOf(v)];
        }
      }
      next := next + 1;
    }
    BlockEndIs(lines, key + 1, indent, next);
    permission := if scopes != map[] then Each(scopes)
                  else if saw then One(Str("unparsed permissions block")) else One(Str("empty permissions block"));
  }
}
