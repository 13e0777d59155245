/** The size of a literal strategy matrix (`src/ci_audit.rs`). */
module MatrixSize {
  import opened Collections
  import opened Strings
  import opened YamlLines

  const USIZE_MAX: nat := 0xFFFF_FFFF_FFFF_FFFF

  datatype Gap =
    | InlineMatrix(text: string) | InlineStrategy(text: string) | NotKeyValue(content: string) | Adjustment(key: string)
    | Dynamic(key: string) | NotLiteral(key: string) | NoDimensions

  // ------------------------------------------------------------------- product

  function SaturatingMul(a: nat, b: nat): nat { if a * b > USIZE_MAX then USIZE_MAX else a * b }

  function Product(dims: seq<nat>): nat { if dims == [] then 1 else Product(dims[..|dims| - 1]) * dims[|dims| - 1] }

  function Capped(n: nat): nat { if n > USIZE_MAX then USIZE_MAX else n }

  predicate Positive(dims: seq<nat>) { forall i :: 0 <= i < |dims| ==> dims[i] >= 1 }

  lemma {:induction false} ProductIsPositive(dims: seq<nat>)
    requires Positive(dims)
    ensures Product(dims) >= 1
  {
    if dims != [] {
      ProductIsPositive(dims[..|dims| - 1]);
      AtLeast(Product(dims[..|dims| - 1]), dims[|dims| - 1]);
    }
  }

  lemma AtLeast(a: nat, b: nat)
    requires b >= 1
    ensures a * b >= a
  {
  }

  /** Saturating at every step is capping the product once. */
  lemma CappedProduct(dims: seq<nat>, d: nat)
    requires Positive(dims) && d >= 1
    ensures SaturatingMul(Capped(Product(dims)), d) == Capped(Product(dims + [d]))
  {
    assert (dims + [d])[..|dims|] == dims;
    AtLeast(Product(dims), d);
    AtLeast(USIZE_MAX, d);
    if Product(dims) > USIZE_MAX { assert Product(dims) * d >= Product(dims); }
  }

  // -------------------------------------------------------------------- matrix

  datatype Dimensions = Dimensions(dims: seq<nat>, gaps: seq<Gap>)

  /** What one line at the indent of the dimensions contributes. */
  function DimensionAt(lines: seq<Line>, i: nat): (d: Dimensions)
    requires i < |lines|
    ensures Positive(d.dims)
  {
    var content, indent := lines[i].content, lines[i].indent;
    match SplitOnce(content, ':')
    case None => Dimensions([], [NotKeyValue(content)])
    case Some((rawKey, rawValue)) =>
      var key, value := Unquote(rawKey), Trim(rawValue);
      if key == "include" || key == "exclude" then Dimensions([], [Adjustment(key)])
      else if Contains(value, "${{") then Dimensions([], [Dynamic(key)])
      else if value == "" then
        var items := ListItems(lines, i, indent, value);
        if items == [] then Dimensions([], [NotLiteral(key)]) else Dimensions([|items|], [])
      else if InlineList(value).Some? then
        var items := InlineList(value).value;
        Dimensions([if |items| == 0 then 1 else |items|], [])
      else Dimensions([1], [])
  }

  /** A line of the block that names a dimension: at the indent of the block's first line, and no dash item. */
  predicate NamesDimension(lines: seq<Line>, key: nat, i: nat)
    requires key + 1 <= i < |lines|
  {
    lines[i].indent == lines[key + 1].indent && !("-" <= lines[i].content)
  }

  /** The dimensions of lines `key + 1 .. end`, whatever lies between them. */
  function DimensionsTo(lines: seq<Line>, key: nat, end: nat): (d: Dimensions)
    requires key + 1 <= end <= |lines|
    ensures Positive(d.dims)
  {
    if end == key + 1 then Dimensions([], [])
    else
      var before := DimensionsTo(lines, key, end - 1);
      if NamesDimension(lines, key, end - 1) then
        var one := DimensionAt(lines, end - 1);
        Dimensions(before.dims + one.dims, before.gaps + one.gaps)
      else before
  }

  datatype Sized = Sized(size: nat, gaps: seq<Gap>)

  function MatrixOf(lines: seq<Line>, key: nat, indent: nat, value: string): Sized
    requires key < |lines|
  {
    if Trim(value) != "" then Sized(1, [InlineMatrix(Trim(value))])
    else
      var d := DimensionsTo(lines, key, BlockEnd(lines, key + 1, indent));
      Sized(Capped(Product(d.dims)), if d.dims == [] && d.gaps == [] then [NoDimensions] else d.gaps)
  }

  function NextAfter(lines: seq<Line>, key: nat, indent: nat, value: string): (next: nat)
    requires key < |lines|
    ensures key < next <= BlockEnd(lines, key + 1, indent)
  {
    if Trim(value) != "" then key + 1 else BlockEnd(lines, key + 1, indent)
  }

  /** Lines deeper than the dimensions name none. */
  lemma {:induction false} SkippedLines(lines: seq<Line>, key: nat, from: nat, to: nat)
    requires key + 1 <= from <= to <= |lines|
    requires forall j :: from <= j < to ==> lines[j].indent > lines[key + 1].indent
    ensures DimensionsTo(lines, key, to) == DimensionsTo(lines, key, from)
  {
    if from < to { SkippedLines(lines, key, from, to - 1); }
  }

  /**
   * `ci_yaml_matrix_literal_size_at`: the product of the literal dimensions of the whole block, capped once, and never zero.
   * The cursor is the end of the block.
   */
  method MatrixSizeAt(lines: seq<Line>, key: nat, indent: nat, value: string) returns (size: nat, gaps: seq<Gap>, next: nat)
    requires key < |lines|
    ensures Sized(size, gaps) == MatrixOf(lines, key, indent, value) && size >= 1
    ensures next == NextAfter(lines, key, indent, value)
  {
    hide DimensionsTo, Product, Capped;
    var inline := Trim(value);
    if inline != "" { return 1, [InlineMatrix(inline)], key + 1; }
    var saw;
    ghost var dims;
    size, gaps, saw, next, dims := ReadDimensions(lines, key, indent);
    if !saw && gaps == [] { gaps := [NoDimensions]; }
    size := AtLeastOne(size);
  }

  /** The lines of the block, one dimension at a time. */
  method ReadDimensions(lines: seq<Line>, key: nat, indent: nat)
    returns (size: nat, gaps: seq<Gap>, saw: bool, next: nat, ghost dims: seq<nat>)
    requires key < |lines|
    ensures next == BlockEnd(lines, key + 1, indent) && Dimensions(dims, gaps) == DimensionsTo(lines, key, next)
    ensures size == Capped(Product(dims)) && size >= 1 && saw == (dims != [])
  {
    hide DimensionAt, Product, Capped, BlockEnd;
    size, gaps, saw, next, dims := 1, [], false, key + 1, [];
    EmptyProduct();
    while next < |lines|
      invariant key + 1 <= next <= |lines|
      invariant forall j :: key + 1 <= j < next ==> lines[j].indent > indent
      invariant Dimensions(dims, gaps) == DimensionsTo(lines, key, next)
      invariant size == Capped(Product(dims)) && saw == (dims != [])
    {
      if lines[next].indent <= indent { break; }
      var expected := lines[key + 1].indent;
      if lines[next].indent != expected || "-" <= lines[next].content {
        next := next + 1;
      } else {
        var d, more, after := ReadDimension(lines, next);
        SkippedLines(lines, key, next + 1, after);
        next := after;
        gaps := gaps + more;
        assert dims + [] == dims;
        if d.Some? {
          CappedProduct(dims, d.value);
          saw := true;
          size := SaturatingMul(size, d.value);
          dims := dims + [d.value];
        }
      }
    }
    BlockEndIs(lines, key + 1, indent, next);
    ProductIsPositive(dims);
    CappedIsPositive(Product(dims));
  }

  function AtLeastOne(n: nat): nat { if n < 1 then 1 else n }

  lemma CappedIsPositive(n: nat)
    ensures n >= 1 ==> Capped(n) >= 1
  {
  }

  lemma EmptyProduct()
    ensures Product([]) == 1 && Capped(Product([])) == 1
  {
  }

  /** One dimension line, and the cursor after it. */
  method ReadDimension(lines: seq<Line>, i: nat) returns (d: Option<nat>, gaps: seq<Gap>, next: nat)
    requires i < |lines|
    ensures DimensionAt(lines, i) == Dimensions(if d.Some? then [d.value] else [], gaps)
    ensures d.Some? ==> d.value >= 1
    ensures i < next <= |lines| && forall j :: i < j < next ==> lines[j].indent > lines[i].indent
  {
    hide Contains, InlineList, Unquote, ListItems, ListEnd;
    var content := lines[i].content;
    var split := SplitOnce(content, ':');
    if split.None? { return None, [NotKeyValue(content)], i + 1; }
    var key, value := Unquote(split.value.0), Trim(split.value.1);
    if key == "include" || key == "exclude" {
      var after := SkipNestedBlock(lines, i, lines[i].indent);
      return None, [Adjustment(key)], after;
    }
    if Contains(value, "${{") { return None, [Dynamic(key)], i + 1; }
    if value == "" {
      var items, after := ListAt(lines, i, lines[i].indent, value);
      if items == [] { return None, [NotLiteral(key)], after; }
      return Some(|items|), [], after;
    }
    var list := InlineList(value);
    d := Some(if list.Some? && |list.value| > 0 then |list.value| else 1);
    gaps, next := [], i + 1;
  }

  // ------------------------------------------------------------------ strategy

  /** The last `matrix` of the block decides the size; the gaps of all are kept. */
  function StrategyTo(lines: seq<Line>, key: nat, end: nat): Sized
    requires key + 1 <= end <= |lines|
  {
    if end == key + 1 then Sized(1, [])
    else
      var before := StrategyTo(lines, key, end - 1);
      var content := lines[end - 1].content;
      if NamesDimension(lines, key, end - 1) && "matrix:" <= content then
        var m := MatrixOf(lines, end - 1, lines[end - 1].indent, content[7..]);
        Sized(m.size, before.gaps + m.gaps)
      else before
  }

  function StrategyOf(lines: seq<Line>, key: nat, indent: nat, value: string): Sized
    requires key < |lines|
  {
    if Trim(value) != "" then Sized(1, [InlineStrategy(Trim(value))])
    else StrategyTo(lines, key, BlockEnd(lines, key + 1, indent))
  }

  lemma {:induction false} SkippedStrategy(lines: seq<Line>, key: nat, from: nat, to: nat)
    requires key + 1 <= from <= to <= |lines|
    requires forall j :: from <= j < to ==> lines[j].indent > lines[key + 1].indent
    ensures StrategyTo(lines, key, to) == StrategyTo(lines, key, from)
  {
    if from < to { SkippedStrategy(lines, key, from, to - 1); }
  }

  /** `ci_yaml_strategy_matrix_size_at`. */
  method StrategySizeAt(lines: seq<Line>, key: nat, indent: nat, value: string) returns (size: nat, gaps: seq<Gap>, next: nat)
    requires key < |lines|
    ensures Sized(size, gaps) == StrategyOf(lines, key, indent, value) && size >= 1
    ensures next == NextAfter(lines, key, indent, value)
  {
    hide MatrixOf, DimensionsTo;
    var inline := Trim(value);
    if inline != "" { return 1, [InlineStrategy(inline)], key + 1; }
    size, gaps, next := 1, [], key + 1;
    while next < |lines|
      invariant key + 1 <= next <= |lines|
      invariant forall j :: key + 1 <= j < next ==> lines[j].indent > indent
      invariant Sized(size, gaps) == StrategyTo(lines, key, next) && size >= 1
    {
      if lines[next].indent <= indent { break; }
      var expected := lines[key + 1].indent;
      var content := lines[next].content;
      if lines[next].indent != expected || "-" <= content {
        next := next + 1;
      } else if "matrix:" <= content {
        ghost var at := next;
        var inner, more, after := MatrixSizeAt(lines, next, lines[next].indent, content[7..]);
        size, gaps, next := inner, gaps + more, after;
        SkippedStrategy(lines, key, at + 1, next);
      } else {
        next := next + 1;
      }
    }
    BlockEndIs(lines, key + 1, indent, next);
  }
}
