/** From the text of a workflow file to its lines, without comments and blanks (`src/ci_audit.rs`). */
module YamlComments {
  import opened Strings
  import opened YamlLines
  import Text

  /** Where the comment of a line starts: at a `#` outside quotes, at the start or after white space. */
  function CommentFrom(line: string, i: nat, single: bool, double: bool): (end: nat)
    requires i <= |line|
    ensures i <= end <= |line|
    decreases |line| - i
  {
    if i == |line| then i
    else if line[i] == '\'' && !double then CommentFrom(line, i + 1, !single, double)
    else if line[i] == '"' && !single then CommentFrom(line, i + 1, single, !double)
    else if line[i] == '#' && !single && !double && (i == 0 || IsSpace(line[i - 1])) then i
    else CommentFrom(line, i + 1, single, double)
  }

  function WithoutComment(line: string): string { line[..CommentFrom(line, 0, false, false)] }

  /** `ci_yaml_strip_comment`. */
  method StripComment(line: string) returns (rest: string)
    ensures rest == WithoutComment(line)
  {
    var single, double := false, false;
    for i := 0 to |line|
      invariant CommentFrom(line, i, single, double) == CommentFrom(line, 0, false, false)
    {
      if line[i] == '\'' && !double {
        single := !single;
      } else if line[i] == '"' && !single {
        double := !double;
      } else if line[i] == '#' && !single && !double && (i == 0 || IsSpace(line[i - 1])) {
        return line[..i];
      }
    }
    rest := line;
  }

  /** A cut line has no comment left: the cut is where the first one starts. */
  lemma {:induction false} CutHasNoComment(line: string, i: nat, single: bool, double: bool)
    requires i <= |line|
    ensures var end := CommentFrom(line, i, single, double); CommentFrom(line[..end], i, single, double) == end
    decreases |line| - i
  {
    var end := CommentFrom(line, i, single, double);
    if i < end {
      assert line[..end][i] == line[i] && (i > 0 ==> line[..end][i - 1] == line[i - 1]);
      if line[i] == '\'' && !double {
        CutHasNoComment(line, i + 1, !single, double);
      } else if line[i] == '"' && !single {
        CutHasNoComment(line, i + 1, single, !double);
      } else {
        CutHasNoComment(line, i + 1, single, double);
      }
    }
  }

  lemma StrippingIsStable(line: string)
    ensures WithoutComment(WithoutComment(line)) == WithoutComment(line)
  {
    CutHasNoComment(line, 0, false, false);
  }

  /** The indent and content of a raw line, unless it is blank. */
  function Prepared(raw: string): seq<Line> {
    var trimmed := TrimEnd(WithoutComment(raw));
    if Trim(trimmed) == "" then []
    else [Line(|trimmed| - |TrimStart(trimmed)|, TrimStart(trimmed))]
  }

  function PreparedTo(raw: seq<string>, n: nat): seq<Line>
    requires n <= |raw|
  {
    if n == 0 then [] else PreparedTo(raw, n - 1) + Prepared(raw[n - 1])
  }

  function LinesOf(text: string): seq<Line> {
    var raw := Text.Split(text, '\n');
    PreparedTo(raw, |raw|)
  }

  method PrepareLines(text: string) returns (lines: seq<Line>)
    ensures lines == LinesOf(text)
  {
    hide WithoutComment, Trim, TrimStart, TrimEnd;
    var raw := Text.Split(text, '\n');
    lines := [];
    for n := 0 to |raw|
      invariant lines == PreparedTo(raw, n)
    {
      var stripped := StripComment(raw[n]);
      var trimmed := TrimEnd(stripped);
      if Trim(trimmed) != "" {
        var content := TrimStart(trimmed);
        lines := lines + [Line(|trimmed| - |content|, content)];
      } else {
        assert lines + [] == lines;
      }
    }
  }
}
