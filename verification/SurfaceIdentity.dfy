/** The identity of a compiler surface (`compiler_surface_id`, `src/compiler_reconciliation.rs`): a seven-line text
    that is hashed. The lane is the one free-form field the text does not escape. */
module SurfaceIdentity {
  import opened Collections
  import opened Decimal

  datatype Kind = Inline | Summary

  function KindName(k: Kind): string { if k.Inline? then "inline" else "summary" }

  /** `str::replace` with a one-character pattern. */
  function Replace(s: string, c: char, with: string): string {
    if s == "" then "" else (if s[0] == c then with else [s[0]]) + Replace(s[1..], c, with)
  }

  function Escape(s: string): string { Replace(Replace(s, '\\', "\\\\"), '\n', "\\n") }

  /** What the two replacements do to one character. */
  function EscapeChar(c: char): string { if c == '\\' then "\\\\" else if c == '\n' then "\\n" else [c] }

  lemma {:induction false} ReplaceAppend(a: string, b: string, c: char, with: string)
    ensures Replace(a + b, c, with) == Replace(a, c, with) + Replace(b, c, with)
  {
    if a == "" {
      assert a + b == b;
    } else {
      assert (a + b)[1..] == a[1..] + b;
      ReplaceAppend(a[1..], b, c, with);
    }
  }

  lemma EscapeStep(s: string)
    requires s != ""
    ensures Escape(s) == EscapeChar(s[0]) + Escape(s[1..])
  {
    var head := if s[0] == '\\' then "\\\\" else [s[0]];
    ReplaceAppend(head, Replace(s[1..], '\\', "\\\\"), '\n', "\\n");
    assert Replace(s, '\\', "\\\\") == head + Replace(s[1..], '\\', "\\\\");
    assert Replace("\\\\", '\n', "\\n") == "\\\\" by {
      assert "\\\\"[1..] == "\\" && "\\"[1..] == "";
    }
    assert Replace([s[0]], '\n', "\\n") == if s[0] == '\n' then "\\n" else [s[0]] by {
      assert [s[0]][1..] == "";
    }
  }

  lemma {:induction false} EscapeHasNoBreak(s: string)
    ensures '\n' !in Escape(s)
  {
    if s != "" {
      EscapeHasNoBreak(s[1..]);
      EscapeStep(s);
    }
  }

  /** Escaping loses nothing. */
  lemma {:induction false} EscapeIsInjective(a: string, b: string)
    requires Escape(a) == Escape(b)
    ensures a == b
  {
    if a != "" { EscapeStep(a); }
    if b != "" { EscapeStep(b); }
    if a != "" && b != "" {
      var x, y := EscapeChar(a[0]), EscapeChar(b[0]);
      assert (x + Escape(a[1..]))[0] == x[0] && (y + Escape(b[1..]))[0] == y[0];
      if |x| == 2 { assert (x + Escape(a[1..]))[1] == x[1]; }
      if |y| == 2 { assert (y + Escape(b[1..]))[1] == y[1]; }
      assert a[0] == b[0];
      assert (x + Escape(a[1..]))[|x|..] == Escape(a[1..]) && (y + Escape(b[1..]))[|y|..] == Escape(b[1..]);
      EscapeIsInjective(a[1..], b[1..]);
      assert a == [a[0]] + a[1..] && b == [b[0]] + b[1..];
    }
  }

  /** The fields that make up an identity. An absent path or suggestion reads as the empty text. */
  datatype Fields = Fields(kind: Kind, lane: string, path: string, line: Option<nat>, text: string, evidence: string, suggestion: string)

  function LineText(line: Option<nat>): string { if line.None? then "" else Digits(line.value) }

  function IdentityText(f: Fields): string {
    "kind=" + KindName(f.kind) + "\nlane=" + f.lane + "\npath=" + Escape(f.path) + "\nline=" + LineText(f.line)
    + "\ntext=" + Escape(f.text) + "\nevidence=" + Escape(f.evidence) + "\nsuggestion=" + Escape(f.suggestion)
  }

  /** Two texts that end in lines without breaks agree on those lines and on what precedes them. */
  lemma CutLast(a: string, key: string, x: string, b: string, y: string)
    requires a + "\n" + key + x == b + "\n" + key + y
    requires '\n' !in key && '\n' !in x && '\n' !in y
    ensures a == b && x == y
  {
    var s, t := a + "\n" + key + x, b + "\n" + key + y;
    assert s[|a|] == '\n' && t[|b|] == '\n';
    assert forall i :: |a| < i < |s| ==> s[i] != '\n' by {
      forall i | |a| < i < |s| ensures s[i] != '\n' {
        assert s[i] == (key + x)[i - |a| - 1];
        assert (key + x)[i - |a| - 1] in key || (key + x)[i - |a| - 1] in x;
      }
    }
    assert forall i :: |b| < i < |t| ==> t[i] != '\n' by {
      forall i | |b| < i < |t| ensures t[i] != '\n' {
        assert t[i] == (key + y)[i - |b| - 1];
        assert (key + y)[i - |b| - 1] in key || (key + y)[i - |b| - 1] in y;
      }
    }
    assert |a| == |b|;
    assert a == s[..|a|] && b == t[..|b|];
    assert x == s[|a| + 1 + |key|..] && y == t[|b| + 1 + |key|..];
  }

  function Front(f: Fields): string { "kind=" + KindName(f.kind) + "\nlane=" + f.lane }

  lemma FrontDiffers(f: Fields, g: Fields)
    requires Front(f) == Front(g)
    ensures f.kind == g.kind && f.lane == g.lane
  {
    assert Front(f)[5] == KindName(f.kind)[0] && Front(g)[5] == KindName(g.kind)[0];
    var n := |"kind=" + KindName(f.kind) + "\nlane="|;
    assert f.lane == Front(f)[n..] && g.lane == Front(g)[n..];
  }

  lemma LineTextDiffers(a: Option<nat>, b: Option<nat>)
    ensures '\n' !in LineText(a) && (LineText(a) == LineText(b) <==> a == b)
  {
    if a.Some? && b.Some? { DigitsDiffer(a.value, b.value); }
  }

  /** The unescaped lane does not blur identities: the text determines every field. */
  lemma IdentityIsInjective(f: Fields, g: Fields)
    ensures IdentityText(f) == IdentityText(g) <==> f == g
  {
    if IdentityText(f) == IdentityText(g) {
      hide Escape;
      EscapeHasNoBreak(f.suggestion); EscapeHasNoBreak(g.suggestion);
      EscapeHasNoBreak(f.evidence); EscapeHasNoBreak(g.evidence);
      EscapeHasNoBreak(f.text); EscapeHasNoBreak(g.text);
      EscapeHasNoBreak(f.path); EscapeHasNoBreak(g.path);
      LineTextDiffers(f.line, g.line);
      LineTextDiffers(g.line, f.line);
      var f1, g1 := Front(f) + "\n" + "path=" + Escape(f.path), Front(g) + "\n" + "path=" + Escape(g.path);
      var f2, g2 := f1 + "\n" + "line=" + LineText(f.line), g1 + "\n" + "line=" + LineText(g.line);
      var f3, g3 := f2 + "\n" + "text=" + Escape(f.text), g2 + "\n" + "text=" + Escape(g.text);
      var f4, g4 := f3 + "\n" + "evidence=" + Escape(f.evidence), g3 + "\n" + "evidence=" + Escape(g.evidence);
      Grouped(f);
      Grouped(g);
      CutLast(f4, "suggestion=", Escape(f.suggestion), g4, Escape(g.suggestion));
      CutLast(f3, "evidence=", Escape(f.evidence), g3, Escape(g.evidence));
      CutLast(f2, "text=", Escape(f.text), g2, Escape(g.text));
      CutLast(f1, "line=", LineText(f.line), g1, LineText(g.line));
      CutLast(Front(f), "path=", Escape(f.path), Front(g), Escape(g.path));
      FrontDiffers(f, g);
      EscapeIsInjective(f.path, g.path);
      EscapeIsInjective(f.text, g.text);
      EscapeIsInjective(f.evidence, g.evidence);
      EscapeIsInjective(f.suggestion, g.suggestion);
    }
  }

  lemma Grouped(f: Fields)
    ensures IdentityText(f) ==
      Front(f) + "\n" + "path=" + Escape(f.path) + "\n" + "line=" + LineText(f.line) + "\n" + "text=" + Escape(f.text)
      + "\n" + "evidence=" + Escape(f.evidence) + "\n" + "suggestion=" + Escape(f.suggestion)
  {
    hide Escape, Front, LineText;
    var front := Front(f);
    var path := Glue(front, "path=", "\npath=", Escape(f.path));
    var line := Glue(path, "line=", "\nline=", LineText(f.line));
    var text := Glue(line, "text=", "\ntext=", Escape(f.text));
    var evidence := Glue(text, "evidence=", "\nevidence=", Escape(f.evidence));
    var suggestion := Glue(evidence, "suggestion=", "\nsuggestion=", Escape(f.suggestion));
    assert IdentityText(f) == suggestion by { FrontIsFirst(f); }
  }

  lemma FrontIsFirst(f: Fields)
    ensures IdentityText(f) == Front(f) + "\npath=" + Escape(f.path) + "\nline=" + LineText(f.line)
      + "\ntext=" + Escape(f.text) + "\nevidence=" + Escape(f.evidence) + "\nsuggestion=" + Escape(f.suggestion)
  {
    hide Escape, LineText;
  }

  lemma Glue(a: string, key: string, line: string, rest: string) returns (all: string)
    requires line == "\n" + key
    ensures all == a + line + rest == a + "\n" + key + rest
  {
    all := a + line + rest;
    assert a + line == a + "\n" + key;
  }
}
