/** White space, letter case and substrings; white space and case are those of ASCII. */
module Strings {

  predicate IsSpace(c: char) { c == ' ' || '\t' <= c <= '\r' }

  function TrimStart(s: string): (r: string)
    ensures |r| <= |s| && (r != "" ==> !IsSpace(r[0]))
  {
    if s != "" && IsSpace(s[0]) then TrimStart(s[1..]) else s
  }

  function TrimEnd(s: string): (r: string)
    ensures r <= s && (r != "" ==> !IsSpace(r[|r| - 1]))
  {
    if s != "" && IsSpace(s[|s| - 1]) then TrimEnd(s[..|s| - 1]) else s
  }

  function Trim(s: string): string { TrimEnd(TrimStart(s)) }

  function LowerChar(c: char): char { if 'A' <= c <= 'Z' then (c - 'A') + 'a' else c }
  function Lower(s: string): string { seq(|s|, i requires 0 <= i < |s| => LowerChar(s[i])) }

  predicate Contains(s: string, part: string) { exists i :: 0 <= i <= |s| && part <= s[i..] }
  predicate ContainsAny(s: string, parts: seq<string>) { exists k :: 0 <= k < |parts| && Contains(s, parts[k]) }

  function Repeat(ch: char, n: nat): (s: string)
    ensures |s| == n && (forall c :: c in s ==> c == ch) && (n > 0 ==> ch in s)
  {
    if n == 0 then "" else [ch] + Repeat(ch, n - 1)
  }
}
