/** Splitting and joining on one separator character, as Python's `str.split` and `str.join` do. */
module Text {

  function Split(s: string, c: char): (r: seq<string>)
    ensures |r| > 0
  {
    if s == [] then [""]
    else
      var rest := Split(s[1..], c);
      if s[0] == c then [""] + rest else [[s[0]] + rest[0]] + rest[1..]
  }

  function Join(parts: seq<string>, c: char): string
    requires parts != []
  {
    if |parts| == 1 then parts[0] else parts[0] + [c] + Join(parts[1..], c)
  }

  predicate Free(parts: seq<string>, c: char) { forall p :: p in parts ==> c !in p }

  /** Splitting loses nothing, and no part holds the separator. */
  lemma {:induction false} JoinSplit(s: string, c: char)
    ensures Join(Split(s, c), c) == s && Free(Split(s, c), c)
  {
    if s != [] {
      var rest := Split(s[1..], c);
      JoinSplit(s[1..], c);
      var r := Split(s, c);
      if s[0] == c {
        assert r[1..] == rest;
        assert Join(r, c) == [c] + Join(rest, c);
      } else {
        assert r[0] == [s[0]] + rest[0] && r[1..] == rest[1..];
        assert rest[0] in rest && forall p :: p in rest[1..] ==> p in rest;
        assert Join(r, c) == [s[0]] + Join(rest, c);
      }
    }
  }

  /** Parts without the separator are recovered from their join. */
  lemma {:induction false} SplitJoin(parts: seq<string>, c: char)
    requires parts != [] && Free(parts, c)
    ensures Split(Join(parts, c), c) == parts
    decreases |parts|
  {
    var rest := parts[1..];
    assert parts[0] in parts && forall p :: p in rest ==> p in parts;
    if rest == [] {
      SplitFree(parts[0], c);
    } else {
      SplitJoin(rest, c);
      SplitFirst(parts[0], Join(rest, c), c);
      assert parts == [parts[0]] + rest;
      assert Join(parts, c) == parts[0] + [c] + Join(rest, c);
    }
  }

  lemma {:induction false} SplitFree(s: string, c: char)
    requires c !in s
    ensures Split(s, c) == [s]
  {
    if s != [] {
      SplitFree(s[1..], c);
      assert s == [s[0]] + s[1..];
    }
  }

  lemma {:induction false} SplitFirst(head: string, tail: string, c: char)
    requires c !in head
    ensures Split(head + [c] + tail, c) == [head] + Split(tail, c)
  {
    var all := head + [c] + tail;
    if head == [] {
      assert all[0] == c && all[1..] == tail;
    } else {
      SplitFirst(head[1..], tail, c);
      assert all[1..] == head[1..] + [c] + tail;
      assert all[0] == head[0] && head == [head[0]] + head[1..];
    }
  }

  lemma {:induction false} JoinSnoc(parts: seq<string>, last: string, c: char)
    requires parts != []
    ensures Join(parts + [last], c) == Join(parts, c) + [c] + last
    decreases |parts|
  {
    var all := parts + [last];
    assert all[1..] == parts[1..] + [last];
    if |parts| > 1 { JoinSnoc(parts[1..], last, c); }
  }

  lemma {:induction false} JoinHolds(parts: seq<string>, c: char, x: char)
    requires parts != []
    ensures x in Join(parts, c) ==> x == c || exists p :: p in parts && x in p
    decreases |parts|
  {
    if |parts| > 1 {
      JoinHolds(parts[1..], c, x);
      assert forall p :: p in parts[1..] ==> p in parts;
    }
  }
}
