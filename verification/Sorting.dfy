/** The order of strings, and the stable sort that the tables use. */
module Sorting {
  import opened Collections

  /** Lexicographic order by character, which is also the order of the UTF-8 bytes. */
  predicate Less(a: string, b: string) {
    if b == "" then false
    else if a == "" then true
    else a[0] < b[0] || (a[0] == b[0] && Less(a[1..], b[1..]))
  }

  /** Exactly one of `a < b`, `a == b` and `b < a`. */
  lemma {:induction false} Trichotomy(a: string, b: string)
    ensures Less(a, b) || Less(b, a) || a == b
    ensures !(Less(a, b) && Less(b, a))
    ensures !Less(a, a)
  {
    if a != "" {
      Trichotomy(a[1..], a[1..]);
      if b != "" {
        Trichotomy(a[1..], b[1..]);
        assert a == [a[0]] + a[1..] && b == [b[0]] + b[1..];
      }
    }
  }

  lemma {:induction false} LessTransitive(a: string, b: string, c: string)
    requires Less(a, b) && Less(b, c)
    ensures Less(a, c)
  {
    if a != "" && a[0] == b[0] == c[0] { LessTransitive(a[1..], b[1..], c[1..]); }
  }

  ghost predicate TotalPreorder<T(!new)>(le: (T, T) -> bool) {
    && (forall x, y :: le(x, y) || le(y, x))
    && (forall x, y, z :: le(x, y) && le(y, z) ==> le(x, z))
  }

  predicate Ascending<T>(le: (T, T) -> bool, s: seq<T>) {
    forall i, j :: 0 <= i < j < |s| ==> le(s[i], s[j])
  }

  function Insert<T>(le: (T, T) -> bool, x: T, s: seq<T>): seq<T> {
    if s == [] || le(x, s[0]) then [x] + s else [s[0]] + Insert(le, x, s[1..])
  }

  /** Stable: an element goes before its later equals. */
  function Sort<T>(le: (T, T) -> bool, s: seq<T>): (r: seq<T>) {
    if s == [] then [] else Insert(le, s[0], Sort(le, s[1..]))
  }

  lemma {:induction false} InsertKeeps<T(!new)>(le: (T, T) -> bool, x: T, s: seq<T>)
    requires TotalPreorder(le) && Ascending(le, s)
    ensures Ascending(le, Insert(le, x, s)) && multiset(Insert(le, x, s)) == multiset(s) + multiset{x}
  {
    var r := Insert(le, x, s);
    if s != [] {
      assert s == [s[0]] + s[1..];
      if le(x, s[0]) {
        forall j | 0 <= j < |s| ensures le(x, s[j]) { if j > 0 { assert le(s[0], s[j]); } }
      } else {
        InsertKeeps(le, x, s[1..]);
        var rest := Insert(le, x, s[1..]);
        forall j | 0 <= j < |rest| ensures le(s[0], rest[j]) {
          assert rest[j] in multiset(rest);
          if rest[j] != x { assert rest[j] in multiset(s[1..]); }
        }
      }
    }
  }

  /** Sorting orders the elements and keeps each as often as it came. */
  lemma {:induction false} SortMeans<T(!new)>(le: (T, T) -> bool, s: seq<T>)
    requires TotalPreorder(le)
    ensures Ascending(le, Sort(le, s)) && multiset(Sort(le, s)) == multiset(s)
    ensures |Sort(le, s)| == |s| && forall x :: x in Sort(le, s) <==> x in s
  {
    if s != [] {
      assert s == [s[0]] + s[1..];
      SortMeans(le, s[1..]);
      InsertKeeps(le, s[0], Sort(le, s[1..]));
    }
    assert |multiset(Sort(le, s))| == |multiset(s)|;
    forall x ensures x in Sort(le, s) <==> x in s { assert x in multiset(Sort(le, s)) <==> x in multiset(s); }
  }

  /** How many elements satisfy `p` depends on the elements only, not on their order. */
  lemma {:induction false} CountIsOrderFree<T>(p: T -> bool, s: seq<T>, t: seq<T>)
    requires multiset(s) == multiset(t)
    ensures |Filter(p, s)| == |Filter(p, t)|
    decreases |s|
  {
    hide Filter;
    assert |multiset(s)| == |s| && |multiset(t)| == |t|;
    if s == [] {
      assert t == s;
    } else {
      var k := TakeOut(s, t);
      CountIsOrderFree(p, s[1..], t[..k] + t[k + 1..]);
      assert s == [s[0]] + s[1..] && t == t[..k] + ([t[k]] + t[k + 1..]);
      FilterAppend(p, [s[0]], s[1..]);
      FilterAppend(p, t[..k], t[k + 1..]);
      FilterAppend(p, t[..k], [t[k]] + t[k + 1..]);
      FilterAppend(p, [t[k]], t[k + 1..]);
    }
  }

  lemma TakeOut<T>(s: seq<T>, t: seq<T>) returns (k: nat)
    requires multiset(s) == multiset(t) && s != []
    ensures k < |t| && t[k] == s[0] && multiset(s[1..]) == multiset(t[..k] + t[k + 1..])
  {
    assert s[0] in multiset(t);
    k :| 0 <= k < |t| && t[k] == s[0];
    var without := t[..k] + t[k + 1..];
    assert t == t[..k] + ([t[k]] + t[k + 1..]);
    assert s == [s[0]] + s[1..];
    assert multiset(t) == multiset(without) + multiset{t[k]};
    assert multiset(s) == multiset(s[1..]) + multiset{t[k]};
    assert multiset(s[1..]) == multiset(s) - multiset{t[k]} == multiset(t) - multiset{t[k]} == multiset(without);
  }

  lemma {:induction false} CountAll<T>(p: T -> bool, s: seq<T>)
    requires forall i :: 0 <= i < |s| ==> p(s[i])
    ensures |Filter(p, s)| == |s|
  {
    if s != [] { CountAll(p, s[1..]); }
  }

  lemma {:induction false} CountFewer<T>(p: T -> bool, q: T -> bool, s: seq<T>)
    requires forall i :: 0 <= i < |s| && p(s[i]) ==> q(s[i])
    ensures |Filter(p, s)| <= |Filter(q, s)|
  {
    if s != [] { CountFewer(p, q, s[1..]); }
  }

  /** Two exclusive conditions split a count. */
  lemma {:induction false} CountSplits<T>(p: T -> bool, q: T -> bool, either: T -> bool, s: seq<T>)
    requires forall i :: 0 <= i < |s| ==> (either(s[i]) <==> p(s[i]) || q(s[i])) && !(p(s[i]) && q(s[i]))
    ensures |Filter(either, s)| == |Filter(p, s)| + |Filter(q, s)|
  {
    if s != [] { CountSplits(p, q, either, s[1..]); }
  }

  lemma {:induction false} OnceAtMost<T>(s: seq<T>, x: T)
    requires Distinct(s)
    ensures multiset(s)[x] <= 1
  {
    if s != [] {
      assert s == [s[0]] + s[1..];
      OnceAtMost(s[1..], x);
    }
  }

  lemma DistinctByElements<T>(s: seq<T>, t: seq<T>)
    requires Distinct(s) && multiset(s) == multiset(t)
    ensures Distinct(t)
  {
    forall i, j | 0 <= i < j < |t| ensures t[i] != t[j] {
      if t[i] == t[j] {
        assert t == t[..i] + [t[i]] + t[i + 1..j] + [t[j]] + t[j + 1..];
        assert multiset(t)[t[i]] >= 2;
        OnceAtMost(s, t[i]);
      }
    }
  }

  /** The keys of an ordered map, as iteration visits them. */
  method InOrder<K(==, !new)>(le: (K, K) -> bool, keys: set<K>) returns (s: seq<K>)
    requires TotalPreorder(le)
    ensures Ascending(le, s) && Distinct(s) && forall k :: k in s <==> k in keys
  {
    var some: seq<K> := [];
    var pending := keys;
    while pending != {}
      invariant pending <= keys
      invariant Distinct(some) && forall k :: k in some <==> k in keys - pending
    {
      var k :| k in pending;
      assert k !in some && forall i :: 0 <= i < |some| ==> some[i] in some;
      some := some + [k];
      pending := pending - {k};
    }
    s := Sort(le, some);
    SortMeans(le, some);
    DistinctByElements(some, s);
  }
}
