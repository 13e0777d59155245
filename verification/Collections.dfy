/** Option, and the few sequence functions the models share. */
module Collections {

  datatype Option<+T> = None | Some(value: T)

  /** The elements of `s` that satisfy `p`, in order. */
  function Filter<T>(p: T -> bool, s: seq<T>): (r: seq<T>)
    ensures forall x :: x in r ==> x in s && p(x)
    ensures forall x :: x in s && p(x) ==> x in r
    ensures |r| <= |s|
  {
    if s == [] then []
    else (if p(s[0]) then [s[0]] else []) + Filter(p, s[1..])
  }

  lemma {:induction false} FilterAppend<T>(p: T -> bool, s: seq<T>, t: seq<T>)
    ensures Filter(p, s + t) == Filter(p, s) + Filter(p, t)
  {
    if s == [] {
      assert s + t == t;
    } else {
      assert (s + t)[1..] == s[1..] + t;
      FilterAppend(p, s[1..], t);
    }
  }

  lemma {:induction false} FilterAgrees<T>(p: T -> bool, q: T -> bool, s: seq<T>)
    requires forall x :: x in s ==> (p(x) <==> q(x))
    ensures Filter(p, s) == Filter(q, s)
  {
    if s != [] { FilterAgrees(p, q, s[1..]); }
  }

  lemma FilterOne<T>(p: T -> bool, x: T)
    ensures Filter(p, [x]) == if p(x) then [x] else []
  {
  }

  lemma {:induction false} FilterKeepsAll<T>(p: T -> bool, s: seq<T>)
    ensures Filter(p, s) == s <==> forall i :: 0 <= i < |s| ==> p(s[i])
  {
    if s != [] {
      FilterKeepsAll(p, s[1..]);
      assert s == [s[0]] + s[1..];
      if !p(s[0]) { assert |Filter(p, s)| <= |s[1..]|; }
    }
  }

  lemma {:induction false} FilterKeepsNone<T>(p: T -> bool, s: seq<T>)
    requires forall i :: 0 <= i < |s| ==> !p(s[i])
    ensures Filter(p, s) == []
  {
    if s != [] { FilterKeepsNone(p, s[1..]); }
  }

  /** When one place satisfies the condition, its element is all that stays. */
  lemma FilterKeepsOne<T>(p: T -> bool, s: seq<T>, i: nat)
    requires i < |s| && forall j :: 0 <= j < |s| ==> (p(s[j]) <==> j == i)
    ensures Filter(p, s) == [s[i]]
  {
    assert s == s[..i] + ([s[i]] + s[i + 1..]);
    FilterKeepsNone(p, s[..i]);
    FilterKeepsNone(p, s[i + 1..]);
    FilterAppend(p, s[..i], [s[i]] + s[i + 1..]);
    FilterAppend(p, [s[i]], s[i + 1..]);
  }

  /** The place of the one element that satisfies the condition. */
  lemma {:induction false} FilterFindsOne<T>(p: T -> bool, s: seq<T>) returns (i: nat)
    requires |Filter(p, s)| == 1
    ensures i < |s| && forall j :: 0 <= j < |s| ==> (p(s[j]) <==> j == i)
  {
    i := 0;
    if p(s[0]) {
      assert Filter(p, s[1..]) == [];
      assert forall j :: 0 < j < |s| ==> s[j] == s[1..][j - 1] && s[j] in s[1..];
    } else {
      var n := FilterFindsOne(p, s[1..]);
      i := n + 1;
      forall j | 0 < j < |s| ensures p(s[j]) <==> j == i { assert s[1..][j - 1] == s[j]; }
    }
  }

  predicate Distinct<T(==)>(s: seq<T>) {
    forall i, j :: 0 <= i < j < |s| ==> s[i] != s[j]
  }

  lemma {:induction false} DistinctCounts<T>(s: seq<T>, x: T)
    requires Distinct(s)
    ensures multiset(s)[x] == if x in s then 1 else 0
  {
    if s != [] {
      assert s == [s[0]] + s[1..];
      DistinctCounts(s[1..], x);
    }
  }

  lemma SameDistinctElements<T>(s: seq<T>, t: seq<T>)
    requires Distinct(s) && Distinct(t) && forall x :: x in s <==> x in t
    ensures multiset(s) == multiset(t)
  {
    forall x: T ensures multiset(s)[x] == multiset(t)[x] {
      DistinctCounts(s, x);
      DistinctCounts(t, x);
    }
  }
}
