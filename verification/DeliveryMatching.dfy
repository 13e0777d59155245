/** Matching a terminal delivery transaction with the prepared review comments: the consuming loop of
    `validate_delivery_transaction` (`scripts/reconcile-publication-boundaries-core.py`) and the completeness check
    its entry point adds (`scripts/reconcile-publication-boundaries.py`). */
module DeliveryMatching {
  import opened Collections

  /** Path, line, side and SHA-256 digest of a comment's body. */
  datatype Key = Key(path: string, line: int, side: string, digest: string)

  /** Positions not yet consumed that carry the key. */
  function Open(available: seq<Key>, consumed: set<nat>, k: Key): set<nat> {
    set p: nat | p < |available| && p !in consumed && available[p] == k
  }

  /** The rows consume one matching comment each; a malformed row (`None`), a row with no open
      match and a row with several all fail. */
  predicate Consumes(planned: seq<Option<Key>>, available: seq<Key>, consumed: set<nat>)
    decreases |planned|
  {
    planned == [] ||
    (planned[0].Some? &&
      var matches := Open(available, consumed, planned[0].value);
      |matches| == 1 && Consumes(planned[1..], available, consumed + matches))
  }

  /** The positions that match `k`, found by scanning the comments in order. */
  method ScanMatches(available: seq<Key>, consumed: set<nat>, k: Key) returns (matches: seq<nat>)
    ensures forall p: nat :: p in matches <==> p in Open(available, consumed, k)
    ensures |matches| == |Open(available, consumed, k)|
  {
    matches := [];
    ghost var found: set<nat> := {};
    for p := 0 to |available|
      invariant forall m: nat :: m in matches <==> m < p && m in Open(available, consumed, k)
      invariant found == (set m: nat | m in Open(available, consumed, k) && m < p) && |found| == |matches|
    {
      if p !in consumed && available[p] == k {
        found := found + {p};
        matches := matches + [p];
      }
    }
    assert found == Open(available, consumed, k);
  }

  /** The loop over the planned rows, which keeps going after a failure. */
  method MatchPlan(planned: seq<Option<Key>>, available: seq<Key>) returns (valid: bool)
    ensures valid <==> Consumes(planned, available, {})
  {
    var consumed: set<nat> := {};
    valid := true;
    for i := 0 to |planned|
      invariant valid ==> (Consumes(planned, available, {}) <==> Consumes(planned[i..], available, consumed))
      invariant !valid ==> !Consumes(planned, available, {})
    {
      assert planned[i..][0] == planned[i] && planned[i..][1..] == planned[i + 1..];
      if planned[i].None? {
        valid := false;
      } else {
        var matches := ScanMatches(available, consumed, planned[i].value);
        if |matches| != 1 {
          valid := false;
        } else {
          assert matches[0] in matches;
          SingletonOf(Open(available, consumed, planned[i].value), matches[0]);
          consumed := consumed + {matches[0]};
        }
      }
    }
  }

  lemma SingletonOf(s: set<nat>, x: nat)
    requires |s| == 1 && x in s
    ensures s == {x}
  {
    assert |s - {x}| == 0;
  }

  // ------------------------------------------------------------ what it means

  /** Every row is well formed. */
  predicate AllFormed(planned: seq<Option<Key>>) { forall r :: r in planned ==> r.Some? }

  function Formed(planned: seq<Option<Key>>): (r: seq<Key>)
    requires AllFormed(planned)
    ensures |r| == |planned| && forall i :: 0 <= i < |r| ==> r[i] == planned[i].value
  {
    seq(|planned|, i requires 0 <= i < |planned| => assert planned[i] in planned; planned[i].value)
  }

  lemma OpenAfter(available: seq<Key>, consumed: set<nat>, k0: Key)
    ensures var now := consumed + Open(available, consumed, k0);
      Open(available, now, k0) == {} && forall k :: k != k0 ==> Open(available, now, k) == Open(available, consumed, k)
  {
  }

  /** The loop accepts exactly the plans of distinct keys with one open comment each. */
  lemma {:induction false} ConsumesMeans(planned: seq<Option<Key>>, available: seq<Key>, consumed: set<nat>)
    ensures Consumes(planned, available, consumed) <==>
      AllFormed(planned) && Distinct(Formed(planned)) && forall k :: k in Formed(planned) ==> |Open(available, consumed, k)| == 1
    decreases |planned|
  {
    hide Open, Distinct, AllFormed, Formed;
    if planned != [] && planned[0].Some? && |Open(available, consumed, planned[0].value)| == 1 {
      var rest, k0 := planned[1..], planned[0].value;
      var matches := Open(available, consumed, k0);
      ConsumesMeans(rest, available, consumed + matches);
      FormedCons(planned);
      if AllFormed(rest) {
        OpenAfter(available, consumed, k0);
        DistinctCons(k0, Formed(rest));
      }
    } else if planned != [] {
      FirstFormed(planned);
    } else {
      NoKeys(planned);
    }
  }

  lemma FormedCons(planned: seq<Option<Key>>)
    requires planned != [] && planned[0].Some?
    ensures AllFormed(planned) <==> AllFormed(planned[1..])
    ensures AllFormed(planned) ==> Formed(planned) == [planned[0].value] + Formed(planned[1..])
  {
    assert planned == [planned[0]] + planned[1..];
  }

  lemma FirstFormed(planned: seq<Option<Key>>)
    requires planned != []
    ensures AllFormed(planned) ==> planned[0].Some? && planned[0].value in Formed(planned)
  {
    assert planned[0] in planned;
    if AllFormed(planned) { assert Formed(planned)[0] == planned[0].value; }
  }

  lemma NoKeys(planned: seq<Option<Key>>)
    requires planned == []
    ensures AllFormed(planned) && Formed(planned) == [] && Distinct(Formed(planned))
  {
  }

  lemma DistinctCons<T>(x: T, s: seq<T>)
    ensures Distinct([x] + s) <==> x !in s && Distinct(s)
  {
    var all := [x] + s;
    if Distinct(all) {
      forall i, j | 0 <= i < j < |s| ensures s[i] != s[j] { assert all[i + 1] != all[j + 1]; }
      forall i | 0 <= i < |s| ensures s[i] != x { assert all[0] != all[i + 1]; }
    }
  }

  /** One position carries the key exactly when it occurs once. */
  lemma {:induction false} OpenCounts(available: seq<Key>, k: Key)
    ensures |Open(available, {}, k)| == multiset(available)[k]
  {
    if available == [] {
      assert Open(available, {}, k) == {};
    } else {
      var n := |available| - 1;
      OpenCounts(available[..n], k);
      assert available == available[..n] + [available[n]];
      var shorter := Open(available[..n], {}, k);
      if available[n] == k {
        assert Open(available, {}, k) == shorter + {n} && n !in shorter;
      } else {
        assert Open(available, {}, k) == shorter;
      }
    }
  }

  lemma {:induction false} DistinctOccurOnce<T>(s: seq<T>)
    ensures Distinct(s) <==> forall x :: x in s ==> multiset(s)[x] == 1
  {
    if s != [] {
      DistinctOccurOnce(s[1..]);
      assert s == [s[0]] + s[1..];
      DistinctCons(s[0], s[1..]);
      if forall x :: x in s ==> multiset(s)[x] == 1 {
        assert s[0] in s && multiset(s)[s[0]] == 1 + multiset(s[1..])[s[0]];
        assert forall x :: x in s[1..] ==> x in s && multiset(s[1..])[x] == multiset(s)[x];
      }
      if Distinct(s) {
        assert forall x :: x in s ==> x == s[0] || (x in s[1..] && x != s[0]);
      }
    }
  }

  lemma SubMultisetOfSameSize<T>(a: multiset<T>, b: multiset<T>)
    requires a <= b && |a| == |b|
    ensures a == b
  {
    assert |b - a| == 0;
    assert b == a + (b - a);
  }

  /** The core checker accepts a plan exactly when its keys are distinct and each is the key of
      exactly one prepared comment; comments outside the plan are not noticed. */
  lemma CoreAccepts(planned: seq<Option<Key>>, available: seq<Key>)
    ensures Consumes(planned, available, {}) <==>
      AllFormed(planned) && Distinct(Formed(planned)) && forall k :: k in Formed(planned) ==> multiset(available)[k] == 1
  {
    ConsumesMeans(planned, available, {});
    if AllFormed(planned) {
      forall k | k in Formed(planned) ensures |Open(available, {}, k)| == multiset(available)[k] { OpenCounts(available, k); }
    }
  }

  /** The entry point's verdict: the core accepts and the plan is as long as the payload. */
  predicate Complete(planned: seq<Option<Key>>, available: seq<Key>) {
    Consumes(planned, available, {}) && |planned| == |available|
  }

  /** A plan is complete exactly when it is a bijection with the prepared comments on
      (path, line, side, digest) and no two comments share a key. */
  lemma CompleteIsBijection(planned: seq<Option<Key>>, available: seq<Key>)
    ensures Complete(planned, available) <==>
      AllFormed(planned) && multiset(Formed(planned)) == multiset(available) && Distinct(available)
  {
    CoreAccepts(planned, available);
    if AllFormed(planned) {
      var keys := Formed(planned);
      DistinctOccurOnce(keys);
      DistinctOccurOnce(available);
      if Complete(planned, available) {
        forall k ensures multiset(keys)[k] <= multiset(available)[k] {
          if k in keys { assert multiset(keys)[k] == 1; }
        }
        SubMultisetOfSameSize(multiset(keys), multiset(available));
        assert forall k :: k in available ==> k in multiset(available);
        assert forall k :: k in available ==> k in keys;
      }
      if multiset(keys) == multiset(available) && Distinct(available) {
        assert |keys| == |multiset(keys)| == |available|;
        assert forall k :: k in keys ==> k in multiset(keys);
      }
    }
  }

  predicate OnlyAt<T(==)>(s: seq<T>, x: T, i: int) { 0 <= i < |s| && forall k :: 0 <= k < |s| ==> (s[k] == x <==> k == i) }

  ghost predicate HasPlace<T>(s: seq<T>, x: T) { exists i :: OnlyAt(s, x, i) }

  ghost predicate HavePlaces<T>(s: seq<T>, t: seq<T>) { forall i :: 0 <= i < |t| ==> HasPlace(s, t[i]) }

  /** Two lists are the same multiset without repetition exactly when they pair off their elements. */
  lemma PairsOff<T>(s: seq<T>, t: seq<T>)
    ensures multiset(s) == multiset(t) && Distinct(t) <==> |s| == |t| && HavePlaces(t, s) && HavePlaces(s, t)
  {
    hide HavePlaces;
    if multiset(s) == multiset(t) && Distinct(t) {
      assert |s| == |multiset(s)| == |t|;
      SameDistinct(s, t);
      PlacesOf(s, t);
      PlacesOf(t, s);
    }
    if HavePlaces(t, s) && HavePlaces(s, t) {
      PlacedAreDistinct(s, t);
      PlacedAreDistinct(t, s);
      SameDistinctElements(s, t);
    }
  }

  lemma SameDistinct<T>(s: seq<T>, t: seq<T>)
    requires multiset(s) == multiset(t) && Distinct(t)
    ensures Distinct(s)
  {
    DistinctOccurOnce(s);
    forall x | x in s ensures multiset(s)[x] == 1 {
      assert x in multiset(s);
      DistinctCounts(t, x);
    }
  }

  lemma PlacesOf<T>(t: seq<T>, s: seq<T>)
    requires multiset(s) == multiset(t) && Distinct(t)
    ensures HavePlaces(t, s)
  {
    forall i | 0 <= i < |s| ensures HasPlace(t, s[i]) {
      assert s[i] in multiset(s);
      var j :| 0 <= j < |t| && t[j] == s[i];
      assert OnlyAt(t, s[i], j);
    }
  }

  lemma PlacedAreDistinct<T>(s: seq<T>, t: seq<T>)
    requires HavePlaces(t, s) && HavePlaces(s, t)
    ensures Distinct(s) && forall x :: x in s ==> x in t
  {
    forall i | 0 <= i < |s| ensures s[i] in t && HasPlace(s, s[i]) {
      var j :| OnlyAt(t, s[i], j);
      assert HasPlace(s, t[j]) && t[j] == s[i];
    }
    forall i, j | 0 <= i < j < |s| ensures s[i] != s[j] {
      var k :| OnlyAt(s, s[i], k);
    }
  }

  /** Two identical prepared comments can never be confirmed, although a transaction that lists
      each of them once accounts for everything. */
  lemma IdenticalCommentsAreNeverConfirmed(k: Key)
    ensures multiset(Formed([Some(k), Some(k)])) == multiset([k, k]) && !Complete([Some(k), Some(k)], [k, k])
  {
    assert Formed([Some(k), Some(k)]) == [k, k];
    CompleteIsBijection([Some(k), Some(k)], [k, k]);
    assert [k, k][0] == [k, k][1];
  }

  /** Without the entry point's length check, a plan that leaves comments out is accepted. */
  lemma CoreAcceptsSubsets(available: seq<Key>)
    requires available != []
    ensures Consumes([], available, {}) && !Complete([], available)
  {
  }
}
