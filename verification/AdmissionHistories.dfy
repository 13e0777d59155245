/** What the adapter reads of a lane's history, page by page: exactly the rows of the pages up to the anchor's, and
    only if those pages are whole. */
module AdmissionHistories {
  import opened Collections
  import opened NativeRecords
  import opened AdmissionPolicy

  function Flat(pages: seq<seq<Row>>, n: nat): seq<Row>
    requires n <= |pages|
  {
    if n == 0 then [] else Flat(pages, n - 1) + pages[n - 1]
  }

  /** The rows of the first `n` pages that are not below the floor. */
  function Kept(pages: seq<seq<Row>>, n: nat, floor: int): seq<Row>
    requires n <= |pages|
  {
    AboveFloor(Flat(pages, n), floor)
  }

  /** The first `n` pages hold one to a hundred rows each, all of that source, and no run twice. */
  ghost predicate Whole(pages: seq<seq<Row>>, source: Source, n: nat)
    requires n <= |pages|
  {
    && (forall k :: 0 <= k < n ==> 1 <= |pages[k]| <= 100)
    && (forall row :: row in Flat(pages, n) ==> row.facts.source == source)
    && IdsDiffer(Flat(pages, n))
  }

  predicate IdsDiffer(rows: seq<Row>) { forall i, j :: 0 <= i < j < |rows| ==> rows[i].facts.id != rows[j].facts.id }

  /** `rows` are those of the first `n` whole pages, at most twelve, and the last of them is the first to show the anchor. */
  ghost predicate ReadTo(pages: seq<seq<Row>>, a: Anchor, n: int, rows: seq<Row>) {
    && 1 <= n <= 12 && n <= |pages| && Whole(pages, a.source, n) && rows == Kept(pages, n, a.floor)
    && HasId(rows, a.id) && !HasId(Kept(pages, n - 1, a.floor), a.id)
  }

  lemma FlatStep(pages: seq<seq<Row>>, n: nat, floor: int)
    requires n < |pages|
    ensures Kept(pages, n + 1, floor) == Kept(pages, n, floor) + AboveFloor(pages[n], floor)
    ensures Ids(Flat(pages, n + 1)) == Ids(Flat(pages, n)) + Ids(pages[n])
  {
    FilterAppend((row: Row) => row.facts.number >= floor, Flat(pages, n), pages[n]);
  }

  lemma WholeStep(pages: seq<seq<Row>>, source: Source, n: nat)
    requires n < |pages|
    ensures Whole(pages, source, n + 1) <==>
      Whole(pages, source, n) && 1 <= |pages[n]| <= 100 && Authentic(pages[n], source, Ids(Flat(pages, n)))
  {
    hide Authentic, IdsDiffer;
    var before, batch := Flat(pages, n), pages[n];
    assert Flat(pages, n + 1) == before + batch;
    AppendedDiffer(before, batch, source);
  }

  lemma AppendedDiffer(before: seq<Row>, batch: seq<Row>, source: Source)
    ensures (forall row :: row in before + batch ==> row.facts.source == source) && IdsDiffer(before + batch) <==>
      (forall row :: row in before ==> row.facts.source == source) && IdsDiffer(before) && Authentic(batch, source, Ids(before))
  {
    var all := before + batch;
    forall i | 0 <= i < |before| ensures all[i] == before[i] {}
    forall j | 0 <= j < |batch| ensures all[|before| + j] == batch[j] {}
    assert forall row :: row in all <==> row in before || row in batch;
    if IdsDiffer(all) {
      forall i, j | 0 <= i < j < |before| ensures before[i].facts.id != before[j].facts.id { assert all[i].facts.id != all[j].facts.id; }
      forall i, j | 0 <= i < j < |batch| ensures batch[i].facts.id != batch[j].facts.id {
        assert all[|before| + i].facts.id != all[|before| + j].facts.id;
      }
      forall row | row in batch ensures row.facts.id !in Ids(before) {
        var j :| 0 <= j < |batch| && batch[j] == row;
        forall i | 0 <= i < |before| ensures before[i].facts.id != row.facts.id {
          assert all[i].facts.id != all[|before| + j].facts.id;
        }
      }
    }
    if IdsDiffer(before) && Authentic(batch, source, Ids(before)) {
      forall i, j | 0 <= i < j < |all| ensures all[i].facts.id != all[j].facts.id {
        if i < |before| <= j { assert before[i] in before && batch[j - |before|] in batch; }
      }
    }
  }

  lemma {:induction false} WholePrefix(pages: seq<seq<Row>>, source: Source, k: nat, n: nat)
    requires k <= n <= |pages| && Whole(pages, source, n)
    ensures Whole(pages, source, k)
    decreases n
  {
    hide Whole;
    if k < n {
      WholeStep(pages, source, n - 1);
      WholePrefix(pages, source, k, n - 1);
    }
  }

  lemma {:induction false} AnchorStays(pages: seq<seq<Row>>, a: Anchor, k: nat, n: nat)
    requires k <= n <= |pages| && HasId(Kept(pages, k, a.floor), a.id)
    ensures HasId(Kept(pages, n, a.floor), a.id)
    decreases n
  {
    hide Kept;
    if k < n {
      AnchorStays(pages, a, k, n - 1);
      FlatStep(pages, n - 1, a.floor);
      var row :| row in Kept(pages, n - 1, a.floor) && row.facts.id == a.id;
      assert row in Kept(pages, n, a.floor);
    }
  }

  ghost predicate ReadPast(pages: seq<seq<Row>>, a: Anchor, k: nat, rows: seq<Row>) { exists n :: n > k && ReadTo(pages, a, n, rows) }

  lemma {:induction false} GatherFrom(pages: seq<seq<Row>>, a: Anchor, k: nat, rows: seq<Row>)
    requires k <= 12 && k <= |pages| && Whole(pages, a.source, k) && !HasId(Kept(pages, k, a.floor), a.id)
    ensures Gather(pages, a, k, Kept(pages, k, a.floor), Ids(Flat(pages, k))) == Some(rows) <==> ReadPast(pages, a, k, rows)
    decreases 12 - k
  {
    hide Whole, Kept, HasId, Authentic, Flat;
    if k < 12 && k < |pages| {
      FlatStep(pages, k, a.floor);
      WholeStep(pages, a.source, k);
      forall n | n > k && ReadTo(pages, a, n, rows) ensures Whole(pages, a.source, k + 1) { WholePrefix(pages, a.source, k + 1, n); }
      if Whole(pages, a.source, k + 1) {
        if HasId(Kept(pages, k + 1, a.floor), a.id) {
          forall n | n > k + 1 && ReadTo(pages, a, n, rows) ensures false { AnchorStays(pages, a, k + 1, n - 1); }
          assert rows == Kept(pages, k + 1, a.floor) ==> ReadTo(pages, a, k + 1, rows);
        } else {
          GatherFrom(pages, a, k + 1, rows);
          assert !ReadTo(pages, a, k + 1, rows);
        }
      }
    }
  }

  /** What is read is exactly the rows of whole pages up to the anchor's. */
  lemma GatheredExactlyWhenRead(pages: seq<seq<Row>>, a: Anchor, rows: seq<Row>)
    ensures Gather(pages, a, 0, [], {}) == Some(rows) <==> exists n :: ReadTo(pages, a, n, rows)
  {
    hide ReadTo, Gather;
    assert Whole(pages, a.source, 0) && Kept(pages, 0, a.floor) == [] && Ids(Flat(pages, 0)) == {};
    GatherFrom(pages, a, 0, rows);
    OnlyPositive(pages, a, rows);
  }

  lemma OnlyPositive(pages: seq<seq<Row>>, a: Anchor, rows: seq<Row>)
    ensures forall n :: ReadTo(pages, a, n, rows) ==> n > 0
  {
  }

  /** The history of a lane is accepted exactly when its anchor is unchanged, the pages up to the anchor's are whole, and their
      run numbers at or above the floor are consecutive from it. */
  lemma CompleteExactlyWhenRead(s: Snapshot, lane: Lane, rows: seq<Row>)
    ensures CompleteRows(s, lane) == Some(rows) <==>
      s.AnchorRun(lane) == AnchorOf(lane) && (exists n :: ReadTo(s.Pages(lane), AnchorOf(lane), n, rows)) && Consecutive(rows, AnchorOf(lane).floor)
  {
    hide Gather, ReadTo, GapFree, Consecutive;
    GatheredExactlyWhenRead(s.Pages(lane), AnchorOf(lane), rows);
    GapFreeExactlyWhenConsecutive(rows, AnchorOf(lane).floor);
  }

  /** The numbers are exactly those from the floor up to some bound within twelve hundred, each on one row. */
  ghost predicate Consecutive(rows: seq<Row>, floor: int) {
    && 1 <= |rows| <= 1200
    && (forall i, j :: 0 <= i < j < |rows| ==> rows[i].facts.number != rows[j].facts.number)
    && forall n :: n in Numbers(rows) <==> floor <= n < floor + |rows|
  }

  lemma {:induction false} OneNumberEach(rows: seq<Row>)
    requires forall i, j :: 0 <= i < j < |rows| ==> rows[i].facts.number != rows[j].facts.number
    ensures |Numbers(rows)| == |rows|
  {
    if rows != [] {
      var rest := rows[1..];
      OneNumberEach(rest);
      assert Numbers(rows) == Numbers(rest) + {rows[0].facts.number};
      assert rows[0].facts.number !in Numbers(rest);
    }
  }

  function Range(floor: int, n: nat): (r: set<int>)
    ensures |r| == n && forall x :: x in r <==> floor <= x < floor + n
  {
    if n == 0 then {} else Range(floor, n - 1) + {floor + n - 1}
  }

  lemma {:induction false} Highest(rows: seq<Row>) returns (high: Row)
    requires rows != []
    ensures high in rows && forall row :: row in rows ==> row.facts.number <= high.facts.number
  {
    high := rows[0];
    if |rows| > 1 {
      var later := Highest(rows[1..]);
      assert forall row :: row in rows ==> row == rows[0] || row in rows[1..];
      if later.facts.number > high.facts.number { high := later; }
    }
  }

  lemma GapFreeExactlyWhenConsecutive(rows: seq<Row>, floor: int)
    ensures GapFree(rows, floor) <==> Consecutive(rows, floor)
  {
    if GapFree(rows, floor) {
      var high := Highest(rows);
      var n := high.facts.number - floor + 1;
      assert Numbers(rows) == Range(floor, n);
      OneNumberEach(rows);
    }
    if Consecutive(rows, floor) {
      forall row | row in rows ensures row.facts.number in Numbers(rows) {}
    }
  }

  lemma {:induction false} FilteredDiffer(p: Row -> bool, rows: seq<Row>)
    requires IdsDiffer(rows)
    ensures IdsDiffer(Filter(p, rows))
  {
    if rows != [] {
      FilteredDiffer(p, rows[1..]);
      forall row | row in Filter(p, rows[1..]) ensures row.facts.id != rows[0].facts.id {
        var i :| 0 <= i < |rows[1..]| && rows[1..][i] == row;
      }
    }
  }

  lemma RowsDiffer(pages: seq<seq<Row>>, a: Anchor, n: int, rows: seq<Row>)
    requires ReadTo(pages, a, n, rows)
    ensures IdsDiffer(rows)
  {
    FilteredDiffer((row: Row) => row.facts.number >= a.floor, Flat(pages, n));
  }
}
