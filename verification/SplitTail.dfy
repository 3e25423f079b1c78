/** A run from an empty cache that ends badly, step by step: a half full last block is evicted by a
    retrieval, a row is appended behind it, and the next retrieval makes a stale row live, in the target
    and in the draft. */
module SplitTail {
  import opened Arith
  import opened SlotTable
  import opened SlotPool
  import opened Runs
  import opened Relayout
  import opened Coherence
  import opened CoherentRuns
  import opened Lockstep

  // ----- What a small pool looks like -----

  function RowOf(c: Cell): int { if c.Live? then c.row else -1 }

  datatype Geometry = Geometry(bt: nat, nSlots: nat, kvSize: nat, highWater: nat)

  /** A pool's block table, its stack, what its cells are live for and what bytes they hold. */
  predicate Seen(p: Pool, g: Geometry, total: nat, own: seq<Info>, free: seq<int>, rows: seq<int>, kv: seq<Bytes>) {
    && p.bt == g.bt > 0 && p.nSlots == g.nSlots && p.kvSize == g.kvSize == |p.cells| && p.highWater == g.highWater &&
        !p.replay
    && p.total == total && p.own == own && p.free == free && p.kv == kv && |rows| == |kv| == g.kvSize
    && forall c :: 0 <= c < |rows| ==> RowOf(p.cells[c]) == rows[c]
  }

  /** Three slots of two rows. */
  predicate Looks(p: Pool, total: nat, own: seq<Info>, free: seq<int>, rows: seq<int>, kv: seq<Bytes>) {
    Seen(p, Geometry(2, 3, 6, 6), total, own, free, rows, kv)
  }

  /** Storing one row fills its cell. */
  lemma PutSeen(p: Pool, g: Geometry, row: Row, c: nat, total: nat, own: seq<Info>, free: seq<int>, rows: seq<int>,
                kv: seq<Bytes>)
    requires Seen(p, g, total, own, free, rows, kv) && InCell(g, own, total, row.row, c)
    ensures |p.cells| == |p.kv| == p.kvSize && Mapped(p, row.row)
    ensures Seen(PutRow(p, row), g, total, own, free, rows[c := row.row], kv[c := row.val])
  {
  }

  /** The cell of row r. */
  predicate InCell(g: Geometry, own: seq<Info>, total: nat, r: int, c: nat) {
    && g.bt > 0 && 0 <= r < total && BlockOf(r, g.bt) < |own| && own[BlockOf(r, g.bt)].slot >= 0
    && c == Before(own[BlockOf(r, g.bt)].slot, g.bt) + OffsetOf(r, g.bt) && c < g.kvSize
  }

  /** A batch fills its cells one by one. */
  lemma {:induction false} BatchSeen(p: Pool, g: Geometry, batch: seq<Row>, cs: seq<nat>, total: nat, own: seq<Info>,
                                     free: seq<int>, rows: seq<int>, kv: seq<Bytes>)
    requires Seen(p, g, total, own, free, rows, kv) && Shaped(p) && |cs| == |batch|
    requires forall k :: 0 <= k < |batch| ==> InCell(g, own, total, batch[k].row, cs[k])
    ensures AllMapped(p, batch)
    ensures Seen(PutRows(p, batch), g, total, own, free, FilledRows(rows, batch, cs), FilledKv(kv, batch, cs))
  {
    forall k | 0 <= k < |batch| ensures Mapped(p, batch[k].row) {
      assert InCell(g, own, total, batch[k].row, cs[k]);
    }
    if batch != [] {
      var n := |batch| - 1;
      BatchSeen(p, g, batch[..n], cs[..n], total, own, free, rows, kv);
      assert InCell(g, own, total, batch[n].row, cs[n]);
      PutSeen(PutRows(p, batch[..n]), g, batch[n], cs[n], total, own, free, FilledRows(rows, batch[..n], cs[..n]),
              FilledKv(kv, batch[..n], cs[..n]));
    }
  }

  function FilledRows(rows: seq<int>, batch: seq<Row>, cs: seq<nat>): (r: seq<int>)
    requires |cs| == |batch|
    ensures |r| == |rows|
  {
    if batch == [] then rows else
      var n := |batch| - 1;
      var before := FilledRows(rows, batch[..n], cs[..n]);
      if cs[n] < |rows| then before[cs[n] := batch[n].row] else before
  }

  function FilledKv(kv: seq<Bytes>, batch: seq<Row>, cs: seq<nat>): (r: seq<Bytes>)
    requires |cs| == |batch|
    ensures |r| == |kv|
  {
    if batch == [] then kv else
      var n := |batch| - 1;
      var before := FilledKv(kv, batch[..n], cs[..n]);
      if cs[n] < |kv| then before[cs[n] := batch[n].val] else before
  }

  /** With distinct cells, each row is in its cell, and other cells are as before. */
  lemma {:induction false} FilledHit(rows: seq<int>, kv: seq<Bytes>, batch: seq<Row>, cs: seq<nat>, k: nat)
    requires |cs| == |batch| && k < |cs| && cs[k] < |rows| == |kv|
    requires forall i, j :: 0 <= i < j < |cs| ==> cs[i] != cs[j]
    ensures FilledRows(rows, batch, cs)[cs[k]] == batch[k].row && FilledKv(kv, batch, cs)[cs[k]] == batch[k].val
  {
    var n := |batch| - 1;
    if k < n {
      FilledHit(rows, kv, batch[..n], cs[..n], k);
    }
  }

  lemma {:induction false} FilledMiss(rows: seq<int>, kv: seq<Bytes>, batch: seq<Row>, cs: seq<nat>, c: nat)
    requires |cs| == |batch| && c < |rows| == |kv| && forall k :: 0 <= k < |cs| ==> cs[k] != c
    ensures FilledRows(rows, batch, cs)[c] == rows[c] && FilledKv(kv, batch, cs)[c] == kv[c]
  {
    if batch != [] {
      FilledMiss(rows, kv, batch[..|batch| - 1], cs[..|cs| - 1], c);
    }
  }

  // ----- Rows behind an evicted partial tail -----

  function At(v: seq<Bytes>, r: nat): Row
    requires r < |v|
  {
    Row(r, r, v[r])
  }

  /** Five rows: three blocks, the last one half full. */
  function FiveRows(v: seq<Bytes>): seq<Row>
    requires |v| == 6
  {
    [At(v, 0), At(v, 1), At(v, 2), At(v, 3), At(v, 4)]
  }

  lemma FiveBlocks(v: seq<Bytes>, junk: seq<Bytes>)
    requires |v| == |junk| == 6
    ensures var a := Append(Fresh(2, 3, 6, 6, junk), 5);
      && a.own == [NEW_BLOCK, NEW_BLOCK, NEW_BLOCK] && a.free == [2, 1, 0]
      && Touched(a, 0) == {0, 1, 2} && ResidentRows(a, 3) == 0
  {
    var p := Fresh(2, 3, 6, 6, junk);
    assert BlocksFor(5, 2) == 3;
    var a := Append(p, 5);
    assert |a.own| == 3;
    assert p.free == [2, 1, 0];
    forall i: nat ensures i in Touched(a, 0) <==> i in {0, 1, 2} {
    }
    assert a.own[0] == a.own[1] == a.own[2] == NEW_BLOCK;
    assert ResidentRows(a, 0) == 0;
    assert ResidentRows(a, 1) == 0;
    assert ResidentRows(a, 2) == 0;
  }

  lemma AssignThree()
    ensures Assign([NEW_BLOCK, NEW_BLOCK, NEW_BLOCK], [2, 1, 0], {0, 1, 2}, 0) ==
            ([Info(0, true, false), Info(1, true, false), Info(2, true, false)], [])
  {
    var w: set<nat> := {0, 1, 2};
    var a := [Info(0, true, false), NEW_BLOCK, NEW_BLOCK];
    var b := [Info(0, true, false), Info(1, true, false), NEW_BLOCK];
    var c := [Info(0, true, false), Info(1, true, false), Info(2, true, false)];
    assert Assign(c, [], w, 3) == (c, []);
    assert b[2 := Info(2, true, false)] == c && [2][..0] == [];
    assert Assign(b, [2], w, 2) == (c, []);
    assert a[1 := Info(1, true, false)] == b && [2, 1][..1] == [2];
    assert Assign(a, [2, 1], w, 1) == (c, []);
    assert [NEW_BLOCK, NEW_BLOCK, NEW_BLOCK][0 := Info(0, true, false)] == a && [2, 1, 0][..2] == [2, 1];
  }

  lemma StepOne(v: seq<Bytes>, junk: seq<Bytes>)
    requires |v| == |junk| == 6
    ensures Looks(Decode(Fresh(2, 3, 6, 6, junk), FiveRows(v), None), 5,
                  [Info(0, true, false), Info(1, true, false), Info(2, true, false)], [],
                  [0, 1, 2, 3, 4, -1], [v[0], v[1], v[2], v[3], v[4], junk[5]])
    ensures Decode(Fresh(2, 3, 6, 6, junk), FiveRows(v), None).raw == map[]
  {
    hide Assign, Store, Touched, RecordPositions;
    var p := Fresh(2, 3, 6, 6, junk);
    FiveBlocks(v, junk);
    AssignThree();
    var a := Append(p, 5);
    assert |a.own| == 3;
    var (own, free) := Assign(a.own, a.free, Touched(a, 0), 0);
    var q := a.(own := own, free := free);
    assert Placed(a, 0, 5, None) == Some(q);
    assert TailPlaced(q, 0);
    assert Prepare(p, 5, None) == (true, q);
    assert Noted(p, FiveRows(v)) == p;
    assert Decode(p, FiveRows(v), None) == Store(q, FiveRows(v));
    FiveStored(q, v, q.own, junk);
  }

  lemma FiveStored(q: Pool, v: seq<Bytes>, own: seq<Info>, junk: seq<Bytes>)
    requires |v| == |junk| == 6 && own == [Info(0, true, false), Info(1, true, false), Info(2, true, false)]
    requires Looks(q, 5, own, [], [-1, -1, -1, -1, -1, -1], junk) && Shaped(q)
    ensures Looks(Store(q, FiveRows(v)), 5, own, [], [0, 1, 2, 3, 4, -1], [v[0], v[1], v[2], v[3], v[4], junk[5]])
  {
    hide Store, PutRows, Shaped, FilledRows, FilledKv;
    var b, cs := FiveRows(v), [0, 1, 2, 3, 4];
    BatchSeen(q, Geometry(2, 3, 6, 6), b, cs, 5, own, [], [-1, -1, -1, -1, -1, -1], junk);
    FiveFilled(v, junk);
    StoreIsPut(q, b);
  }

  lemma FiveFilled(v: seq<Bytes>, junk: seq<Bytes>)
    requires |v| == |junk| == 6
    ensures FilledRows([-1, -1, -1, -1, -1, -1], FiveRows(v), [0, 1, 2, 3, 4]) == [0, 1, 2, 3, 4, -1]
    ensures FilledKv(junk, FiveRows(v), [0, 1, 2, 3, 4]) == [v[0], v[1], v[2], v[3], v[4], junk[5]]
  {
    hide FilledRows, FilledKv;
    var cs: seq<nat> := [0, 1, 2, 3, 4];
    var b, rows: seq<int> := FiveRows(v), [-1, -1, -1, -1, -1, -1];
    forall k: nat | k < 5 ensures FilledRows(rows, b, cs)[k] == k && FilledKv(junk, b, cs)[k] == v[k] {
      FilledHit(rows, junk, b, cs, k);
      assert b[k] == At(v, k) && cs[k] == k;
    }
    FilledMiss(rows, junk, b, cs, 5);
  }

  // Retrieving the middle block: both others leave, and it moves to the first slot.

  const GONE := Info(-1, false, false)
  const THREE := [Info(0, true, false), Info(1, true, false), Info(2, true, false)]

  lemma MiddleOwn()
    ensures Replace(THREE, [], {1}, {1}) == ([GONE, Info(1, true, true), GONE], [0, 2])
  {
    var w: set<nat> := {1};
    var marked := [GONE, Info(1, true, true), GONE];
    assert Marked(THREE, w) == marked;
    MiddleFreed();
    assert Assign(marked, [0, 2], w, 3) == (marked, [0, 2]);
    assert Assign(marked, [0, 2], w, 2) == (marked, [0, 2]);
    assert Assign(marked, [0, 2], w, 1) == (marked, [0, 2]);
    assert Assign(marked, [0, 2], w, 0) == (marked, [0, 2]);
    assert OnGpu(marked, w) == marked;
    assert [] + [0, 2] == [0, 2];
  }

  lemma MiddleFreed()
    ensures Freed(THREE, {1}) == [0, 2]
  {
    var w: set<nat> := {1};
    assert THREE[..2] == [Info(0, true, false), Info(1, true, false)];
    assert THREE[..2][..1] == [Info(0, true, false)];
    assert THREE[..2][..1][..0] == [];
    assert Freed(THREE[..2][..1][..0], w) == [];
    assert Freed(THREE[..2][..1], w) == [0];
    assert Freed(THREE[..2], w) == [0];
  }

  lemma MiddleRaw(p: Pool, v: seq<Bytes>)
    requires Shaped(p) && |v| == 6 && p.raw == map[] && Looks(p, 5, THREE, [], [0, 1, 2, 3, 4, -1], v)
    ensures var raw := HarvestAll(p, {0, 2}, 3).raw; 2 in raw && raw[2] == [v[4]] && 1 !in raw
  {
    var w: set<nat> := {0, 2};
    assert HarvestAll(p, w, 0) == p;
    var a := HarvestAll(p, w, 1);
    assert a == Harvest(p, 0);
    assert HarvestAll(p, w, 2) == a;
    assert HarvestAll(p, w, 3) == Harvest(a, 2);
    assert 2 !in a.raw && 1 !in a.raw;
    assert Len(p, 2) == 1 && Before(2, 2) == 4;
    assert RowOf(p.cells[4]) == 4;
    assert p.kv[4..5] == [v[4]];
  }

  lemma PlanMiddle(p: Pool, v: seq<Bytes>)
    requires Shaped(p) && |v| == 6 && p.raw == map[] && Looks(p, 5, THREE, [], [0, 1, 2, 3, 4, -1], v)
    ensures var q := ApplyPlan(p, {1});
      && Looks(q, 5, [GONE, Info(1, true, true), GONE], [0, 2], [-1, -1, 2, 3, -1, -1], v)
      && 2 in q.raw && q.raw[2] == [v[4]] && 1 !in q.raw
  {
    hide HarvestAll, Replace;
    assert Outgoing(p, {1}) == {0, 2};
    assert Incoming(p, {1}) == {1};
    MiddleOwn();
    MiddleRaw(p, v);
    var killed := KillBlocks(p, {0, 2});
    forall c: nat | c < 6 ensures RowOf(killed[c]) == [-1, -1, 2, 3, -1, -1][c] {
      assert RowOf(p.cells[c]) == [0, 1, 2, 3, 4, -1][c];
    }
  }

  const MIDDLE := [GONE, Info(1, true, true), GONE]
  const FIRST := [GONE, Info(0, true, true), GONE]

  lemma MiddleItems()
    ensures Items(MIDDLE) == Residents(MIDDLE) == [1] && RankOf(MIDDLE, 1) == 0
    ensures !SlotsInOrder(MIDDLE) && PackedOwn(MIDDLE) == FIRST && DownTo(3, 1) == [2, 1]
  {
    assert MIDDLE[..1] == [GONE] && [GONE][..0] == [];
    assert Residents([GONE]) == [];
    assert MIDDLE[..2] == [GONE, Info(1, true, true)] && MIDDLE[..2][..1] == [GONE];
    assert Residents(MIDDLE[..2]) == [1];
    assert Residents(MIDDLE) == [1];
  }

  lemma MiddleMoves(p: Pool, v: seq<Bytes>)
    requires Shaped(p) && |v| == 6 && Looks(p, 5, MIDDLE, [0, 2], [-1, -1, 2, 3, -1, -1], v)
    ensures Moves(p) && Looks(Layout(p), 5, FIRST, [2, 1], [2, 3, -1, -1, -1, -1], [v[2], v[3], v[2], v[3], v[4], v[5]])
    ensures Layout(p).raw == p.raw
  {
    hide LaidOutCell, LaidOutBytes, DownTo;
    MiddleItems();
    var q := Layout(p);
    forall c: nat | c < 6
      ensures RowOf(q.cells[c]) == [2, 3, -1, -1, -1, -1][c] && q.kv[c] == [v[2], v[3], v[2], v[3], v[4], v[5]][c] {
      MiddleCell(p, v, c);
      assert q.cells[c] == LaidOutCell(p, [1], c) && q.kv[c] == LaidOutBytes(p, [1], c);
    }
  }

  lemma MiddleCell(p: Pool, v: seq<Bytes>, c: nat)
    requires Shaped(p) && |v| == 6 && Looks(p, 5, MIDDLE, [0, 2], [-1, -1, 2, 3, -1, -1], v) && c < 6
    ensures RowOf(LaidOutCell(p, [1], c)) == [2, 3, -1, -1, -1, -1][c]
    ensures LaidOutBytes(p, [1], c) == [v[2], v[3], v[2], v[3], v[4], v[5]][c]
  {
    assert RowOf(p.cells[2]) == 2 && HeadLive(p, 1);
    assert RowOf(p.cells[c]) == [-1, -1, 2, 3, -1, -1][c];
    assert LandsAt(p, [1], c) == if c < 2 then Some(1) else None;
  }

  // One more row: the last block gets the slot the middle block left, and holds the new row only.

  const SPLIT := [GONE, Info(0, true, true), Info(1, true, false)]

  lemma SplitOwn()
    ensures Assign(FIRST, [2, 1], {2}, 0) == (SPLIT, [2])
  {
    var w: set<nat> := {2};
    assert FIRST[2 := Info(1, true, false)] == SPLIT && [2, 1][..1] == [2];
    assert Assign(SPLIT, [2], w, 3) == (SPLIT, [2]);
    assert Assign(FIRST, [2, 1], w, 2) == (SPLIT, [2]);
    assert Assign(FIRST, [2, 1], w, 1) == (SPLIT, [2]);
  }

  lemma OneMoreRow(p: Pool, v: seq<Bytes>, kv: seq<Bytes>)
    requires Shaped(p) && |v| == 6 && |kv| == 6 && p.pinned && Looks(p, 5, FIRST, [2, 1], [2, 3, -1, -1, -1, -1], kv)
    ensures var q := Decode(p, [At(v, 5)], None);
      Shaped(q) && q.raw == p.raw && Looks(q, 6, SPLIT, [2], [2, 3, -1, 5, -1, -1], kv[3 := v[5]])
  {
    hide Assign;
    SplitOwn();
    var a := Append(p, 1);
    assert a.own == FIRST;
    forall i: nat ensures i in Touched(a, 5) <==> i in {2} {
    }
    assert Touched(a, 5) == {2};
    var q := a.(own := SPLIT, free := [2]);
    assert Placed(a, 5, 1, None) == Some(q);
    assert BlockOf(5, 2) == 2 && TailPlaced(q, 5);
    assert Prepare(p, 1, None) == (true, q);
    assert Noted(p, [At(v, 5)]) == p;
    SplitStored(q, v, kv);
  }

  lemma SplitStored(q: Pool, v: seq<Bytes>, kv: seq<Bytes>)
    requires Shaped(q) && |v| == 6 && |kv| == 6 && Looks(q, 6, SPLIT, [2], [2, 3, -1, -1, -1, -1], kv)
    ensures Looks(Store(q, [At(v, 5)]), 6, SPLIT, [2], [2, 3, -1, 5, -1, -1], kv[3 := v[5]])
  {
    hide Store, Shaped;
    var b := [At(v, 5)];
    assert InCell(Geometry(2, 3, 6, 6), SPLIT, 6, 5, 3);
    BatchSeen(q, Geometry(2, 3, 6, 6), b, [3], 6, SPLIT, [2], [2, 3, -1, -1, -1, -1], kv);
    assert b[..0] == [] && [3][..0] == [];
    StoreIsPut(q, b);
  }

  // Retrieving the two blocks: they are in order, and the second has too few packed rows to be restored.

  const BOTH := [GONE, Info(0, true, true), Info(1, true, true)]

  lemma PlanBoth(p: Pool, kv: seq<Bytes>)
    requires Shaped(p) && |kv| == 6 && Looks(p, 6, SPLIT, [2], [2, 3, -1, 5, -1, -1], kv)
    ensures var q := ApplyPlan(p, {1, 2});
      Looks(q, 6, BOTH, [2], [2, 3, -1, 5, -1, -1], kv) && q.raw == p.raw && Incoming(p, {1, 2}) == {2}
  {
    assert Outgoing(p, {1, 2}) == {};
    assert Incoming(p, {1, 2}) == {2};
    BothOwn();
    var w: set<nat> := {};
    assert HarvestAll(p, w, 0) == p;
    assert HarvestAll(p, w, 1) == p;
    assert HarvestAll(p, w, 2) == p;
    assert HarvestAll(p, w, 3) == p;
  }

  lemma BothOwn()
    ensures Replace(SPLIT, [2], {1, 2}, {2}) == (BOTH, [2])
  {
    var w: set<nat> := {1, 2};
    assert Marked(SPLIT, w) == BOTH;
    assert SPLIT[..2] == [GONE, Info(0, true, true)] && SPLIT[..2][..1] == [GONE] && SPLIT[..2][..1][..0] == [];
    assert Freed(SPLIT[..2][..1][..0], w) == [];
    assert Freed(SPLIT[..2][..1], w) == [];
    assert Freed(SPLIT[..2], w) == [];
    assert Freed(SPLIT, w) == [] && [2] + [] == [2];
    var ins: set<nat> := {2};
    assert Assign(BOTH, [2], ins, 3) == (BOTH, [2]);
    assert Assign(BOTH, [2], ins, 2) == (BOTH, [2]);
    assert Assign(BOTH, [2], ins, 1) == (BOTH, [2]);
    assert OnGpu(BOTH, ins) == BOTH;
  }

  lemma BothItems()
    ensures Items(BOTH) == [1, 2] && SlotsInOrder(BOTH)
  {
    assert BOTH[..2] == [GONE, Info(0, true, true)] && BOTH[..2][..1] == [GONE] && BOTH[..1] == [GONE];
    assert [GONE][..0] == [] && Residents([GONE]) == [];
    assert Residents(BOTH[..2]) == [1];
    assert Residents(BOTH) == [1, 2];
  }

  /** The rows of the last block are live, the first of them with what its cell held before. */
  lemma RestoredShort(p: Pool, kv: seq<Bytes>)
    requires Shaped(p) && |kv| == 6 && Looks(p, 6, BOTH, [2], [2, 3, -1, 5, -1, -1], kv)
    requires 2 in p.raw && |p.raw[2]| == 1
    ensures Looks(WriteCold(p, {2}, 3), 6, BOTH, [2], [2, 3, 4, 5, -1, -1], kv)
  {
    var w: set<nat> := {2};
    assert WriteCold(p, w, 0) == p;
    assert WriteCold(p, w, 1) == p;
    assert WriteCold(p, w, 2) == p;
    assert RowOf(p.cells[2]) == -1;
    var q := WriteBlock(p, 2);
    assert WriteCold(p, w, 3) == q;
    forall c: nat | c < 6 ensures RowOf(q.cells[c]) == [2, 3, 4, 5, -1, -1][c] {
      assert RowOf(p.cells[c]) == [2, 3, -1, 5, -1, -1][c];
    }
  }

  // ----- The run -----

  /** Five rows; retrieve the middle block; one more row; retrieve the two blocks on the GPU. */
  function Run1(v: seq<Bytes>, junk: seq<Bytes>): (p: Pool)
    requires |v| == |junk| == 6
    ensures Valid(p)
  {
    Runs.Run(Fresh(2, 3, 6, 6, junk), [Batch(FiveRows(v), None)])
  }

  function Run2(v: seq<Bytes>, junk: seq<Bytes>): (p: Pool)
    requires |v| == |junk| == 6
    ensures Valid(p)
  {
    var p := Run1(v, junk);
    var e := ApplySelection(Selection(p.epoch, p.total, [1]));
    StepValid(p, e);
    Step(p, e)
  }

  function Run3(v: seq<Bytes>, junk: seq<Bytes>): (p: Pool)
    requires |v| == |junk| == 6
    ensures Valid(p)
  {
    var p := Run2(v, junk);
    var e := Batch([At(v, 5)], None);
    StepValid(p, e);
    Step(p, e)
  }

  function Run4(v: seq<Bytes>, junk: seq<Bytes>): (p: Pool)
    requires |v| == |junk| == 6
    ensures Valid(p)
  {
    var p := Run3(v, junk);
    var e := ApplySelection(Selection(p.epoch, p.total, [1, 2]));
    StepValid(p, e);
    Step(p, e)
  }

  lemma Run1Looks(v: seq<Bytes>, junk: seq<Bytes>)
    requires |v| == |junk| == 6
    ensures Looks(Run1(v, junk), 5, THREE, [], [0, 1, 2, 3, 4, -1], [v[0], v[1], v[2], v[3], v[4], junk[5]])
    ensures Run1(v, junk).raw == map[]
  {
    hide Decode, Looks;
    var p, e := Fresh(2, 3, 6, 6, junk), Batch(FiveRows(v), None);
    assert [e][..0] == [];
    assert Runs.Run(p, []) == p;
    StepOne(v, junk);
  }

  /** The bytes in the cells after the middle block has moved to the first slot. */
  function Shifted(v: seq<Bytes>, junk: seq<Bytes>): seq<Bytes>
    requires |v| == |junk| == 6
  {
    [v[2], v[3], v[2], v[3], v[4], junk[5]]
  }

  lemma Run2Looks(v: seq<Bytes>, junk: seq<Bytes>)
    requires |v| == |junk| == 6
    ensures var q := Run2(v, junk);
      && Looks(q, 5, FIRST, [2, 1], [2, 3, -1, -1, -1, -1], Shifted(v, junk))
      && q.pinned && 2 in q.raw && q.raw[2] == [v[4]]
  {
    hide Run1, Layout, ApplyPlan, Looks;
    Run1Looks(v, junk);
    MiddleSelected(Run1(v, junk), [v[0], v[1], v[2], v[3], v[4], junk[5]]);
  }

  lemma MiddleSelected(p: Pool, kv: seq<Bytes>)
    requires Valid(p) && |kv| == 6 && p.raw == map[] && Looks(p, 5, THREE, [], [0, 1, 2, 3, 4, -1], kv)
    ensures var q := Select(p, Selection(p.epoch, p.total, [1]));
      && Looks(q, 5, FIRST, [2, 1], [2, 3, -1, -1, -1, -1], [kv[2], kv[3], kv[2], kv[3], kv[4], kv[5]])
      && q.pinned && 2 in q.raw && q.raw[2] == [kv[4]]
  {
    hide Layout, ApplyPlan;
    PlanMiddle(p, kv);
    assert Ids([1]) == {1};
    PlanValid(p, {1});
    var planned := ApplyPlan(p, {1}).(pinned := true);
    MiddleMoves(planned, kv);
    LayoutFlags(planned);
  }

  lemma LayoutFlags(p: Pool)
    requires Shaped(p)
    ensures Layout(p).pinned == p.pinned
  {
  }

  lemma Run3Looks(v: seq<Bytes>, junk: seq<Bytes>)
    requires |v| == |junk| == 6
    ensures var q := Run3(v, junk);
      && Looks(q, 6, SPLIT, [2], [2, 3, -1, 5, -1, -1], Shifted(v, junk)[3 := v[5]])
      && 2 in q.raw && q.raw[2] == [v[4]]
  {
    hide Decode, Run2;
    Run2Looks(v, junk);
    OneMoreRow(Run2(v, junk), v, Shifted(v, junk));
  }

  lemma Run4Looks(v: seq<Bytes>, junk: seq<Bytes>)
    requires |v| == |junk| == 6
    ensures Looks(Run4(v, junk), 6, BOTH, [2], [2, 3, 4, 5, -1, -1], Shifted(v, junk)[3 := v[5]])
  {
    hide ApplyPlan, WriteCold, Run3;
    var p, kv := Run3(v, junk), Shifted(v, junk)[3 := v[5]];
    Run3Looks(v, junk);
    PlanBoth(p, kv);
    assert Ids([1, 2]) == {1, 2};
    PlanValid(p, {1, 2});
    var planned := ApplyPlan(p, {1, 2}).(pinned := true);
    BothItems();
    RestoredShort(planned, kv);
  }

  /** Appending behind the evicted half block splits it: its first row is packed only, its second is on
      the GPU only, and the cache is not coherent with any history. The next retrieval then makes the
      first row live with the bytes that another row left in its cell. */
  lemma SplitTailGoesStale(v: seq<Bytes>, junk: seq<Bytes>)
    requires |v| == |junk| == 6
    ensures forall h :: !Coherent(Run3(v, junk), h, 6)
    ensures var p := Run4(v, junk); |p.cells| == |p.kv| == 6 && RowOf(p.cells[2]) == 4 && p.kv[2] == v[2]
  {
    hide Run3, Run4, Coherent, Looks;
    var p := Run3(v, junk);
    Run3Looks(v, junk);
    Run4Looks(v, junk);
    forall h ensures !Coherent(p, h, 6) {
      SplitIncoherent(p, h, Shifted(v, junk)[3 := v[5]]);
    }
    LiveAgain(Run4(v, junk), Shifted(v, junk)[3 := v[5]]);
  }

  lemma LiveAgain(p: Pool, kv: seq<Bytes>)
    requires |kv| == 6 && Looks(p, 6, BOTH, [2], [2, 3, 4, 5, -1, -1], kv)
    ensures |p.cells| == |p.kv| == 6 && RowOf(p.cells[2]) == 4 && p.kv[2] == kv[2]
  {
    assert RowOf(p.cells[2]) == [2, 3, 4, 5, -1, -1][2];
  }

  lemma SplitIncoherent(p: Pool, h: History, kv: seq<Bytes>)
    requires |kv| == 6 && Looks(p, 6, SPLIT, [2], [2, 3, -1, 5, -1, -1], kv) && 2 in p.raw && |p.raw[2]| == 1
    ensures !Coherent(p, h, 6)
  {
    hide Sound, Packed, Valid;
    assert RowOf(p.cells[2]) == -1;
    assert Done(p, 6, 2) == 2;
    assert !Found(p, 6, 2);
  }

  // ----- The draft through the same run -----

  lemma MoveMiddle(p: Pool, d: Pool, v: seq<Bytes>, w: seq<Bytes>)
    requires Shaped(p) && |v| == 6 && Looks(p, 5, MIDDLE, [0, 2], [-1, -1, 2, 3, -1, -1], v)
    requires Shaped(d) && |w| == 6 && Looks(d, 5, MIDDLE, [0, 2], [-1, -1, 2, 3, -1, -1], w)
    ensures Moves(d)
    ensures Looks(MoveDraft(p, d), 5, FIRST, [2, 1], [2, 3, -1, -1, -1, -1], [w[2], w[3], w[2], w[3], w[4], w[5]])
  {
    MiddleItems();
    var e := MoveDraft(p, d);
    assert RowOf(p.cells[2]) == 2 && RowOf(d.cells[2]) == 2;
    assert Moved(p, d, 1);
    forall c: nat | c < 6
      ensures RowOf(e.cells[c]) == [2, 3, -1, -1, -1, -1][c] && e.kv[c] == [w[2], w[3], w[2], w[3], w[4], w[5]][c] {
      assert e.cells[c] == MovedCell(p, d, [1], c) && e.kv[c] == MovedBytes(p, d, [1], c);
      assert RowOf(d.cells[c]) == [-1, -1, 2, 3, -1, -1][c];
    }
  }

  /** Packing blocks that are resident changes no packed rows of others, and none of a cold block. */
  lemma ResidentsPacked(d: Pool, ids: set<nat>)
    requires Shaped(d) && |d.own| == 3 && d.own[2].slot < d.nSlots && 2 in d.raw
    requires 2 in ids ==> d.own[2].slot >= 0 && var c := Before(d.own[2].slot, d.bt);
      0 <= c < |d.cells| && d.cells[c].Empty?
    ensures var e := HarvestAll(d, ids, 3); 2 in e.raw && e.raw[2] == d.raw[2]
  {
    assert HarvestAll(d, ids, 0) == d;
    var a := HarvestAll(d, ids, 1);
    var b := HarvestAll(d, ids, 2);
    assert 2 in a.raw && a.raw[2] == d.raw[2];
    assert 2 in b.raw && b.raw[2] == d.raw[2];
  }

  lemma FollowFirst(d: Pool, w: seq<Bytes>)
    requires Shaped(d) && |w| == 6 && Looks(d, 5, FIRST, [2, 1], [2, 3, -1, -1, -1, -1], w)
    ensures FollowAll(d, 3) == d
  {
    assert RowOf(d.cells[0]) == 2;
    assert FollowAll(d, 0) == d;
    assert FollowAll(d, 1) == d;
    assert FollowAll(d, 2) == d;
  }

  /** The draft's rows of the last block go live, the first with what its cell held before. */
  lemma FollowBoth(d: Pool, w: seq<Bytes>)
    requires Shaped(d) && |w| == 6 && Looks(d, 6, BOTH, [2], [2, 3, -1, 5, -1, -1], w) && 2 in d.raw && |d.raw[2]| == 1
    ensures Looks(FollowAll(d, 3), 6, BOTH, [2], [2, 3, 4, 5, -1, -1], w)
  {
    assert RowOf(d.cells[0]) == 2 && RowOf(d.cells[2]) == -1;
    assert FollowAll(d, 0) == d;
    assert FollowAll(d, 1) == d;
    assert FollowAll(d, 2) == d;
    var q := FollowBlock(d, 2);
    assert FollowAll(d, 3) == q;
    assert Before(d.own[2].slot, 2) == 2 && Len(d, 2) == 2 && Before(2, 2) == 4;
    forall c: nat | c < 6 ensures RowOf(q.cells[c]) == [2, 3, 4, 5, -1, -1][c] {
      assert RowOf(d.cells[c]) == [2, 3, -1, 5, -1, -1][c];
    }
  }

  /** A draft with the target's block table. */
  function Beside(p: Pool, d: Pool): Pool {
    p.(cells := d.cells, kv := d.kv, raw := d.raw, epoch := d.epoch)
  }

  /** The draft follows the first retrieval. */
  lemma DraftFollowsFirst(p: Pool, d: Pool, v: seq<Bytes>, w: seq<Bytes>)
    requires Valid(p) && |v| == 6 && p.raw == map[] && Looks(p, 5, THREE, [], [0, 1, 2, 3, 4, -1], v)
    requires Valid(d) && |w| == 6 && d.raw == map[] && Looks(d, 5, THREE, [], [0, 1, 2, 3, 4, -1], w)
    ensures var e := FollowSelection(p, d, {1});
      && Looks(e, 5, FIRST, [2, 1], [2, 3, -1, -1, -1, -1], [w[2], w[3], w[2], w[3], w[4], w[5]])
      && 2 in e.raw && e.raw[2] == [w[4]]
  {
    hide ApplyPlan, HarvestAll, MoveDraft, FollowAll, Moves;
    PlanMiddle(p, v);
    PlanMiddle(d, w);
    PlanValid(p, {1});
    PlanValid(d, {1});
    var planned, mirrored := ApplyPlan(p, {1}), ApplyPlan(d, {1});
    var packed := HarvestAll(mirrored, ResidentSet(mirrored.own), 3);
    ResidentsPacked(mirrored, ResidentSet(mirrored.own));
    MoveMiddle(planned, packed, v, w);
    MovedValid(planned, packed);
    FollowFirst(MoveDraft(planned, packed), [w[2], w[3], w[2], w[3], w[4], w[5]]);
  }

  /** The draft follows the second retrieval. */
  lemma DraftFollowsSecond(p: Pool, d: Pool, kv: seq<Bytes>, w: seq<Bytes>)
    requires Valid(p) && |kv| == 6 && Looks(p, 6, SPLIT, [2], [2, 3, -1, 5, -1, -1], kv)
    requires Valid(d) && |w| == 6 && Looks(d, 6, SPLIT, [2], [2, 3, -1, 5, -1, -1], w) && 2 in d.raw && |d.raw[2]| == 1
    ensures Looks(FollowSelection(p, d, {1, 2}), 6, BOTH, [2], [2, 3, 4, 5, -1, -1], w)
  {
    hide ApplyPlan, HarvestAll, MoveDraft, FollowAll;
    PlanBoth(p, kv);
    PlanBoth(d, w);
    PlanValid(p, {1, 2});
    PlanValid(d, {1, 2});
    var mirrored := ApplyPlan(d, {1, 2});
    var packed := HarvestAll(mirrored, ResidentSet(mirrored.own), 3);
    assert RowOf(mirrored.cells[2]) == -1;
    ResidentsPacked(mirrored, ResidentSet(mirrored.own));
    BothItems();
    FollowBoth(packed, w);
  }

  /** The draft after the first retrieval, for the target's bytes v and its own bytes w. */
  function Draft2(v: seq<Bytes>, w: seq<Bytes>, junk: seq<Bytes>): Pool
    requires |v| == |w| == |junk| == 6
  {
    Run1Looks(v, junk);
    Run1Looks(w, junk);
    FollowSelection(Run1(v, junk), Run1(w, junk), {1})
  }

  /** After one more row, which the draft writes to the cell the target uses for it. */
  function Draft3(v: seq<Bytes>, w: seq<Bytes>, junk: seq<Bytes>): (d: Pool)
    requires |v| == |w| == |junk| == 6
    ensures Valid(d) && |d.own| == |Run3(v, junk).own|
  {
    var p, d := Run3(v, junk), Draft2(v, w, junk);
    Draft3Looks(v, w, junk);
    PutRow(Beside(p, d), At(w, 5))
  }

  lemma Draft2Looks(v: seq<Bytes>, w: seq<Bytes>, junk: seq<Bytes>)
    requires |v| == |w| == |junk| == 6
    ensures var d := Draft2(v, w, junk);
      Looks(d, 5, FIRST, [2, 1], [2, 3, -1, -1, -1, -1], Shifted(w, junk)) && 2 in d.raw && d.raw[2] == [w[4]]
  {
    hide FollowSelection, Looks, Run1;
    Run1Looks(v, junk);
    Run1Looks(w, junk);
    DraftFollowsFirst(Run1(v, junk), Run1(w, junk), [v[0], v[1], v[2], v[3], v[4], junk[5]],
                      [w[0], w[1], w[2], w[3], w[4], junk[5]]);
  }

  lemma Draft3Looks(v: seq<Bytes>, w: seq<Bytes>, junk: seq<Bytes>)
    requires |v| == |w| == |junk| == 6
    ensures var d := Beside(Run3(v, junk), Draft2(v, w, junk));
      && d.bt > 0 && |d.cells| == |d.kv| == d.kvSize && Mapped(d, 5) && Valid(PutRow(d, At(w, 5)))
      && Looks(PutRow(d, At(w, 5)), 6, SPLIT, [2], [2, 3, -1, 5, -1, -1], Shifted(w, junk)[3 := w[5]])
      && PutRow(d, At(w, 5)).raw == Draft2(v, w, junk).raw
  {
    hide Run3, Draft2;
    Run3Looks(v, junk);
    Draft2Looks(v, w, junk);
    var d := Beside(Run3(v, junk), Draft2(v, w, junk));
    PutSeen(d, Geometry(2, 3, 6, 6), At(w, 5), 3, 6, SPLIT, [2], [2, 3, -1, -1, -1, -1], Shifted(w, junk));
  }

  /** In the draft the same run ends as badly: after the second retrieval every resident block counts as
      found, since a row of it is packed, but the first row of the last block is live with the bytes that
      another row left in its cell. */
  lemma DraftGoesStale(v: seq<Bytes>, w: seq<Bytes>, junk: seq<Bytes>)
    requires |v| == |w| == |junk| == 6
    ensures CountsAsHost(Draft3(v, w, junk), 2)
    ensures var d := FollowSelection(Run3(v, junk), Draft3(v, w, junk), {1, 2});
      |d.cells| == |d.kv| == 6 && RowOf(d.cells[2]) == 4 && d.kv[2] == w[2]
  {
    hide FollowSelection, Looks, Run3, Draft2;
    Run3Looks(v, junk);
    Draft2Looks(v, w, junk);
    Draft3Looks(v, w, junk);
    var p, d := Run3(v, junk), Draft3(v, w, junk);
    DraftFollowsSecond(p, d, Shifted(v, junk)[3 := v[5]], Shifted(w, junk)[3 := w[5]]);
    LiveAgain(FollowSelection(p, d, {1, 2}), Shifted(w, junk)[3 := w[5]]);
  }
}
