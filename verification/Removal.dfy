/** Rows that are removed and come back: a replay computes them again in place, and a removal of everything
    by model position leaves packed rows behind. */
module Removal {
  import opened Arith
  import opened SlotTable
  import opened SlotPool
  import opened Runs
  import opened Coherence
  import opened CoherentRuns

  // ----- Replaying removed rows -----

  lemma ReplayTail(p: Pool, t: nat)
    requires Valid(p) && !p.replay && t <= p.total && TailLive(p, t)
    ensures var s := Step(Step(p, RemoveRows(t, -1)), SetReplay(true, t));
      Valid(s) && s.replay && s.own == p.own && s.free == p.free && s.total == p.total && s.bt == p.bt
      && s.kvSize == p.kvSize && TailLive(s, t)
  {
    hide BlocksFor, Partition;
    RowSplit(t, p.bt);
  }

  lemma DecodeInReplay(p: Pool, batch: seq<Row>, pick: Option<set<nat>>)
    requires Shaped(p) && p.replay
    ensures Decode(p, batch, pick) == Store(p, batch).(epoch := Noted(p, batch).epoch)
  {
    hide Before, BlockOf, OffsetOf, BlocksFor, RecordPositions, WriteCells, FillSlots;
    SameSlots(p, Noted(p, batch), batch);
  }

  lemma SameSlots(p: Pool, q: Pool, batch: seq<Row>)
    requires p.bt > 0 && q == p.(epoch := q.epoch)
    ensures FillSlots(q, batch) == FillSlots(p, batch)
  {
    hide Before, BlockOf, OffsetOf, BlocksFor;
    var a, b := FillSlots(p, batch), FillSlots(q, batch);
    assert forall k :: 0 <= k < |batch| ==> (Mapped(q, batch[k].row) <==> Mapped(p, batch[k].row));
    if a.Some? {
      assert a.value == b.value;
    }
  }

  lemma MappedThere(p: Pool, s: Pool, batch: seq<Row>)
    requires p.bt > 0 && s.own == p.own && s.total == p.total && s.bt == p.bt && s.kvSize == p.kvSize
    requires AllMapped(p, batch)
    ensures AllMapped(s, batch)
  {
    hide Before, BlockOf, OffsetOf, BlocksFor;
    forall k | 0 <= k < |batch| ensures Mapped(s, batch[k].row) {
      assert Mapped(p, batch[k].row);
    }
  }

  /** A replay computes removed rows again without changing any placement or count, whatever the pressure
      selector would pick: afterwards the rows up to the end of the batch are coherent with the new bytes. */
  lemma ReplayRefills(p: Pool, h: History, t: nat, batch: seq<Row>, pick: Option<set<nat>>)
    requires Coherent(p, h, p.total) && !p.replay && TailLive(p, t)
    requires batch != [] && ContinuesAt(batch, t) && t + |batch| <= p.total && AllMapped(p, batch)
    ensures var s := Step(Step(p, RemoveRows(t, -1)), SetReplay(true, t));
      && Valid(s) && Valid(Step(s, Batch(batch, pick)))
      && var q := Step(Step(s, Batch(batch, pick)), SetReplay(false, 0));
        && q.total == p.total && q.own == p.own && q.free == p.free && !q.replay
        && Coherent(q, Learned(h, batch), t + |batch|)
  {
    hide Before, BlockOf, OffsetOf, BlocksFor, Partition, Store, Learned, Decode, Found, Packed, Sound, TailLive,
         ContinuesAt, AllMapped, KillRows;
    var s := Step(Step(p, RemoveRows(t, -1)), SetReplay(true, t));
    ReplayTail(p, t);
    ReplayCoherent(p, h, p.total, t);
    DecodeInReplay(s, batch, pick);
    MappedThere(p, s, batch);
    StoreCoherent(s, h, t, batch);
    var r := Step(s, Batch(batch, pick));
    PositionsCoherent(Store(s, batch), r, Learned(h, batch), t + |batch|);
    PositionsCoherent(r, Step(r, SetReplay(false, 0)), Learned(h, batch), t + |batch|);
  }

  // ----- Removing everything by model position -----

  /** Removing everything leaves a coherent empty cache if and only if every live cell was removed and no
      row was packed: the packed rows are not forgotten. */
  lemma RemovedAllIff(p: Pool, dead: set<nat>)
    requires Valid(p) && p.kvSize == Before(p.nSlots, p.bt) && !p.replay
    ensures Coherent(Step(p, SeqRm(dead, true)), map[], 0) <==>
              && (forall c: nat :: c < |p.cells| && p.cells[c].Live? ==> c in dead)
              && (forall i :: i in p.raw ==> p.raw[i] == [])
  {
    hide Partition;
    var q := Step(p, SeqRm(dead, true));
    StepValid(p, SeqRm(dead, true));
    if Coherent(q, map[], 0) {
      forall c: nat | c < |p.cells| && p.cells[c].Live? ensures c in dead {
        assert q.cells[c].Live? ==> Sound(q, map[], 0, c);
      }
      forall i | i in p.raw ensures p.raw[i] == [] {
        assert Packed(q, map[], 0, i);
      }
    }
  }

  /** Clearing leaves a pool as constructed, but for the epoch, the bytes and the replay flag; removing
      everything does the same if and only if every live cell was removed, nothing was packed, no position is
      on record and the window was not kept. */
  lemma RemovedVersusCleared(p: Pool, dead: set<nat>)
    requires Valid(p) && !p.replay
    ensures var q := Step(p, Clear);
      && q == Fresh(p.bt, p.nSlots, p.kvSize, p.highWater, p.kv).(epoch := p.epoch + 1)
      && (Step(p, SeqRm(dead, true)) == q <==>
            (forall c: nat :: c < |p.cells| && p.cells[c].Live? ==> c in dead)
            && p.raw == map[] && p.rowPos == [] && !p.keep)
  {
    hide Partition;
    var q, r := Step(p, Clear), Step(p, SeqRm(dead, true));
    if forall c: nat :: c < |p.cells| && p.cells[c].Live? ==> c in dead {
      assert r.cells == q.cells;
    } else {
      var c: nat :| c < |p.cells| && p.cells[c].Live? && c !in dead;
      assert r.cells[c].Live? && q.cells[c].Empty?;
    }
  }

  // ----- How a packed row comes back -----

  const PLACED := Info(0, true, false)

  /** One slot of one row. */
  function One(own: seq<Info>, free: seq<int>, cell: Cell, val: Bytes, rowPos: seq<Position>,
               raw: map<nat, seq<Bytes>>, epoch: nat, pinned: bool): Pool
  {
    Pool(1, 1, 1, 1, |own|, own, free, [cell], [val], rowPos, raw, epoch, false, pinned, false)
  }

  lemma OneValid(own: seq<Info>, free: seq<int>, cell: Cell, val: Bytes, rowPos: seq<Position>,
                 raw: map<nat, seq<Bytes>>, epoch: nat, pinned: bool)
    requires (own == [] && free == [0]) || (|own| == 1 && own[0].slot == -1 && !own[0].onGpu && free == [0])
             || (|own| == 1 && own[0].slot == 0 && own[0].onGpu && free == [])
    ensures Valid(One(own, free, cell, val, rowPos, raw, epoch, pinned))
  {
    assert BlocksFor(0, 1) == 0 && BlocksFor(1, 1) == 1 && Before(1, 1) == 1;
    forall s ensures Listed(free, s) + Owners(own, s) == if 0 <= s < 1 then 1 else 0 {
      if own != [] {
        assert own[..0] == [];
        assert Owners(own, s) == Owners(own[..0], s) + OwnsIt(own[0], s);
      }
      if free == [0] {
        assert free[..0] == [];
        assert Listed(free, s) == Listed(free[..0], s) + if s == 0 then 1 else 0;
      }
    }
  }

  /** Decoding row 0 into the empty pool. */
  lemma FirstRow(val: Bytes, x: Bytes, rowPos: seq<Position>, raw: map<nat, seq<Bytes>>, epoch: nat)
    requires rowPos == [] || rowPos == [0]
    ensures Valid(One([], [0], Empty, val, rowPos, raw, epoch, false))
    ensures Step(One([], [0], Empty, val, rowPos, raw, epoch, false), Batch([Row(0, 0, x)], None)) ==
            One([PLACED], [], Live(0, 0), x, [0], raw, epoch, false)
  {
    hide Assign, Store, Append, Touched, ResidentRows;
    var p := One([], [0], Empty, val, rowPos, raw, epoch, false);
    OneValid([], [0], Empty, val, rowPos, raw, epoch, false);
    var a := Append(p, 1);
    RowAppended(p);
    AssignOne(Touched(a, 0));
    var q := a.(own := [PLACED], free := []);
    assert Prepare(p, 1, None) == (true, q);
    RowStored(q, x);
  }

  lemma RowAppended(p: Pool)
    requires p.bt == 1 && p.total == 0 && p.own == []
    ensures |p.own| == BlocksFor(p.total, p.bt)
    ensures Append(p, 1).own == [NEW_BLOCK] && 0 in Touched(Append(p, 1), 0) && ResidentRows(Append(p, 1), 1) == 0
  {
    var a := Append(p, 1);
    assert BlocksFor(1, 1) == 1 && BlockOf(0, 1) == 0;
    assert a.own == [NEW_BLOCK];
    assert ResidentRows(a, 0) == 0;
  }

  lemma AssignOne(want: set<nat>)
    requires 0 in want
    ensures Assign([NEW_BLOCK], [0], want, 0) == ([PLACED], [])
  {
    var n := NEW_BLOCK.(slot := 0, onGpu := true);
    assert [NEW_BLOCK][0 := n] == [PLACED] && [0][..0] == [];
    assert Assign([PLACED], [], want, 1) == ([PLACED], []);
  }

  lemma RowStored(q: Pool, x: Bytes)
    requires q.bt == 1 && q.kvSize == 1 && q.total == 1 && q.own == [PLACED] && |q.cells| == |q.kv| == 1
    requires q.rowPos == [] || q.rowPos == [0]
    ensures Store(q, [Row(0, 0, x)]) == q.(cells := [Live(0, 0)], kv := [x], rowPos := [0])
  {
    var batch := [Row(0, 0, x)];
    assert batch[..0] == [];
    assert RecordPositions(q.rowPos, 1, batch[..0]) == (true, q.rowPos);
    var long := Extend(q.rowPos, 1);
    assert |long| == 1 && long[0 := 0] == [0];
    assert RecordPositions(q.rowPos, 1, batch) == (true, [0]);
    assert BlockOf(0, 1) == 0 && OffsetOf(0, 1) == 0 && Before(0, 1) == 0;
    assert Mapped(q, 0) && CellOf(q, 0) == 0;
    var idx := FillSlots(q, batch);
    assert idx.Some? && |idx.value| == 1 && idx.value[0] == 0;
    assert idx.value == [0];
    assert WriteCells(q.cells, q.kv, batch[..0], [0][..0]) == (q.cells, q.kv);
    assert q.cells[0 := Live(0, 0)] == [Live(0, 0)] && q.kv[0 := x] == [x];
  }

  /** Packing the row, unless a row is packed for it already. */
  lemma PackOne(x: Bytes, raw: map<nat, seq<Bytes>>, epoch: nat)
    requires raw == map[] || (0 in raw && |raw[0]| == 1)
    ensures Valid(One([PLACED], [], Live(0, 0), x, [0], raw, epoch, false))
    ensures Step(One([PLACED], [], Live(0, 0), x, [0], raw, epoch, false), HarvestFull) ==
            One([PLACED], [], Live(0, 0), x, [0], if raw == map[] then map[0 := [x]] else raw, epoch, false)
  {
    var p := One([PLACED], [], Live(0, 0), x, [0], raw, epoch, false);
    OneValid([PLACED], [], Live(0, 0), x, [0], raw, epoch, false);
    assert Len(p, 0) == 1 && Before(0, 1) == 0;
    assert 0 in FullResidents(p);
    assert HarvestAll(p, FullResidents(p), 0) == p;
    assert p.kv[0..1] == [x];
  }

  lemma RemoveOne(x: Bytes)
    ensures Valid(One([PLACED], [], Live(0, 0), x, [0], map[0 := [x]], 0, false))
    ensures Step(One([PLACED], [], Live(0, 0), x, [0], map[0 := [x]], 0, false), SeqRm({0}, true)) ==
            One([], [0], Empty, x, [0], map[0 := [x]], 1, false)
  {
    OneValid([PLACED], [], Live(0, 0), x, [0], map[0 := [x]], 0, false);
    assert DownTo(1, 0) == [0];
  }

  const GONE := Info(-1, false, false)

  /** Selecting nothing moves the block out. */
  lemma OutOne(x: Bytes, y: Bytes)
    ensures Valid(One([PLACED], [], Live(0, 0), y, [0], map[0 := [x]], 1, false))
    ensures Step(One([PLACED], [], Live(0, 0), y, [0], map[0 := [x]], 1, false), ApplySelection(Selection(1, 1, []))) ==
            One([GONE], [0], Empty, y, [0], map[0 := [x]], 2, true)
  {
    var p := One([PLACED], [], Live(0, 0), y, [0], map[0 := [x]], 1, false);
    OneValid([PLACED], [], Live(0, 0), y, [0], map[0 := [x]], 1, false);
    assert Ids([]) == {};
    assert 0 in Outgoing(p, {}) && Incoming(p, {}) == {};
    assert Len(p, 0) == 1 && Before(0, 1) == 0 && BlockOf(0, 1) == 0;
    assert HarvestAll(p, Outgoing(p, {}), 0) == p && HarvestAll(p, Outgoing(p, {}), 1) == p;
    assert Marked(p.own, {}) == [GONE];
    assert Freed(p.own[..0], {}) == [] && Freed(p.own, {}) == [0];
    assert Assign([GONE], [0], {}, 1) == ([GONE], [0]) && Assign([GONE], [0], {}, 0) == ([GONE], [0]);
    assert OnGpu([GONE], {}) == [GONE];
    assert KillBlocks(p, Outgoing(p, {})) == [Empty];
    var q := One([GONE], [0], Empty, y, [0], map[0 := [x]], 2, false);
    assert ApplyPlan(p, {}) == q;
    assert [GONE][..0] == [] && Items(q.own) == [];
    assert WriteCold(q.(pinned := true), {}, 0) == q.(pinned := true);
  }

  lemma RestoreOne(x: Bytes, y: Bytes)
    ensures Shaped(One([Info(0, true, true)], [], Empty, y, [0], map[0 := [x]], 3, true))
    ensures WriteBlock(One([Info(0, true, true)], [], Empty, y, [0], map[0 := [x]], 3, true), 0) ==
            One([Info(0, true, true)], [], Live(0, 0), x, [0], map[0 := [x]], 4, true)
  {
    OneValid([Info(0, true, true)], [], Empty, y, [0], map[0 := [x]], 3, true);
    var p := One([Info(0, true, true)], [], Empty, y, [0], map[0 := [x]], 3, true);
    assert Before(0, 1) == 0 && Len(p, 0) == 1 && PosOf(p, 0) == 0 && |p.raw[0]| == 1 && p.raw[0][0] == x;
    var r := WriteBlock(p, 0);
    assert r.kv[0] == x;
    assert r.cells[0] == Live(0, 0);
    assert r.cells == [Live(0, 0)] && r.kv == [x];
  }

  /** Selecting it again restores the packed row. */
  lemma BackOne(x: Bytes, y: Bytes)
    ensures Valid(One([GONE], [0], Empty, y, [0], map[0 := [x]], 2, true))
    ensures Step(One([GONE], [0], Empty, y, [0], map[0 := [x]], 2, true), ApplySelection(Selection(2, 1, [0]))) ==
            One([Info(0, true, true)], [], Live(0, 0), x, [0], map[0 := [x]], 4, true)
  {
    var p := One([GONE], [0], Empty, y, [0], map[0 := [x]], 2, true);
    OneValid([GONE], [0], Empty, y, [0], map[0 := [x]], 2, true);
    assert Ids([0]) == {0};
    assert Outgoing(p, {0}) == {} && 0 in Incoming(p, {0});
    assert Before(0, 1) == 0 && BlockOf(0, 1) == 0;
    assert HarvestAll(p, {}, 0) == p && HarvestAll(p, {}, 1) == p;
    var m, there := Info(-1, false, true), Info(0, true, true);
    assert Marked(p.own, {0}) == [m];
    assert Freed(p.own[..0], {0}) == [] && Freed(p.own, {0}) == [] && [0] + [] == [0];
    assert [m][0 := m.(slot := 0, onGpu := true)] == [there] && [0][..0] == [];
    assert Assign([there], [], Incoming(p, {0}), 1) == ([there], []);
    assert Assign([m], [0], Incoming(p, {0}), 0) == ([there], []);
    assert OnGpu([there], Incoming(p, {0})) == [there];
    assert KillBlocks(p, {}) == [Empty];
    var q := One([there], [], Empty, y, [0], map[0 := [x]], 3, true);
    assert ApplyPlan(p, {0}) == q;
    assert [there][..0] == [] && SlotsInOrder(q.own);
    assert WriteCold(q, Incoming(p, {0}), 0) == q && Len(q, 0) == 1;
    RestoreOne(x, y);
  }

  /** Row 0 is decoded and packed, everything is removed, row 0 is decoded anew, packed, moved out and
      brought back. */
  function RemovedRun(x: Bytes, y: Bytes): seq<Event> {
    [Batch([Row(0, 0, x)], None), HarvestFull, SeqRm({0}, true), Batch([Row(0, 0, y)], None), HarvestFull,
     ApplySelection(Selection(1, 1, [])), ApplySelection(Selection(2, 1, [0]))]
  }

  lemma OneMore(p: Pool, es: seq<Event>, k: nat)
    requires Valid(p) && k < |es|
    ensures Run(p, es[..k + 1]) == Step(Run(p, es[..k]), es[k])
  {
    assert es[..k + 1][..k] == es[..k];
  }

  lemma Then(p: Pool, es: seq<Event>, k: nat, a: Pool, e: Event, b: Pool)
    requires Valid(p) && k < |es| && Run(p, es[..k]) == a && es[k] == e && Valid(a) && Step(a, e) == b
    ensures Run(p, es[..k + 1]) == b
  {
    OneMore(p, es, k);
  }

  lemma RemovedHalf(p: Pool, x: Bytes, y: Bytes, junk: Bytes)
    requires p == One([], [0], Empty, junk, [], map[], 0, false) && Valid(p)
    ensures Run(p, RemovedRun(x, y)[..4]) == One([PLACED], [], Live(0, 0), y, [0], map[0 := [x]], 1, false)
  {
    hide Step, Run, One, Valid;
    var es, packed := RemovedRun(x, y), map[0 := [x]];
    FirstRow(junk, x, [], map[], 0);
    PackOne(x, map[], 0);
    RemoveOne(x);
    FirstRow(x, y, [0], packed, 1);
    NoRun(p, es);
    Then(p, es, 0, p, es[0], One([PLACED], [], Live(0, 0), x, [0], map[], 0, false));
    Then(p, es, 1, Run(p, es[..1]), es[1], One([PLACED], [], Live(0, 0), x, [0], packed, 0, false));
    Then(p, es, 2, Run(p, es[..2]), es[2], One([], [0], Empty, x, [0], packed, 1, false));
    Then(p, es, 3, Run(p, es[..3]), es[3], One([PLACED], [], Live(0, 0), y, [0], packed, 1, false));
  }

  /** The run ends with row 0 live and holding the bytes x of the removed history, not the bytes y that were
      decoded for it since. */
  lemma RemovedComesBack(x: Bytes, y: Bytes, junk: Bytes)
    ensures Before(1, 1) == 1
    ensures var q := Run(Fresh(1, 1, 1, 1, [junk]), RemovedRun(x, y)); q.cells == [Live(0, 0)] && q.kv == [x]
  {
    hide Step, Run, One, Valid, Fresh;
    StartOne(junk);
    var p, es, packed := Fresh(1, 1, 1, 1, [junk]), RemovedRun(x, y), map[0 := [x]];
    RemovedHalf(p, x, y, junk);
    PackOne(y, packed, 1);
    OutOne(x, y);
    BackOne(x, y);
    Then(p, es, 4, Run(p, es[..4]), es[4], One([PLACED], [], Live(0, 0), y, [0], packed, 1, false));
    Then(p, es, 5, Run(p, es[..5]), es[5], One([GONE], [0], Empty, y, [0], packed, 2, true));
    Then(p, es, 6, Run(p, es[..6]), es[6], One([Info(0, true, true)], [], Live(0, 0), x, [0], packed, 4, true));
    assert es[..7] == es;
    LastCells(x);
  }

  lemma NoRun(p: Pool, es: seq<Event>)
    requires Valid(p)
    ensures Run(p, es[..0]) == p
  {
  }

  lemma LastCells(x: Bytes)
    ensures var q := One([Info(0, true, true)], [], Live(0, 0), x, [0], map[0 := [x]], 4, true);
      q.cells == [Live(0, 0)] && q.kv == [x]
  {
  }

  lemma StartOne(junk: Bytes)
    ensures Before(1, 1) == 1
    ensures Valid(Fresh(1, 1, 1, 1, [junk]))
    ensures Fresh(1, 1, 1, 1, [junk]) == One([], [0], Empty, junk, [], map[], 0, false)
  {
    assert DownTo(1, 0) == [0];
  }
}
