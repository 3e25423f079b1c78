/** Steps of the pool object's loops, as facts about the values they build. */
module PoolSteps {
  import opened Arith
  import opened SlotTable
  import opened SlotPool
  import opened BlockTable

  lemma TablePlaced(blocks: seq<Block>, t: nat, bt: nat, i: nat, b: Info)
    requires Table(blocks, t, bt) && i < |blocks|
    ensures Table(blocks[i := blocks[i].(at := b)], t, bt)
  {
    hide Before, BlocksFor, RowsOf;
    var more := blocks[i := blocks[i].(at := b)];
    forall j | 0 <= j < |more| ensures Right(more[j], j, t, bt) {
      assert Right(blocks[j], j, t, bt);
    }
  }

  // ----- Clearing rows -----

  /** The blocks of `ids` below k. */
  function Under(ids: set<nat>, k: nat): set<nat> {
    set i | i in ids && i < k
  }

  /** Clearing the rows of block k clears one more block. */
  lemma KillNext(p: Pool, ids: set<nat>, k: nat)
    requires p.bt > 0 && k < BlocksFor(p.total, p.bt) && k in ids
    ensures KillRows(KillBlocks(p, Under(ids, k)), Before(k, p.bt), Before(k, p.bt) + Len(p, k)) ==
            KillBlocks(p, Under(ids, k + 1))
  {
    var a, b := KillRows(KillBlocks(p, Under(ids, k)), Before(k, p.bt), Before(k, p.bt) + Len(p, k)),
        KillBlocks(p, Under(ids, k + 1));
    forall c | 0 <= c < |p.cells| ensures a[c] == b[c] {
      if p.cells[c].Live? {
        RowsOfBlock(p, k, p.cells[c].row);
      }
    }
  }

  lemma RowsOfBlock(p: Pool, k: nat, r: nat)
    requires p.bt > 0 && k < BlocksFor(p.total, p.bt)
    ensures Before(k, p.bt) <= r < Before(k, p.bt) + Len(p, k) <==> r < p.total && BlockOf(r, p.bt) == k
  {
    BlocksForCovers(p.total, p.bt, k);
    RowSplit(r, p.bt);
    BeforeMono(BlockOf(r, p.bt), k, p.bt);
    BeforeMono(k, BlockOf(r, p.bt), p.bt);
  }

  lemma KillSkips(p: Pool, ids: set<nat>, k: nat)
    requires p.bt > 0 && k !in ids
    ensures Under(ids, k + 1) == Under(ids, k)
  {
  }

  lemma KillStart(p: Pool, ids: set<nat>)
    requires p.bt > 0
    ensures KillBlocks(p, Under(ids, 0)) == p.cells
  {
  }

  /** Rows of blocks that do not exist are not stored, so clearing the existing blocks clears all. */
  lemma KillAll(p: Pool, ids: set<nat>)
    requires p.bt > 0
    ensures KillBlocks(p, Under(ids, BlocksFor(p.total, p.bt))) == KillBlocks(p, ids)
  {
    forall c | 0 <= c < |p.cells|
      ensures KillBlocks(p, Under(ids, BlocksFor(p.total, p.bt)))[c] == KillBlocks(p, ids)[c]
    {
      if p.cells[c].Live? && p.cells[c].row < p.total {
        RowInBlock(p.cells[c].row, p.bt, p.total);
      }
    }
  }

  // ----- Spilling and admitting -----

  lemma FreedNext(own: seq<Info>, sel: set<nat>, k: nat)
    requires k < |own|
    ensures Freed(own[..k + 1], sel) == Freed(own[..k], sel) + if own[k].onGpu && k !in sel then SlotOf(own[k]) else []
  {
    assert own[..k + 1][..k] == own[..k];
  }

  lemma {:induction false} FreedSlots(own: seq<Info>, sel: set<nat>)
    ensures forall k :: 0 <= k < |Freed(own, sel)| ==> Freed(own, sel)[k] >= 0
  {
    if own != [] {
      FreedSlots(own[..|own| - 1], sel);
    }
  }

  lemma HarvestEpoch(p: Pool, e: nat, i: nat)
    requires Shaped(p) && i < |p.own|
    ensures Harvest(p.(epoch := e), i) == Harvest(p, i).(epoch := e)
  {
    hide Before, BlockOf, BlocksFor;
  }

  /** What is packed does not depend on the epoch. */
  lemma {:induction false} HarvestAnyEpoch(p: Pool, e: nat, ids: set<nat>, k: nat)
    requires Shaped(p) && k <= |p.own|
    ensures HarvestAll(p.(epoch := e), ids, k) == HarvestAll(p, ids, k).(epoch := e)
  {
    hide Before, BlockOf, BlocksFor, Harvest;
    if k > 0 {
      HarvestAnyEpoch(p, e, ids, k - 1);
      HarvestEpoch(HarvestAll(p, ids, k - 1), e, k - 1);
    }
  }

  lemma KillSame(p: Pool, q: Pool, ids: set<nat>)
    requires p.bt > 0 && q.bt == p.bt && q.cells == p.cells && q.total == p.total
    ensures KillBlocks(q, ids) == KillBlocks(p, ids)
  {
  }

  /** A plan, part by part. */
  lemma PlanIs(p: Pool, q: Pool, sel: set<nat>, outs: set<nat>, ins: set<nat>)
    requires Shaped(p) && outs == Outgoing(p, sel) && ins == Incoming(p, sel)
    requires q == p.(epoch := q.epoch, raw := q.raw, cells := q.cells, own := q.own, free := q.free)
    requires q.epoch == if outs == {} && ins == {} then p.epoch else p.epoch + 1
    requires q.raw == HarvestAll(p, outs, |p.own|).raw && q.cells == KillBlocks(p, outs)
    requires (q.own, q.free) == Replace(p.own, p.free, sel, ins)
    ensures q == ApplyPlan(p, sel)
  {
  }

  /** Marked residents are GPU blocks. */
  lemma MarkedOnGpu(own: seq<Info>, sel: set<nat>)
    requires forall i :: 0 <= i < |own| && Resident(own[i]) ==> own[i].onGpu
    ensures forall i :: 0 <= i < |own| && Resident(Marked(own, sel)[i]) ==> Marked(own, sel)[i].onGpu
  {
  }

  /** The table after admitting the blocks of `ins` below k, when placement so far gave `placed`. */
  ghost predicate AdmittedTo(own: seq<Info>, placed: seq<Info>, ins: set<nat>, k: nat) {
    |own| == |placed| && forall j :: 0 <= j < |own| ==>
        own[j] == if j < k && j in ins then placed[j].(onGpu := true) else placed[j]
  }

  /** Placement is at block k, with the same outcome as from the start. */
  ghost predicate PlacingAt(own0: seq<Info>, free0: seq<int>, placed: seq<Info>, free: seq<int>, want: set<nat>,
                            k: nat) {
    && |placed| == |own0| && k <= |own0|
    && Assign(placed, free, want, k) == Assign(own0, free0, want, 0)
    && (forall i :: 0 <= i < |free| ==> free[i] >= 0)
  }

  /** Placement of block k: what it gets, and what is left. */
  function PlacedBlock(b: Info, free: seq<int>, wanted: bool): (Info, seq<int>) {
    if wanted && !Resident(b) && free != [] then (b.(slot := free[|free| - 1], onGpu := true), free[..|free| - 1])
    else (b, free)
  }

  lemma PlacingNext(own0: seq<Info>, free0: seq<int>, placed: seq<Info>, free: seq<int>, want: set<nat>, k: nat)
    requires PlacingAt(own0, free0, placed, free, want, k) && k < |own0|
    ensures var (b, rest) := PlacedBlock(placed[k], free, k in want);
      PlacingAt(own0, free0, placed[k := b], rest, want, k + 1)
  {
    assert placed[k := placed[k]] == placed;
  }

  lemma PlacingDone(own0: seq<Info>, free0: seq<int>, placed: seq<Info>, free: seq<int>, want: set<nat>)
    requires PlacingAt(own0, free0, placed, free, want, |own0|)
    ensures Assign(own0, free0, want, 0) == (placed, free)
  {
  }

  lemma AdmittedAll(own: seq<Info>, placed: seq<Info>, ins: set<nat>)
    requires AdmittedTo(own, placed, ins, |own|)
    ensures own == OnGpu(placed, ins)
  {
  }

  lemma AdmittedNext(own: seq<Info>, placed: seq<Info>, ins: set<nat>, k: nat, b: Info)
    requires AdmittedTo(own, placed, ins, k) && k < |own|
    ensures AdmittedTo(own[k := if k in ins then b.(onGpu := true) else b], placed[k := b], ins, k + 1)
  {
  }

  /** When slots run out, placement is over. */
  lemma PlacingStuck(own0: seq<Info>, free0: seq<int>, placed: seq<Info>, want: set<nat>, k: nat)
    requires PlacingAt(own0, free0, placed, [], want, k)
    ensures Assign(own0, free0, want, 0) == (placed, [])
  {
    NothingAssigned(placed, want, k);
  }

  // ----- Making room -----

  /** A block holds rows from t0 on exactly when it is touched. */
  lemma TouchedRows(p: Pool, t0: nat, k: nat)
    requires p.bt > 0 && |p.own| == BlocksFor(p.total, p.bt) && t0 < p.total && k < |p.own|
    ensures Before(k, p.bt) + Len(p, k) > t0 <==> k in Touched(p, t0)
  {
    BlocksForCovers(p.total, p.bt, k);
    RowSplit(t0, p.bt);
    BeforeMono(BlockOf(t0, p.bt), k, p.bt);
    BeforeMono(k, BlockOf(t0, p.bt), p.bt);
  }

  lemma PlacedValidOwn(a: Pool, own: seq<Info>, free: seq<int>, want: set<nat>)
    requires Valid(a) && (own, free) == Assign(a.own, a.free, want, 0)
    ensures Valid(a.(own := own, free := free))
  {
    AssignPartition(a.own, a.free, a.nSlots, want, 0);
    FreeInRange(a.own, a.free, a.nSlots);
    AssignExtends(a.own, a.free, want, 0);
  }

  /** Preparing a batch, case by case: `grown` is the pool after placing, if placing was possible. */
  lemma PrepareIs(p: Pool, n: nat, pick: Option<set<nat>>, a: Pool, grown: Option<Pool>)
    requires Shaped(p) && n > 0 && !p.replay && a == Append(p, n) && Shaped(a) && grown == Placed(a, p.total, n, pick)
    ensures Prepare(p, n, pick) ==
      if grown.Some? && TailPlaced(grown.value, p.total) then (true, grown.value)
      else (false, Truncate(if grown.Some? then grown.value else a, p.total))
  {
  }

  lemma PlanFrame(p: Pool, sel: set<nat>)
    requires Valid(p)
    ensures ApplyPlan(p, sel).total == p.total && |ApplyPlan(p, sel).own| == |p.own|
  {
    hide HarvestAll, Before, BlocksFor;
  }

  // ----- Storing a batch -----

  /** Recording stops at the first row that is not stored. */
  lemma {:induction false} RecordStops(rowPos: seq<Position>, total: nat, batch: seq<Row>, k: nat)
    requires k < |batch| && !(0 <= batch[k].row < total) && RecordPositions(rowPos, total, batch[..k]).0
    ensures RecordPositions(rowPos, total, batch) == (false, RecordPositions(rowPos, total, batch[..k]).1)
    decreases |batch|
  {
    hide Extend;
    var n := |batch| - 1;
    if k < n {
      assert batch[..n][..k] == batch[..k];
      RecordStops(rowPos, total, batch[..n], k);
    }
  }

  lemma RecordNext(rowPos: seq<Position>, total: nat, batch: seq<Row>, k: nat)
    requires k < |batch| && 0 <= batch[k].row < total && RecordPositions(rowPos, total, batch[..k]).0
    ensures RecordPositions(rowPos, total, batch[..k + 1])
         == (true, Extend(RecordPositions(rowPos, total, batch[..k]).1, batch[k].row + 1)[batch[k].row := batch[k].pos])
  {
    assert batch[..k + 1][..k] == batch[..k];
  }

  lemma WriteNext(cells: seq<Cell>, kv: seq<Bytes>, batch: seq<Row>, idx: seq<nat>, k: nat)
    requires |idx| == |batch| && |cells| == |kv| && k < |batch| && idx[k] < |cells| && batch[k].row >= 0
    ensures var (c, v) := WriteCells(cells, kv, batch[..k], idx[..k]);
      WriteCells(cells, kv, batch[..k + 1], idx[..k + 1])
      == (c[idx[k] := Live(batch[k].row, batch[k].pos)], v[idx[k] := batch[k].val])
  {
    assert batch[..k + 1][..k] == batch[..k] && idx[..k + 1][..k] == idx[..k];
  }

  /** Cells of a batch do not depend on recorded positions. */
  lemma SameSlots(p: Pool, q: Pool, batch: seq<Row>)
    requires p.bt > 0 && q == p.(rowPos := q.rowPos)
    ensures FillSlots(q, batch) == FillSlots(p, batch)
  {
    hide Before, BlockOf, OffsetOf;
    assert forall k :: 0 <= k < |batch| ==> Mapped(q, batch[k].row) == Mapped(p, batch[k].row);
    if FillSlots(p, batch).Some? {
      assert FillSlots(q, batch).value == FillSlots(p, batch).value;
    }
  }

  /** Filled cells are inside the cache, and their rows are stored rows. */
  lemma FilledInside(p: Pool, batch: seq<Row>)
    requires p.bt > 0
    ensures var idx := FillSlots(p, batch);
      idx.Some? ==> forall k :: 0 <= k < |batch| ==> idx.value[k] < p.kvSize && batch[k].row >= 0
  {
    hide Before, BlockOf, OffsetOf;
    forall k | 0 <= k < |batch| && FillSlots(p, batch).Some?
      ensures FillSlots(p, batch).value[k] < p.kvSize && batch[k].row >= 0
    {
      assert Mapped(p, batch[k].row);
    }
  }
}
