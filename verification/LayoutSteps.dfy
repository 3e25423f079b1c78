/** Steps of the in-place re-layout: gather, scatter, clear, and place the residents one by one. */
module LayoutSteps {
  import opened Arith
  import opened SlotTable
  import opened SlotPool
  import opened Relayout

  /** `part` written over a buffer from `base` on. */
  function Pasted<T>(buf: seq<T>, base: nat, part: seq<T>): (r: seq<T>)
    requires base + |part| <= |buf|
    ensures |r| == |buf|
    ensures forall c :: 0 <= c < |buf| ==> r[c] == if base <= c < base + |part| then part[c - base] else buf[c]
  {
    buf[..base] + part + buf[base + |part|..]
  }

  /** Residents in block order, each with the slot of its rank. */
  predicate Sorted(own: seq<Info>, items: seq<nat>) {
    forall k :: 0 <= k < |items| && items[k] < |own| ==> own[items[k]].slot == k
  }

  lemma SortedIsInOrder(own: seq<Info>, items: seq<nat>)
    requires items == Residents(own)
    ensures Sorted(own, items) <==> SlotsInOrder(own)
  {
    if Sorted(own, items) {
      forall i | 0 <= i < |own| && Resident(own[i]) ensures own[i].slot == RankOf(own, i) {
        IndexRank(own, i);
      }
    }
    if SlotsInOrder(own) {
      forall k | 0 <= k < |items| && items[k] < |own| ensures own[items[k]].slot == k {
        RankIndex(own, k);
      }
    }
  }

  // ----- Bytes -----

  /** Cell c belongs to the target slot of a block that is live where it is. */
  predicate Hot(p: Pool, items: seq<nat>, c: nat)
    requires p.bt > 0 && |p.cells| == p.kvSize
  {
    BlockOf(c, p.bt) < |items| && items[BlockOf(c, p.bt)] < |p.own| && HeadLive(p, items[BlockOf(c, p.bt)])
  }

  /** The first `hot` slots have their live blocks' bytes, and the first `cold` slots all they get. */
  ghost predicate KvAt(p: Pool, items: seq<nat>, kv: seq<Bytes>, hot: nat, cold: nat)
    requires Shaped(p) && items == Items(p.own)
  {
    |kv| == |p.kv| && forall c :: 0 <= c < |kv| ==>
      kv[c] == if BlockOf(c, p.bt) < cold || (BlockOf(c, p.bt) < hot && Hot(p, items, c))
               then LaidOutBytes(p, items, c) else p.kv[c]
  }

  lemma KvStart(p: Pool, items: seq<nat>)
    requires Shaped(p) && items == Items(p.own)
    ensures KvAt(p, items, p.kv, 0, 0)
  {
    hide LaidOutBytes;
  }

  /** The cells of slot k. */
  lemma InSlot(c: nat, k: nat, bt: nat)
    requires bt > 0
    ensures BlockOf(c, bt) == k <==> Before(k, bt) <= c < Before(k, bt) + bt
    ensures BlockOf(c, bt) == k ==> OffsetOf(c, bt) == c - Before(k, bt)
    ensures BlockOf(c, bt) < k + 1 <==> BlockOf(c, bt) < k || BlockOf(c, bt) == k
  {
    RowSplit(c, bt);
    BeforeMono(BlockOf(c, bt), k, bt);
    BeforeMono(k, BlockOf(c, bt), bt);
  }

  /** What slot k gets when its block is live: the gathered rows. */
  function Gathered(p: Pool, i: nat): (r: seq<Bytes>)
    requires Valid(p) && p.kvSize == Before(p.nSlots, p.bt) && i < |p.own|
    ensures HeadLive(p, i) ==> |r| == Len(p, i)
  {
    if HeadLive(p, i) then WholeSlot(p, i);
      p.kv[Before(p.own[i].slot, p.bt)..Before(p.own[i].slot, p.bt) + Len(p, i)] else []
  }

  lemma WholeSlot(p: Pool, i: nat)
    requires Valid(p) && p.kvSize == Before(p.nSlots, p.bt) && i < |p.own| && Resident(p.own[i])
    ensures 0 <= Before(p.own[i].slot, p.bt) && Before(p.own[i].slot, p.bt) + p.bt <= |p.kv|
    ensures 0 < Len(p, i) <= p.bt
  {
    OwnedOnce(p.own, p.free, p.nSlots, i, i);
    BeforeMono(p.own[i].slot, p.nSlots, p.bt);
    BeforeMono(0, p.own[i].slot, p.bt);
    LenPositive(p, i);
  }

  /** The target slot of the k-th resident is inside the cache. */
  lemma TargetInside(p: Pool, k: nat)
    requires Valid(p) && p.kvSize == Before(p.nSlots, p.bt) && k < |Items(p.own)|
    ensures var i := Items(p.own)[k]; i < |p.own| && Resident(p.own[i]) && RankOf(p.own, i) == k
    ensures k < p.nSlots && 0 <= Before(k, p.bt) && Before(k, p.bt) + p.bt <= |p.kv|
  {
    RankIndex(p.own, k);
    PartitionCount(p.own, p.free, p.nSlots);
    BeforeMono(k, p.nSlots, p.bt);
    BeforeMono(0, k, p.bt);
  }

  /** The bytes a cell gets when the live block of its slot is scattered. */
  lemma ScatteredByte(p: Pool, items: seq<nat>, k: nat, c: nat)
    requires Valid(p) && p.kvSize == Before(p.nSlots, p.bt) && items == Items(p.own) && k < |items|
    requires c < |p.kv| && BlockOf(c, p.bt) == k
    ensures var i, o := items[k], OffsetOf(c, p.bt);
      HeadLive(p, i) ==> LaidOutBytes(p, items, c) == if o < Len(p, i) then Gathered(p, i)[o] else p.kv[c]
  {
    hide Before, BlockOf, OffsetOf, BlocksFor, Partition;
    TargetInside(p, k);
    WholeSlot(p, items[k]);
  }

  lemma ScatterStep(p: Pool, items: seq<nat>, kv: seq<Bytes>, k: nat)
    requires Valid(p) && p.kvSize == Before(p.nSlots, p.bt) && items == Items(p.own)
    requires k < |items| && KvAt(p, items, kv, k, 0)
    ensures 0 <= Before(k, p.bt) && Before(k, p.bt) + |Gathered(p, items[k])| <= |kv|
    ensures KvAt(p, items, Pasted(kv, Before(k, p.bt), Gathered(p, items[k])), k + 1, 0)
  {
    hide Before, BlockOf, OffsetOf, BlocksFor, Partition, LaidOutBytes;
    var i := items[k];
    TargetInside(p, k);
    WholeSlot(p, i);
    var more := Pasted(kv, Before(k, p.bt), Gathered(p, i));
    forall c | 0 <= c < |more|
      ensures more[c] == if BlockOf(c, p.bt) < k + 1 && Hot(p, items, c) then LaidOutBytes(p, items, c) else p.kv[c]
    {
      InSlot(c, k, p.bt);
      if BlockOf(c, p.bt) == k {
        ScatteredByte(p, items, k, c);
      }
    }
  }

  /** The rows a cold block gets from its packed rows: all, or none if they are too few. */
  function Restored(p: Pool, i: nat): seq<Bytes>
    requires i < |p.own| && |p.cells| == p.kvSize
  {
    if !HeadLive(p, i) && i in p.raw && |p.raw[i]| >= Len(p, i) then p.raw[i][..Len(p, i)] else []
  }

  lemma RestoredByte(p: Pool, items: seq<nat>, k: nat, c: nat)
    requires Valid(p) && items == Items(p.own) && k < |items| && c < |p.kv| && BlockOf(c, p.bt) == k
    ensures var i, o := items[k], OffsetOf(c, p.bt);
      !HeadLive(p, i) ==> LaidOutBytes(p, items, c) == if o < |Restored(p, i)| then Restored(p, i)[o] else p.kv[c]
  {
    hide Before, BlockOf, OffsetOf, BlocksFor, Partition;
  }

  lemma ColdStep(p: Pool, items: seq<nat>, kv: seq<Bytes>, k: nat)
    requires Valid(p) && p.kvSize == Before(p.nSlots, p.bt) && items == Items(p.own) && k < |items|
    requires KvAt(p, items, kv, |items|, k)
    ensures 0 <= Before(k, p.bt) && Before(k, p.bt) + |Restored(p, items[k])| <= |kv|
    ensures KvAt(p, items, Pasted(kv, Before(k, p.bt), Restored(p, items[k])), |items|, k + 1)
  {
    hide Before, BlockOf, OffsetOf, BlocksFor, Partition, LaidOutBytes;
    var i := items[k];
    TargetInside(p, k);
    WholeSlot(p, i);
    var more := Pasted(kv, Before(k, p.bt), Restored(p, i));
    forall c | 0 <= c < |more|
      ensures more[c] == if BlockOf(c, p.bt) < k + 1 || (BlockOf(c, p.bt) < |items| && Hot(p, items, c))
                         then LaidOutBytes(p, items, c) else p.kv[c]
    {
      InSlot(c, k, p.bt);
      if BlockOf(c, p.bt) == k {
        RestoredByte(p, items, k, c);
      }
    }
  }

  lemma KvDone(p: Pool, items: seq<nat>, kv: seq<Bytes>)
    requires Valid(p) && items == Items(p.own) && KvAt(p, items, kv, |items|, |items|)
    ensures kv == LaidOutKv(p, items)
  {
    hide Before, BlockOf, OffsetOf, BlocksFor, Partition;
  }

  // ----- Cells -----

  /** The live cells of block i, row by row. */
  function Occupancy(p: Pool, i: nat): (s: seq<Cell>)
    ensures |s| == Len(p, i)
    ensures forall o :: 0 <= o < |s| ==> s[o] == Live(RowAt(i, p.bt, o), PosOf(p, RowAt(i, p.bt, o)))
  {
    seq(Len(p, i), o requires 0 <= o < Len(p, i) => Live(RowAt(i, p.bt, o), PosOf(p, RowAt(i, p.bt, o))))
  }

  function RowAt(i: nat, bt: nat, o: nat): nat {
    BeforeMono(0, i, bt);
    Before(i, bt) + o
  }

  function Occupied(p: Pool, i: nat): seq<Cell>
    requires i < |p.own| && |p.cells| == p.kvSize
  {
    if Restorable(p, i) then Occupancy(p, i) else []
  }

  ghost predicate CellsAt(p: Pool, items: seq<nat>, cells: seq<Cell>, k: nat)
    requires Shaped(p) && items == Items(p.own)
  {
    |cells| == |p.cells| && forall c :: 0 <= c < |cells| ==>
      cells[c] == if BlockOf(c, p.bt) < k then LaidOutCell(p, items, c) else KillBlocks(p, set i | i in items)[c]
  }

  lemma CellsStart(p: Pool, items: seq<nat>)
    requires Shaped(p) && items == Items(p.own)
    ensures CellsAt(p, items, KillBlocks(p, set i | i in items), 0)
  {
    hide LaidOutCell, KillBlocks;
  }

  lemma OccupiedCell(p: Pool, items: seq<nat>, k: nat, c: nat)
    requires Valid(p) && items == Items(p.own) && k < |items| && c < |p.cells| && BlockOf(c, p.bt) == k
    ensures var i, o := items[k], OffsetOf(c, p.bt);
      LaidOutCell(p, items, c) == if o < |Occupied(p, i)| then Occupied(p, i)[o]
          else KillBlocks(p, set i | i in items)[c]
  {
    hide Before, BlockOf, OffsetOf, BlocksFor, Partition, KillBlocks;
  }

  lemma OccupyStep(p: Pool, items: seq<nat>, cells: seq<Cell>, k: nat)
    requires Valid(p) && p.kvSize == Before(p.nSlots, p.bt) && items == Items(p.own) && k < |items|
    requires CellsAt(p, items, cells, k)
    ensures 0 <= Before(k, p.bt) && Before(k, p.bt) + |Occupied(p, items[k])| <= |cells|
    ensures CellsAt(p, items, Pasted(cells, Before(k, p.bt), Occupied(p, items[k])), k + 1)
  {
    hide Before, BlockOf, OffsetOf, BlocksFor, Partition, LaidOutCell, KillBlocks;
    var i := items[k];
    TargetInside(p, k);
    WholeSlot(p, i);
    var more := Pasted(cells, Before(k, p.bt), Occupied(p, i));
    forall c | 0 <= c < |more|
      ensures more[c] == if BlockOf(c, p.bt) < k + 1 then LaidOutCell(p, items, c)
          else KillBlocks(p, set i | i in items)[c]
    {
      InSlot(c, k, p.bt);
      if BlockOf(c, p.bt) == k {
        OccupiedCell(p, items, k, c);
      }
    }
  }

  lemma CellsDone(p: Pool, items: seq<nat>, cells: seq<Cell>)
    requires Valid(p) && items == Items(p.own) && CellsAt(p, items, cells, |items|)
    ensures cells == LaidOutCells(p, items)
  {
    hide Before, BlockOf, OffsetOf, BlocksFor, Partition, KillBlocks;
  }

  // ----- Placement -----

  /** The first k residents have their new slots, the others none. */
  ghost predicate OwnAt(p: Pool, own: seq<Info>, k: nat) {
    |own| == |p.own| && forall j :: 0 <= j < |own| ==>
      own[j] == if !Resident(p.own[j]) then p.own[j]
                else if RankOf(p.own, j) < k then p.own[j].(slot := RankOf(p.own, j), onGpu := true)
                else p.own[j].(slot := -1)
  }

  lemma PlaceStep(p: Pool, own: seq<Info>, k: nat)
    requires k < |Items(p.own)| && OwnAt(p, own, k)
    ensures var i := Items(p.own)[k]; i < |own| && OwnAt(p, own[i := own[i].(slot := k, onGpu := true)], k + 1)
  {
    hide RankOf;
    var i := Items(p.own)[k];
    RankIndex(p.own, k);
    forall j | 0 <= j < |own| && Resident(p.own[j]) && RankOf(p.own, j) == k ensures j == i {
      IndexRank(p.own, j);
    }
  }

  lemma PlaceDone(p: Pool, own: seq<Info>)
    requires OwnAt(p, own, |Items(p.own)|)
    ensures own == PackedOwn(p.own)
  {
    hide RankOf;
    forall j | 0 <= j < |own| && Resident(p.own[j]) ensures RankOf(p.own, j) < |Items(p.own)| {
      IndexRank(p.own, j);
    }
  }

  /** Cold blocks with packed rows among the first k residents. */
  ghost function ColdOnes(p: Pool, items: seq<nat>, k: nat): set<nat>
    requires |p.cells| == p.kvSize && items == Items(p.own) && k <= |items|
  {
    set i | i in items[..k] && !HeadLive(p, i) && i in p.raw
  }

  lemma ColdNext(p: Pool, items: seq<nat>, k: nat)
    requires |p.cells| == p.kvSize && items == Items(p.own) && k < |items|
    ensures |ColdOnes(p, items, k + 1)| ==
            |ColdOnes(p, items, k)| + if !HeadLive(p, items[k]) && items[k] in p.raw then 1 else 0
  {
    hide HeadLive;
    var i := items[k];
    ResidentsAre(p.own);
    assert items[..k + 1] == items[..k] + [i];
    forall j | 0 <= j < k ensures items[..k][j] != i {
      assert items[j] < items[k];
    }
    if !HeadLive(p, i) && i in p.raw {
      assert ColdOnes(p, items, k + 1) == ColdOnes(p, items, k) + {i};
    } else {
      assert ColdOnes(p, items, k + 1) == ColdOnes(p, items, k);
    }
  }

  lemma ColdAll(p: Pool, items: seq<nat>)
    requires |p.cells| == p.kvSize && items == Items(p.own)
    ensures ColdOnes(p, items, |items|) == Rewritten(p, items)
  {
    assert items[..|items|] == items;
  }

  /** A re-layout, part by part. */
  lemma LayoutParts(p: Pool, q: Pool, items: seq<nat>)
    requires Shaped(p) && items == Items(p.own) && items != [] && !SlotsInOrder(p.own)
    requires q == p.(epoch := q.epoch, own := q.own, free := q.free, cells := q.cells, kv := q.kv)
    requires q.epoch == p.epoch + 1 + |Rewritten(p, items)| && q.own == PackedOwn(p.own)
    requires q.free == DownTo(p.nSlots, |items|)
    requires q.cells == LaidOutCells(p, items) && q.kv == LaidOutKv(p, items)
    ensures q == Layout(p)
  {
    hide LaidOutCell, LaidOutBytes;
  }

  lemma DownToTop(n: nat, k: nat)
    requires k < n
    ensures DownTo(n, k) == DownTo(n, k + 1) + [k]
  {
  }

  /** With every resident's slot taken away, placement can begin. */
  lemma PlaceStart(p: Pool, own: seq<Info>, items: seq<nat>)
    requires items == Items(p.own) && |own| == |p.own|
    requires forall j :: 0 <= j < |own| ==> own[j] == if j in items then p.own[j].(slot := -1) else p.own[j]
    ensures OwnAt(p, own, 0)
  {
    hide RankOf;
    ResidentsAre(p.own);
  }

  lemma ItemsFacts(own: seq<Info>)
    ensures forall k :: 0 <= k < |Items(own)| ==> Items(own)[k] < |own| && Resident(own[Items(own)[k]])
  {
    forall k | 0 <= k < |Items(own)| ensures Items(own)[k] < |own| && Resident(own[Items(own)[k]]) {
      RankIndex(own, k);
    }
  }

  lemma LenFits(p: Pool, i: nat)
    requires SlotPool.Valid(p) && i < |p.own|
    ensures 0 < Len(p, i) <= p.bt
  {
    LenPositive(p, i);
  }

  lemma LayoutIdle(p: Pool)
    requires Shaped(p) && !Moves(p)
    ensures Layout(p) == p
  {
    hide LaidOutCell, LaidOutBytes;
  }

  lemma OwnSame(p: Pool, q: Pool, k: nat)
    requires q.own == p.own
    ensures forall own :: OwnAt(q, own, k) == OwnAt(p, own, k)
  {
    hide RankOf;
  }

  lemma OwnSize(p: Pool, own: seq<Info>, k: nat)
    requires OwnAt(p, own, k)
    ensures |own| == |p.own|
  {
    hide RankOf;
  }

  lemma OccupancySame(p: Pool, q: Pool, i: nat)
    requires q.bt == p.bt && q.total == p.total && q.rowPos == p.rowPos
    ensures Occupancy(q, i) == Occupancy(p, i)
  {
  }

  lemma PastedNothing<T>(buf: seq<T>, base: nat)
    requires base <= |buf|
    ensures Pasted(buf, base, []) == buf
  {
  }

  lemma LastOf(a: seq<int>, x: int, b: seq<int>, y: int)
    requires a + [x] == b + [y]
    ensures a == b && x == y
  {
    assert (a + [x])[|a|] == x && (b + [y])[|b|] == y;
    assert a == (a + [x])[..|a|] == (b + [y])[..|b|] == b;
  }

  lemma ColdNone(p: Pool, items: seq<nat>)
    requires |p.cells| == p.kvSize && items == Items(p.own)
    ensures |ColdOnes(p, items, 0)| == 0
  {
    assert ColdOnes(p, items, 0) == {};
  }

  lemma WriteBlockIdle(p: Pool, i: nat)
    requires Shaped(p) && i < |p.own| && (!Resident(p.own[i]) || i !in p.raw)
    ensures WriteBlock(p, i) == p
  {
  }

  /** Restoring a block, part by part. */
  lemma WriteBlockIs(p: Pool, i: nat)
    requires SlotPool.Valid(p) && p.kvSize == Before(p.nSlots, p.bt) && i < |p.own| && Resident(p.own[i]) && i in p.raw
    ensures var base, q := Before(p.own[i].slot, p.bt), WriteBlock(p, i);
      && 0 <= base && base + Len(p, i) <= |p.kv| && SlotPool.Valid(q)
      && q == p.(epoch := p.epoch + 1, cells := Pasted(p.cells, base, Occupancy(p, i)),
                 kv := if |p.raw[i]| >= Len(p, i) then Pasted(p.kv, base, p.raw[i][..Len(p, i)]) else p.kv)
  {
    hide Before, BlocksFor, Partition, RowsOf;
    WholeSlot(p, i);
    var base, q := Before(p.own[i].slot, p.bt), WriteBlock(p, i);
    var cells := Pasted(p.cells, base, Occupancy(p, i));
    forall c | 0 <= c < |cells| ensures cells[c] == q.cells[c] {
      BeforeMono(0, i, p.bt);
    }
    assert q.cells == cells;
    assert q.kv == if |p.raw[i]| >= Len(p, i) then Pasted(p.kv, base, p.raw[i][..Len(p, i)]) else p.kv;
  }

  lemma PlanShape(p: Pool, sel: set<nat>)
    requires SlotPool.Valid(p)
    ensures var q := ApplyPlan(p, sel); q.kvSize == p.kvSize && q.nSlots == p.nSlots && q.bt == p.bt
  {
    hide HarvestAll, Before, BlocksFor;
  }

  lemma LayoutIdleAlso(p: Pool)
    requires Shaped(p)
    ensures !Moves(p) ==> Layout(p) == p
    ensures Moves(p) <==> !(Items(p.own) == [] || SlotsInOrder(p.own))
  {
    if !Moves(p) {
      LayoutIdle(p);
    }
  }
}
