/** Re-layout: residents are packed into slots 0, 1, ... in row order, whatever the permutation, and
    every block's bytes come along. */
module Relayout {
  import opened Arith
  import opened SlotTable
  import opened SlotPool

  /** The k-th resident has rank k. */
  lemma {:induction false} RankIndex(own: seq<Info>, k: nat)
    requires k < |Residents(own)|
    ensures var i := Residents(own)[k]; i < |own| && Resident(own[i]) && RankOf(own, i) == k
  {
    var n := |own| - 1;
    if k < |Residents(own[..n])| {
      RankIndex(own[..n], k);
      var i := Residents(own[..n])[k];
      assert own[..n][..i] == own[..i];
    }
  }

  lemma {:induction false} IndexRank(own: seq<Info>, i: nat)
    requires i < |own| && Resident(own[i])
    ensures RankOf(own, i) < |Residents(own)| && Residents(own)[RankOf(own, i)] == i
  {
    var n := |own| - 1;
    if i < n {
      IndexRank(own[..n], i);
      assert own[..n][..i] == own[..i];
    }
  }

  /** After a re-layout, performed or skipped, each resident sits in the slot of its rank. */
  lemma LaidOutInOrder(p: Pool, i: nat)
    requires Valid(p) && i < |p.own|
    ensures Resident(Layout(p).own[i]) <==> Resident(p.own[i])
    ensures Resident(p.own[i]) ==> Layout(p).own[i].slot == RankOf(p.own, i) < p.nSlots
  {
    if Resident(p.own[i]) {
      IndexRank(p.own, i);
      PartitionCount(p.own, p.free, p.nSlots);
    }
  }

  /** Whether a re-layout has anything to do. */
  predicate Moves(p: Pool)
    requires Shaped(p)
  {
    Items(p.own) != [] && !SlotsInOrder(p.own)
  }

  /** The cell that row o of resident i lands in, and only that row. */
  lemma LandsWhere(p: Pool, i: nat, o: nat)
    requires Valid(p) && i < |p.own| && Resident(p.own[i]) && o < Len(p, i)
    ensures LandsAt(p, Items(p.own), Before(RankOf(p.own, i), p.bt) + o) == Some(i)
    ensures OffsetOf(Before(RankOf(p.own, i), p.bt) + o, p.bt) == o
  {
    IndexRank(p.own, i);
    RowUnique(RankOf(p.own, i), o, p.bt);
  }

  /** A block that lands in cell c is the resident of that rank. */
  lemma LandsFrom(p: Pool, c: nat) returns (i: nat)
    requires Valid(p) && LandsAt(p, Items(p.own), c).Some?
    ensures LandsAt(p, Items(p.own), c) == Some(i) && i < |p.own| && Resident(p.own[i])
    ensures RankOf(p.own, i) == BlockOf(c, p.bt) && OffsetOf(c, p.bt) < Len(p, i)
    ensures c == Before(RankOf(p.own, i), p.bt) + OffsetOf(c, p.bt)
  {
    var k := BlockOf(c, p.bt);
    i := Items(p.own)[k];
    RankIndex(p.own, k);
    RowSplit(c, p.bt);
  }

  /** The target cell of a resident row is inside a cache of whole slots. */
  lemma LandsInside(p: Pool, i: nat, o: nat)
    requires Valid(p) && p.kvSize == Before(p.nSlots, p.bt) && i < |p.own| && Resident(p.own[i]) && o < p.bt
    ensures Before(RankOf(p.own, i), p.bt) + o < p.kvSize
    ensures Before(p.own[i].slot, p.bt) + o < p.kvSize
  {
    LaidOutInOrder(p, i);
    OwnedOnce(p.own, p.free, p.nSlots, i, i);
    BeforeMono(RankOf(p.own, i), p.nSlots, p.bt);
    BeforeMono(p.own[i].slot, p.nSlots, p.bt);
  }

  /** q is p with its residents packed in order. */
  ghost predicate IsLayout(p: Pool, q: Pool)
    requires Shaped(p)
  {
    var items := Items(p.own);
    && q == p.(epoch := q.epoch, own := PackedOwn(p.own), free := q.free, cells := q.cells, kv := q.kv)
    && |q.cells| == |p.cells| && |q.kv| == |p.kv|
    && (forall c :: 0 <= c < |q.cells| ==> q.cells[c] == LaidOutCell(p, items, c))
    && (forall c :: 0 <= c < |q.kv| ==> q.kv[c] == LaidOutBytes(p, items, c))
  }

  lemma LayoutFrame(p: Pool, q: Pool)
    requires Shaped(p) && IsLayout(p, q)
    ensures q.bt == p.bt && q.nSlots == p.nSlots && q.kvSize == p.kvSize && q.total == p.total && q.raw == p.raw
    ensures |q.own| == |p.own| && |q.cells| == |p.cells| && |q.kv| == |p.kv|
    ensures forall i :: 0 <= i < |p.own| ==> (Resident(q.own[i]) <==> Resident(p.own[i]))
  {
    hide LaidOutCell, LaidOutBytes;
  }

  lemma LayoutCell(p: Pool, q: Pool, c: nat)
    requires Shaped(p) && IsLayout(p, q) && c < |q.cells|
    ensures c < |p.cells| && q.cells[c] == LaidOutCell(p, Items(p.own), c)
  {
    hide LaidOutCell, LaidOutBytes;
  }

  lemma LayoutIs(p: Pool)
    requires Shaped(p) && Moves(p)
    ensures IsLayout(p, Layout(p))
  {
  }

  lemma LandedContents(p: Pool, c: nat, i: nat, o: nat)
    requires Shaped(p) && c < |p.cells| && i < |p.own| && Resident(p.own[i]) && o < Len(p, i)
    requires LandsAt(p, Items(p.own), c) == Some(i) && OffsetOf(c, p.bt) == o
    ensures HeadLive(p, i) && Before(p.own[i].slot, p.bt) + o < |p.kv| ==>
              LaidOutBytes(p, Items(p.own), c) == p.kv[Before(p.own[i].slot, p.bt) + o]
    ensures !HeadLive(p, i) && i in p.raw && |p.raw[i]| >= Len(p, i) ==> LaidOutBytes(p, Items(p.own), c) == p.raw[i][o]
    ensures Restorable(p, i) ==>
              LaidOutCell(p, Items(p.own), c) == Live(Before(i, p.bt) + o, PosOf(p, Before(i, p.bt) + o))
  {
  }

  /** Contents survive: under any permutation of slots, each row of a block that was live at its
      head has its old bytes in its new cell, a cold block has its packed bytes there, and both are
      live for their rows, as far as the cells are inside the cache. */
  lemma LayoutKeepsContents(p: Pool, q: Pool, i: nat, o: nat)
    requires Valid(p) && IsLayout(p, q) && i < |p.own| && Resident(p.own[i]) && o < Len(p, i)
    ensures q.own[i].slot == RankOf(p.own, i) && |q.cells| == |q.kv| == |p.kv|
    ensures var c, src := Before(q.own[i].slot, p.bt) + o, Before(p.own[i].slot, p.bt) + o;
      c < |q.cells| ==>
        && (HeadLive(p, i) && src < |p.kv| ==> q.kv[c] == p.kv[src])
        && (!HeadLive(p, i) && i in p.raw && |p.raw[i]| >= Len(p, i) ==> q.kv[c] == p.raw[i][o])
        && (Restorable(p, i) ==> q.cells[c] == Live(Before(i, p.bt) + o, PosOf(p, Before(i, p.bt) + o)))
  {
    hide Before, BlockOf, OffsetOf, BlocksFor;
    LandsWhere(p, i, o);
    if Before(RankOf(p.own, i), p.bt) + o < |q.cells| {
      LandedContents(p, Before(RankOf(p.own, i), p.bt) + o, i, o);
    }
  }

  /** In a cache of whole slots they all are. */
  lemma LayoutKeepsAll(p: Pool, q: Pool, i: nat, o: nat)
    requires Valid(p) && p.kvSize == Before(p.nSlots, p.bt) && IsLayout(p, q)
    requires i < |p.own| && Resident(p.own[i]) && o < Len(p, i)
    ensures Before(q.own[i].slot, p.bt) + o < |q.cells| == |p.kv| && Before(p.own[i].slot, p.bt) + o < |p.kv|
  {
    hide Before, BlockOf, OffsetOf, BlocksFor;
    LandsInside(p, i, o);
  }

  /** No other cell is live for a row of a resident block after a re-layout. */
  lemma LayoutLeavesNoCopy(p: Pool, q: Pool, c: nat)
    requires Valid(p) && IsLayout(p, q) && c < |q.cells|
    requires var x := q.cells[c];
      x.Live? && x.row < p.total && BlockOf(x.row, p.bt) < |p.own| && Resident(p.own[BlockOf(x.row, p.bt)])
    ensures c == CellOf(q, q.cells[c].row)
  {
    hide Before, BlockOf, OffsetOf, BlocksFor;
    var items := Items(p.own);
    ResidentsAre(p.own);
    LayoutCell(p, q, c);
    if LandsAt(p, items, c).Some? {
      var i := LandsFrom(p, c);
      LenPositive(p, i);
      RowUnique(i, OffsetOf(c, p.bt), p.bt);
    }
  }
}
