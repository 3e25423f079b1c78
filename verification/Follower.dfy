/** The draft cache owns no slots: it asks the target where a row is, or where it will be once the target
    appends it. */
module Follower {
  import opened Arith
  import opened SlotTable
  import opened SlotPool
  import opened Runs
  import opened Admission

  /** slot_for_orig_pos: the slot and offset of row r. A stored row sits in its block. A row to come is
      expected in the last block, if that is resident and has room for it, and else in the slot on top
      of the free stack. */
  function SlotFor(p: Pool, r: nat): Option<(int, nat)>
    requires p.bt > 0 && |p.own| == BlocksFor(p.total, p.bt)
  {
    if r < p.total then
      RowInBlock(r, p.bt, p.total);
      var b := p.own[BlockOf(r, p.bt)];
      if Resident(b) then Some((b.slot, OffsetOf(r, p.bt))) else None
    else
      var last := |p.own| - 1;
      if p.own != [] && Resident(p.own[last]) && Before(last, p.bt) <= r < Before(last, p.bt) + p.bt
      then Some((p.own[last].slot, r - Before(last, p.bt)))
      else if p.free != [] then Some((p.free[|p.free| - 1], OffsetOf(r, p.bt))) else None
  }

  /** fill_from_target: the draft's cells for a batch, or nothing if some row has none. */
  function FillDraft(p: Pool, rows: seq<nat>): Option<seq<int>>
    requires p.bt > 0 && |p.own| == BlocksFor(p.total, p.bt)
  {
    if rows != [] && forall k :: 0 <= k < |rows| ==> DraftCell(p, rows[k]).Some? then
      Some(seq(|rows|, k requires 0 <= k < |rows| && DraftCell(p, rows[k]).Some? => DraftCell(p, rows[k]).value))
    else None
  }

  function DraftCell(p: Pool, r: nat): Option<int>
    requires p.bt > 0 && |p.own| == BlocksFor(p.total, p.bt)
  {
    var at := SlotFor(p, r);
    if at.Some? && Before(at.value.0, p.bt) + at.value.1 < p.kvSize
    then Some(Before(at.value.0, p.bt) + at.value.1) else None
  }

  // ----- Who gets the top of the stack -----

  /** The first wanted block without a slot gets the top slot. */
  lemma {:induction false} AssignTop(own: seq<Info>, free: seq<int>, want: set<nat>, i: nat, j: nat)
    requires i <= j < |own| && free != [] && j in want && !Resident(own[j])
    requires forall k :: 0 <= k < |free| ==> free[k] >= 0
    requires forall k :: i <= k < j && k in want ==> Resident(own[k])
    ensures Assign(own, free, want, i).0[j].slot == free[|free| - 1]
    decreases j - i
  {
    if i == j {
      var b := own[i].(slot := free[|free| - 1], onGpu := true);
      AssignExtends(own[i := b], free[..|free| - 1], want, i + 1);
    } else {
      AssignTop(own, free, want, i + 1, j);
    }
  }

  predicate HasSlot(own: seq<Info>, i: nat) {
    i < |own| && Resident(own[i])
  }

  /** The first block in [lo, hi) that is missing or has no slot. */
  lemma {:induction false} FirstNeeded(own: seq<Info>, lo: nat, hi: nat) returns (k: nat)
    requires Needed(own, lo, hi) > 0
    ensures lo <= k < hi && !HasSlot(own, k)
    ensures forall j :: lo <= j < k ==> HasSlot(own, j)
  {
    if Needed(own, lo, hi - 1) > 0 {
      k := FirstNeeded(own, lo, hi - 1);
    } else {
      k := hi - 1;
      NoneNeeded(own, lo, hi - 1);
    }
  }

  lemma {:induction false} NoneNeeded(own: seq<Info>, lo: nat, hi: nat)
    requires Needed(own, lo, hi) == 0
    ensures forall j :: lo <= j < hi ==> HasSlot(own, j)
  {
    if lo < hi {
      NoneNeeded(own, lo, hi - 1);
    }
  }

  // ----- The prediction -----

  /** What the target does when it makes room for n rows in a pinned window. */
  lemma PlacedPinned(p: Pool, n: nat, pick: Option<set<nat>>)
    requires Valid(p) && !p.replay && (p.pinned || p.keep) && n > 0 && Prepare(p, n, pick).0
    ensures var a, q := Append(p, n), Prepare(p, n, pick).1;
      && Valid(a) && Valid(q) && q.bt == p.bt && q.kvSize == p.kvSize &&
          q.own == Assign(a.own, a.free, Touched(a, p.total), 0).0
      && TailPlaced(q, p.total) && |q.own| == |a.own| && a.free == p.free
  {
    hide Before, BlockOf, OffsetOf, BlocksFor, Partition;
    AppendValid(p, n);
    PrepareValid(p, n, pick);
  }

  /** The slot the target gives to the first block it still has to place is the top of the stack. */
  lemma FirstPlaced(p: Pool, n: nat, pick: Option<set<nat>>, k: nat)
    requires Valid(p) && !p.replay && (p.pinned || p.keep) && n > 0 && Prepare(p, n, pick).0
    requires BlockOf(p.total, p.bt) <= k < BlocksFor(p.total + n, p.bt) && !HasSlot(p.own, k)
    requires forall j :: BlockOf(p.total, p.bt) <= j < k ==> HasSlot(p.own, j)
    ensures p.free != [] && Prepare(p, n, pick).1.own[k].slot == p.free[|p.free| - 1]
  {
    hide Before, BlockOf, OffsetOf, BlocksFor, Partition, Prepare;
    PlacedPinned(p, n, pick);
    var a := Append(p, n);
    FreeInRange(a.own, a.free, a.nSlots);
    StillLacking(p, n, k);
    if a.free == [] {
      NothingAssigned(a.own, Touched(a, p.total), 0);
    } else {
      AssignTop(a.own, a.free, Touched(a, p.total), 0, k);
    }
  }

  /** Appending gives no block a slot. */
  lemma StillLacking(p: Pool, n: nat, k: nat)
    requires Valid(p) && k < |Append(p, n).own| && BlockOf(p.total, p.bt) <= k && !HasSlot(p.own, k)
    requires forall j :: BlockOf(p.total, p.bt) <= j < k ==> HasSlot(p.own, j)
    ensures var a := Append(p, n);
      && !Resident(a.own[k]) && k in Touched(a, p.total)
      && (forall j: nat :: j < k && j in Touched(a, p.total) ==> Resident(a.own[j]))
  {
    hide Before, BlockOf, OffsetOf, BlocksFor, Partition;
    var a := Append(p, n);
    forall j: nat | j < k && j in Touched(a, p.total) ensures Resident(a.own[j]) {
      assert HasSlot(p.own, j);
    }
  }

  /** Where row r goes: its block, before and after. */
  lemma RowToCome(p: Pool, n: nat, r: nat)
    requires Valid(p) && p.total <= r < p.total + n
    ensures BlockOf(p.total, p.bt) <= BlockOf(r, p.bt) < BlocksFor(p.total + n, p.bt)
    ensures r == Before(BlockOf(r, p.bt), p.bt) + OffsetOf(r, p.bt)
    ensures |p.own| > 0 ==> (Before(|p.own| - 1, p.bt) <= r < Before(|p.own| - 1, p.bt) + p.bt <==>
                             BlockOf(r, p.bt) == |p.own| - 1)
    ensures BlockOf(r, p.bt) >= BlockOf(p.total, p.bt) >= |p.own| - 1
  {
    RowSplit(p.total, p.bt);
    RowInBlock(r, p.bt, p.total + n);
    BlockOfMono(p.total, r, p.bt);
    if |p.own| > 0 {
      var last := |p.own| - 1;
      BlocksForCovers(p.total, p.bt, last);
      BeforeMono(BlockOf(r, p.bt), last, p.bt);
      BeforeMono(last, BlockOf(r, p.bt), p.bt);
      BeforeMono(BlockOf(p.total, p.bt), last, p.bt);
    }
  }

  /** The expectation is right exactly when no block before the row's own still has to be placed: the tail
      block is resident, full, or the one the row belongs to, and the row lies no further than the next
      block. Then the draft uses the very slot and offset the target assigns on its next append. */
  lemma PredictionIsExact(p: Pool, n: nat, pick: Option<set<nat>>, r: nat)
    requires Valid(p) && !p.replay && (p.pinned || p.keep) && p.total <= r < p.total + n && Prepare(p, n, pick).0
    ensures BlockOf(r, p.bt) < |Prepare(p, n, pick).1.own|
    ensures SlotFor(p, r) == Some((Prepare(p, n, pick).1.own[BlockOf(r, p.bt)].slot, OffsetOf(r, p.bt)))
       <==> Needed(p.own, BlockOf(p.total, p.bt), BlockOf(r, p.bt)) == 0
  {
    hide Prepare, Partition, Append, Needed;
    var q, i := Prepare(p, n, pick).1, BlockOf(r, p.bt);
    RowToCome(p, n, r);
    PlacedPinned(p, n, pick);
    var first := BlockOf(p.total, p.bt);
    if Needed(p.own, first, i) == 0 {
      NoneNeeded(p.own, first, i);
      RightGuess(p, n, pick, r);
    } else {
      var k := FirstNeeded(p.own, first, i);
      FirstPlaced(p, n, pick, k);
      OwnedOnce(q.own, q.free, q.nSlots, k, i);
      WrongGuess(p, n, r, k);
    }
  }

  lemma RightGuess(p: Pool, n: nat, pick: Option<set<nat>>, r: nat)
    requires Valid(p) && !p.replay && (p.pinned || p.keep) && p.total <= r < p.total + n && Prepare(p, n, pick).0
    requires forall j :: BlockOf(p.total, p.bt) <= j < BlockOf(r, p.bt) ==> HasSlot(p.own, j)
    requires BlockOf(r, p.bt) < |Prepare(p, n, pick).1.own|
    ensures SlotFor(p, r) == Some((Prepare(p, n, pick).1.own[BlockOf(r, p.bt)].slot, OffsetOf(r, p.bt)))
  {
    hide Prepare, Partition, BlockOf, OffsetOf, BlocksFor, Before;
    var i := BlockOf(r, p.bt);
    RowToCome(p, n, r);
    PlacedPinned(p, n, pick);
    if i < |p.own| && Resident(p.own[i]) {
      FreeInRange(p.own, p.free, p.nSlots);
      AssignExtends(Append(p, n).own, p.free, Touched(Append(p, n), p.total), 0);
    } else {
      FirstPlaced(p, n, pick, i);
    }
  }

  /** With a block to place before it, the row's expected slot is the one that block gets. */
  lemma WrongGuess(p: Pool, n: nat, r: nat, k: nat)
    requires Valid(p) && p.total <= r < p.total + n && p.free != []
    requires BlockOf(p.total, p.bt) <= k < BlockOf(r, p.bt) && !HasSlot(p.own, k)
    ensures SlotFor(p, r).Some? && SlotFor(p, r).value.0 == p.free[|p.free| - 1]
  {
    hide BlockOf, OffsetOf, BlocksFor, Before, Partition;
    RowToCome(p, n, r);
  }

  /** For a row of the tail block or the next one, the condition is the one a caller can see. */
  lemma TailCondition(p: Pool, r: nat)
    requires Valid(p) && p.total <= r && BlockOf(r, p.bt) <= |p.own|
    ensures Needed(p.own, BlockOf(p.total, p.bt), BlockOf(r, p.bt)) == 0
       <==> (OffsetOf(p.total, p.bt) == 0 || BlockOf(r, p.bt) == BlockOf(p.total, p.bt) ||
             HasSlot(p.own, BlockOf(p.total, p.bt)))
  {
    var first := BlockOf(p.total, p.bt);
    RowToCome(p, r + 1 - p.total, r);
    RowSplit(p.total, p.bt);
    BlocksForCovers(p.total, p.bt, first);
    if BlockOf(r, p.bt) > first {
      NeededSplit(p.own, first, first + 1, BlockOf(r, p.bt));
    }
  }

  /** The draft writes a whole batch of rows to come into the cells the target will use for them. */
  lemma DraftFollowsTarget(p: Pool, n: nat, pick: Option<set<nat>>, rows: seq<nat>)
    requires Valid(p) && !p.replay && (p.pinned || p.keep)
    requires p.kvSize == Before(p.nSlots, p.bt) && Prepare(p, n, pick).0
    requires forall k :: 0 <= k < |rows| ==>
              p.total <= rows[k] < p.total + n && Needed(p.own, BlockOf(p.total, p.bt), BlockOf(rows[k], p.bt)) == 0
    ensures var cells := FillDraft(p, rows);
      rows != [] ==>
      && cells.Some? && |cells.value| == |rows|
      && forall k :: 0 <= k < |rows| ==>
          Mapped(Prepare(p, n, pick).1, rows[k]) && cells.value[k] == CellOf(Prepare(p, n, pick).1, rows[k])
  {
    hide Before, BlockOf, OffsetOf, BlocksFor, Partition, Prepare;
    var q := Prepare(p, n, pick).1;
    forall k | 0 <= k < |rows|
      ensures Mapped(q, rows[k]) && DraftCell(p, rows[k]) == Some(CellOf(q, rows[k]))
    {
      PlacedPinned(p, n, pick);
      PredictionIsExact(p, n, pick, rows[k]);
      WholeSlotsGiveCells(p, n, pick, rows[k]);
    }
  }

  // ----- Stored rows and rows to come in one batch -----

  /** A stored row is asked for where it is: it has a draft cell if and only if it has a cell, and that one. */
  lemma StoredRowDraft(p: Pool, r: nat)
    requires Shaped(p) && r < p.total
    ensures DraftCell(p, r).Some? <==> Mapped(p, r)
    ensures Mapped(p, r) ==> BlockOf(r, p.bt) < |p.own| && DraftCell(p, r).value == CellOf(p, r)
  {
    hide Before, BlockOf, OffsetOf, BlocksFor;
    RowInBlock(r, p.bt, p.total);
  }

  /** Row r is expected in the slot on top of the stack. */
  predicate Peeked(p: Pool, r: nat)
    requires p.bt > 0
  {
    r >= p.total && !(p.own != [] && Resident(p.own[|p.own| - 1]) && BlockOf(r, p.bt) == |p.own| - 1)
  }

  /** Where a row is asked for: the slot of its own block, or the top of the stack, at its own offset. */
  lemma SlotForIs(p: Pool, r: nat)
    requires Valid(p) && SlotFor(p, r).Some?
    ensures SlotFor(p, r).value.1 == OffsetOf(r, p.bt)
    ensures Peeked(p, r) ==> p.free != [] && SlotFor(p, r).value.0 == p.free[|p.free| - 1]
    ensures !Peeked(p, r) ==>
              BlockOf(r, p.bt) < |p.own| && Resident(p.own[BlockOf(r, p.bt)]) &&
              SlotFor(p, r).value.0 == p.own[BlockOf(r, p.bt)].slot
  {
    hide Partition;
    RowSplit(r, p.bt);
    if r >= p.total && p.own != [] {
      var last := |p.own| - 1;
      if Before(last, p.bt) <= r < Before(last, p.bt) + p.bt {
        RowUnique(last, r - Before(last, p.bt), p.bt);
      }
    } else if r < p.total {
      RowInBlock(r, p.bt, p.total);
    }
  }

  lemma TopIsFree(p: Pool, i: nat)
    requires Valid(p) && p.free != [] && i < |p.own| && Resident(p.own[i])
    ensures p.free[|p.free| - 1] != p.own[i].slot
  {
    OwnedOnce(p.own, p.free, p.nSlots, i, i);
  }

  /** Two rows of a draft batch, stored or to come, collide if and only if both are expected on top of the
      stack, in different blocks at the same offset. */
  lemma DraftCollision(p: Pool, a: nat, b: nat)
    requires Valid(p) && a != b && DraftCell(p, a).Some? && DraftCell(p, b).Some?
    ensures DraftCell(p, a) == DraftCell(p, b) <==>
              Peeked(p, a) && Peeked(p, b) && OffsetOf(a, p.bt) == OffsetOf(b, p.bt)
  {
    hide Before, BlockOf, OffsetOf, BlocksFor, Partition, SlotFor;
    SlotForIs(p, a);
    SlotForIs(p, b);
    FreeInRange(p.own, p.free, p.nSlots);
    var x, y := SlotFor(p, a).value.0, SlotFor(p, b).value.0;
    RowSplit(a, p.bt);
    RowSplit(b, p.bt);
    if DraftCell(p, a) == DraftCell(p, b) {
      CellInjective(x, OffsetOf(a, p.bt), y, OffsetOf(b, p.bt), p.bt);
      if !Peeked(p, a) && !Peeked(p, b) {
        OwnedOnce(p.own, p.free, p.nSlots, BlockOf(a, p.bt), BlockOf(b, p.bt));
      } else if !Peeked(p, a) {
        TopIsFree(p, BlockOf(a, p.bt));
      } else if !Peeked(p, b) {
        TopIsFree(p, BlockOf(b, p.bt));
      }
    }
  }

  /** So a batch, stored rows and rows to come together, goes to distinct cells as long as all its rows on
      top of the stack are of one block. */
  lemma FillDraftDistinct(p: Pool, rows: seq<nat>, block: nat)
    requires Valid(p) && FillDraft(p, rows).Some?
    requires forall k :: 0 <= k < |rows| && Peeked(p, rows[k]) ==> BlockOf(rows[k], p.bt) == block
    ensures var cells := FillDraft(p, rows).value;
      && |cells| == |rows| && (forall k :: 0 <= k < |cells| ==> 0 <= cells[k] < p.kvSize)
      && (forall j, k :: 0 <= j < |rows| && 0 <= k < |rows| && cells[j] == cells[k] ==> rows[j] == rows[k])
  {
    hide Before, BlockOf, OffsetOf, BlocksFor, Partition, DraftCell;
    var cells := FillDraft(p, rows).value;
    forall k | 0 <= k < |rows| ensures DraftCell(p, rows[k]) == Some(cells[k]) && 0 <= cells[k] < p.kvSize {
      assert DraftCell(p, rows[k]).Some?;
      CellInside(p, rows[k]);
    }
    forall j, k | 0 <= j < |rows| && 0 <= k < |rows| && cells[j] == cells[k] ensures rows[j] == rows[k] {
      if rows[j] != rows[k] {
        DraftCollision(p, rows[j], rows[k]);
        RowSplit(rows[j], p.bt);
        RowSplit(rows[k], p.bt);
      }
    }
  }

  lemma CellInside(p: Pool, r: nat)
    requires Valid(p) && DraftCell(p, r).Some?
    ensures 0 <= DraftCell(p, r).value < p.kvSize
  {
    hide BlockOf, OffsetOf, BlocksFor, Partition, SlotFor;
    SlotForIs(p, r);
    FreeInRange(p.own, p.free, p.nSlots);
    BeforeMono(0, SlotFor(p, r).value.0, p.bt);
  }

  /** A batch of stored rows goes exactly where the target has them. */
  lemma FillDraftStored(p: Pool, rows: seq<nat>)
    requires Valid(p) && forall k :: 0 <= k < |rows| ==> rows[k] < p.total
    ensures FillDraft(p, rows).Some? <==> rows != [] && forall k :: 0 <= k < |rows| ==> Mapped(p, rows[k])
    ensures FillDraft(p, rows).Some? ==> |FillDraft(p, rows).value| == |rows|
    ensures FillDraft(p, rows).Some? ==> forall k :: 0 <= k < |rows| ==>
              BlockOf(rows[k], p.bt) < |p.own| && FillDraft(p, rows).value[k] == CellOf(p, rows[k])
  {
    hide Before, BlockOf, OffsetOf, BlocksFor, Partition, DraftCell, Mapped;
    forall k | 0 <= k < |rows|
      ensures DraftCell(p, rows[k]).Some? <==> Mapped(p, rows[k])
      ensures Mapped(p, rows[k]) ==>
                BlockOf(rows[k], p.bt) < |p.own| && DraftCell(p, rows[k]).value == CellOf(p, rows[k])
    {
      StoredRowDraft(p, rows[k]);
    }
  }
}
