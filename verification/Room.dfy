/** Exactly when there is room: what decides whether a batch can be prepared, a continuation admitted, and
    a selection continued from. */
module Room {
  import opened Arith
  import opened SlotTable
  import opened SlotPool
  import opened Runs
  import opened Views
  import opened Admission
  import opened Selecting

  // ----- Preparing a batch -----

  /** Whether a pressure plan is due: the rows on the GPU and n more would pass the cache or its high
      watermark, and the window is neither pinned nor kept. */
  predicate PlanDue(p: Pool, n: nat)
    requires Shaped(p)
  {
    var after := ResidentRows(Append(p, n), |Append(p, n).own|) + n;
    !(p.pinned || p.keep) && p.kvSize > 0 && (after > p.kvSize || after > p.highWater)
  }

  /** Placing blocks from the stack covers the tail if and only if the stack has enough slots. */
  lemma PlacedIff(a: Pool, t0: nat)
    requires Valid(a) && BlockOf(t0, a.bt) <= |a.own|
    ensures var (own', free') := Assign(a.own, a.free, Touched(a, t0), 0);
      TailPlaced(a.(own := own', free := free'), t0) <==> Needed(a.own, BlockOf(t0, a.bt), |a.own|) <= |a.free|
  {
    var want, lo := Touched(a, t0), BlockOf(t0, a.bt);
    var own' := Assign(a.own, a.free, want, 0).0;
    FreeInRange(a.own, a.free, a.nSlots);
    AssignLeaves(a.own, a.free, want, 0);
    NothingLacking(own', want, 0);
    NeededLacking(a.own, want, lo, lo);
    LackingBelow(a.own, want, lo, 0);
    assert forall j :: lo <= j < |own'| ==> j in want;
  }

  lemma PlanPlacesIff(a: Pool, t0: nat, pick: set<nat>)
    requires Valid(a) && SetPlaced(a.own) && |Known(a.own, pick)| <= a.nSlots
    ensures |ApplyPlan(a, pick).own| == |a.own|
    ensures TailPlaced(ApplyPlan(a, pick), t0) <==> forall i :: BlockOf(t0, a.bt) <= i < |a.own| ==> i in pick
  {
    hide Before, BlockOf, OffsetOf, BlocksFor;
    PlanIsExact(a, pick);
  }

  /** Preparing n rows succeeds if and only if there is nothing to do, or the plan that is due keeps every
      block to be written, or, without one, the stack covers the blocks that have no slot. */
  lemma PrepareIff(p: Pool, n: nat, pick: Option<set<nat>>)
    requires Valid(p) && SetPlaced(p.own) && (pick.Some? ==> |pick.value| <= p.nSlots)
    ensures var lo, hi := BlockOf(p.total, p.bt), BlocksFor(p.total + n, p.bt);
      Prepare(p, n, pick).0 <==>
        || n == 0 || p.replay
        || (if PlanDue(p, n) then pick.Some? && forall i :: lo <= i < hi ==> i in pick.value
            else Needed(p.own, lo, hi) <= |p.free|)
  {
    hide Before, BlockOf, OffsetOf, BlocksFor, Needed, ApplyPlan, Partition, TailPlaced;
    if n > 0 && !p.replay {
      var a := Append(p, n);
      AppendValid(p, n);
      BlockOfMono(p.total, a.total, p.bt);
      if PlanDue(p, n) {
        if pick.Some? {
          KnownSize(a.own, pick.value);
          PlanPlacesIff(a, p.total, pick.value);
        }
      } else {
        PlacedIff(a, p.total);
        NeededSame(p.own, a.own, BlockOf(p.total, p.bt), |a.own|);
      }
    }
  }

  /** In a pinned or kept window only the stack counts. */
  lemma PinnedPrepareIff(p: Pool, n: nat, pick: Option<set<nat>>)
    requires Valid(p) && (p.pinned || p.keep) && !p.replay && n > 0
    ensures Prepare(p, n, pick).0 <==> Needed(p.own, BlockOf(p.total, p.bt), BlocksFor(p.total + n, p.bt)) <= |p.free|
  {
    hide Before, BlockOf, OffsetOf, BlocksFor, Needed, ApplyPlan, Partition, TailPlaced;
    var a := Append(p, n);
    AppendValid(p, n);
    BlockOfMono(p.total, a.total, p.bt);
    PlacedIff(a, p.total);
    NeededSame(p.own, a.own, BlockOf(p.total, p.bt), |a.own|);
  }

  // ----- Rows that come back -----

  /** Placing popped blocks again, from block j on. */
  lemma {:induction false} PlacedBack(orig: seq<Info>, own: seq<Info>, free: seq<int>, want: set<nat>, j: nat)
    requires j <= |orig| == |own| && (forall s :: 0 <= s < |free| ==> free[s] >= 0)
    requires forall i: nat :: i < |own| ==> (i < j ==> own[i].slot == orig[i].slot) && (i >= j ==> own[i] == NEW_BLOCK)
    requires forall i: nat :: j <= i < |orig| ==> Resident(orig[i]) && i in want
    ensures var (own', free') := Assign(own, free + Popped(orig, j), want, j);
      free' == free && forall i :: 0 <= i < |orig| ==> own'[i].slot == orig[i].slot
    decreases |orig| - j
  {
    if j < |orig| {
      PoppedLast(orig, j);
      var stack := free + Popped(orig, j);
      assert stack[|stack| - 1] == orig[j].slot && stack[..|stack| - 1] == free + Popped(orig, j + 1);
      PlacedBack(orig, own[j := own[j].(slot := orig[j].slot, onGpu := true)], free, want, j + 1);
    } else {
      assert Popped(orig, j) == [] && free + [] == free;
    }
  }

  /** Blocks that have slots already are passed over. */
  lemma {:induction false} PassedOver(own: seq<Info>, free: seq<int>, want: set<nat>, i: nat, j: nat)
    requires i <= j <= |own| && forall k :: i <= k < j && k in want ==> Resident(own[k])
    ensures Assign(own, free, want, i) == Assign(own, free, want, j)
    decreases j - i
  {
    if i < j {
      PassedOver(own, free, want, i + 1, j);
    }
  }

  /** Rows that are rolled back and appended again in a pinned window come back to the slots they had, and
      leave the stack as it was. */
  lemma RolledBackAndAgain(p: Pool, t: nat, pick: Option<set<nat>>)
    requires Valid(p) && (p.pinned || p.keep) && !p.replay && t < p.total && TailPlaced(p, t)
    ensures var (ok, q) := Prepare(Truncate(p, t), p.total - t, pick);
      ok && q.free == p.free && |q.own| == |p.own| && forall i :: 0 <= i < |p.own| ==> q.own[i].slot == p.own[i].slot
  {
    hide Before, OffsetOf, BlockOf, BlocksFor, Popped;
    var cut, n, keep := Truncate(p, t), p.total - t, BlocksFor(t, p.bt);
    BlocksForMono(t, p.total, p.bt);
    BlockOfMono(t, t, p.bt);
    var a := Append(cut, n);
    var want := Touched(a, t);
    FreeInRange(p.own, p.free, p.nSlots);
    PassedOver(a.own, a.free, want, 0, keep);
    PlacedBack(p.own, a.own, p.free, want, keep);
  }

  // ----- can_append -----

  lemma {:induction false} NeededBeyond(own: seq<Info>, lo: nat, hi: nat)
    requires lo <= |own|
    ensures Needed(own, lo, hi) >= hi - |own|
  {
    if hi > lo {
      NeededBeyond(own, lo, hi - 1);
    }
  }

  lemma {:induction false} AllRows(p: Pool, k: nat)
    requires Valid(p) && k <= |p.own| && forall i :: 0 <= i < |p.own| ==> Resident(p.own[i])
    ensures ResidentRows(p, k) == if Before(k, p.bt) < p.total then Before(k, p.bt) else p.total
  {
    if k > 0 {
      AllRows(p, k - 1);
      BeforeMono(0, k - 1, p.bt);
      BlocksForCovers(p.total, p.bt, k - 1);
    }
  }

  /** The slot test of can_append fails if and only if the rows could not be prepared in a pinned window. */
  lemma SlotTestIff(p: Pool, bound: nat)
    requires Valid(p) && bound >= p.total
    requires OffsetOf(p.total, p.bt) != 0 ==>
               BlockOf(p.total, p.bt) < |p.own| && Resident(p.own[BlockOf(p.total, p.bt)])
    ensures var final := BlocksFor(bound, p.bt);
      final > p.nSlots + |p.own| || Needed(p.own, BlockOf(p.total, p.bt), final) > |p.free| <==>
      !Prepare(p.(pinned := true, replay := false), bound - p.total, None).0
  {
    hide Before, OffsetOf, Prepare, Partition;
    var q, final, lo := p.(pinned := true, replay := false), BlocksFor(bound, p.bt), BlockOf(p.total, p.bt);
    BlockOfMono(p.total, p.total, p.bt);
    NeededBeyond(p.own, lo, final);
    PartitionCount(p.own, p.free, p.nSlots);
    if bound > p.total {
      PinnedPrepareIff(q, bound - p.total, None);
    } else {
      NothingToPlace(p);
      assert Prepare(q, 0, None).0 by {
        NothingPrepared(q);
      }
    }
  }

  lemma NothingPrepared(q: Pool)
    requires Shaped(q)
    ensures Prepare(q, 0, None).0
  {
  }

  /** With no rows to come, nothing has to be placed. */
  lemma NothingToPlace(p: Pool)
    requires Valid(p)
    requires OffsetOf(p.total, p.bt) != 0 ==>
               BlockOf(p.total, p.bt) < |p.own| && Resident(p.own[BlockOf(p.total, p.bt)])
    ensures Needed(p.own, BlockOf(p.total, p.bt), BlocksFor(p.total, p.bt)) == 0
  {
    var lo := BlockOf(p.total, p.bt);
    RowSplit(p.total, p.bt);
    BlocksForCovers(p.total, p.bt, lo);
    BlocksForCovers(p.total, p.bt, lo + 1);
    NeededNone(p.own, lo, BlocksFor(p.total, p.bt));
  }

  /** All blocks are listed if and only if all are resident, and then all rows are. */
  lemma AllListed(p: Pool)
    requires Valid(p)
    ensures |Items(p.own)| == |p.own| <==> forall i :: 0 <= i < |p.own| ==> Resident(p.own[i])
    ensures |Items(p.own)| == |p.own| ==> ResidentRows(p, |p.own|) == p.total
  {
    if |Items(p.own)| == |p.own| {
      AllItems(p.own);
    }
    if forall i :: 0 <= i < |p.own| ==> Resident(p.own[i]) {
      AllResident(p.own);
      AllRows(p, |p.own|);
      BlocksForCovers(p.total, p.bt, |p.own|);
    }
  }

  /** can_append gives the first reason that applies: the boundary lies below the rows, the cache is not exact
      (or not in order), a partial tail has no slot, some history has none, the budget, the cache or its
      watermark is exceeded, or slots would not be found for all the rows at once in a pinned window. */
  lemma RefusalIs(p: Pool, budgetBlocks: nat, end: nat, gen: nat, allHistory: bool)
    requires Valid(p)
    ensures CanAppend(p, budgetBlocks, end, gen, allHistory) ==
      if end < p.total then Some(InvalidBoundary)
      else if !Exact(p) || (allHistory && !SlotsInOrder(p.own)) then Some(CoverageOrLayout)
      else if OffsetOf(p.total, p.bt) != 0 &&
          !(BlockOf(p.total, p.bt) < |p.own| && Resident(p.own[BlockOf(p.total, p.bt)]))
        then Some(PartialTailMissing)
      else if allHistory && exists i :: 0 <= i < |p.own| && !Resident(p.own[i]) then Some(HistoryNotResident)
      else if allHistory && 0 < budgetBlocks < BlocksFor(end, p.bt) then Some(SelectionBudget)
      else if allHistory && end > p.total && p.kvSize > 0 && (end > p.kvSize || end > p.highWater)
        then Some(PrefillPressure)
      else if !Prepare(p.(pinned := true, replay := false), end + gen - p.total, None).0 then Some(InsufficientSlots)
      else None
  {
    hide Before, OffsetOf, BlockOf, BlocksFor, Prepare, Partition, Needed, ResidentRows, AttentionView, Complete,
         Exact, SlotsInOrder;
    ViewValidIff(p, allHistory);
    ViewBlocks(p, allHistory);
    AllListed(p);
    if end >= p.total && Exact(p) {
      if BlockOf(p.total, p.bt) < |p.own| && Resident(p.own[BlockOf(p.total, p.bt)]) {
        ExactComplete(p, BlockOf(p.total, p.bt));
      }
      CompleteResident(p);
      if OffsetOf(p.total, p.bt) == 0 || (BlockOf(p.total, p.bt) < |p.own| && Resident(p.own[BlockOf(p.total, p.bt)])) {
        SlotTestIff(p, end + gen);
      }
    }
  }

  /** So it says yes if and only if none does. */
  lemma CanAppendIff(p: Pool, budgetBlocks: nat, end: nat, gen: nat, allHistory: bool)
    requires Valid(p)
    ensures CanAppend(p, budgetBlocks, end, gen, allHistory).None? <==>
      && end >= p.total && Exact(p)
      && (OffsetOf(p.total, p.bt) != 0 ==> BlockOf(p.total, p.bt) < |p.own| && Resident(p.own[BlockOf(p.total, p.bt)]))
      && (allHistory ==>
            && SlotsInOrder(p.own) && (forall i :: 0 <= i < |p.own| ==> Resident(p.own[i]))
            && (budgetBlocks > 0 ==> BlocksFor(end, p.bt) <= budgetBlocks)
            && (end > p.total && p.kvSize > 0 ==> end <= p.kvSize && end <= p.highWater))
      && Prepare(p.(pinned := true, replay := false), end + gen - p.total, None).0
  {
    hide Before, OffsetOf, BlockOf, BlocksFor, Prepare, Partition, Exact, SlotsInOrder, CanAppend;
    RefusalIs(p, budgetBlocks, end, gen, allHistory);
  }

  lemma ViewBlocks(p: Pool, canonical: bool)
    requires p.bt > 0
    ensures AttentionView(p, canonical).blocks == Items(p.own)
  {
  }

  lemma CompleteResident(p: Pool)
    requires p.bt > 0
    ensures forall i :: 0 <= i < |p.own| && Complete(p, i) ==> Resident(p.own[i])
  {
  }

  // ----- selection_fits -----

  /** A selection fits if and only if it is current, within the pool, holds every mandatory block, and
      after applying it the blocks still to be placed do not outnumber the free slots. */
  lemma SelectionFitsIff(p: Pool, sel: Selection, end: nat, gen: nat, ranges: seq<Range>, forcePos: int)
    requires Valid(p) && SetPlaced(p.own) && WellFormed(p, sel)
    ensures Valid(Select(p, sel))
    ensures SelectionFits(p, sel, end, gen, ranges, forcePos) <==>
      && sel.epoch == p.epoch && sel.rows == p.total && end >= p.total && |sel.blocks| <= p.nSlots
      && (forall i :: i in Mandatory(p, ranges, forcePos) ==> i in sel.blocks)
      && Needed(Select(p, sel).own, BlockOf(p.total, p.bt), BlocksFor(end + gen, p.bt)) <= |Select(p, sel).free|
  {
    hide Before, OffsetOf, Mandatory, Select, Partition;
    var lo, hi := BlockOf(p.total, p.bt), BlocksFor(end + gen, p.bt);
    SelectValid(p, sel);
    if sel.epoch == p.epoch && sel.rows == p.total && end >= p.total && |sel.blocks| <= p.nSlots {
      var q := Select(p, sel);
      SelectIsExact(p, sel);
      ResidentsAre(q.own);
      SelectSlots(p, sel);
      PartitionCount(q.own, q.free, q.nSlots);
      NeededIsOutside(q.own, sel.blocks, lo, hi);
      BlockOfMono(p.total, p.total, p.bt);
      BlocksForMono(p.total, end + gen, p.bt);
      Spread(sel.blocks, lo, hi);
    }
  }

  lemma SelectSlots(p: Pool, sel: Selection)
    requires Valid(p)
    ensures Select(p, sel).nSlots == p.nSlots
  {
    hide ApplyPlan;
    PlanFrame(p, Ids(sel.blocks));
  }

  lemma PlanFrame(p: Pool, ids: set<nat>)
    requires Shaped(p)
    ensures ApplyPlan(p, ids).nSlots == p.nSlots
  {
  }

  lemma {:induction false} OutsideCounts(ids: set<nat>, blocks: seq<nat>, lo: nat, hi: nat) returns (out: set<nat>)
    requires forall i :: i in ids <==> i in blocks
    ensures out !! ids && |out| == Outside(blocks, lo, hi) && forall i: nat :: i in out <==> lo <= i < hi && i !in ids
  {
    if hi <= lo {
      out := {};
    } else {
      out := OutsideCounts(ids, blocks, lo, hi - 1);
      if hi - 1 !in blocks {
        out := out + {hi - 1};
      }
    }
  }

  /** The selected blocks and those outside it are at least the blocks of the range. */
  lemma Spread(blocks: seq<nat>, lo: nat, hi: nat)
    requires Ascending(blocks) && lo <= hi
    ensures |blocks| + Outside(blocks, lo, hi) >= hi - lo
  {
    var ids := Ids(blocks);
    AscendingSize(blocks);
    var out := OutsideCounts(ids, blocks, lo, hi);
    var range := Interval(lo, hi);
    assert |ids + out| == |ids| + |out|;
    assert ids + out == range + (ids + out - range);
  }

  ghost function Interval(lo: nat, hi: nat): (s: set<nat>)
    requires lo <= hi
    ensures |s| == hi - lo && forall i: nat :: i in s <==> lo <= i < hi
  {
    if lo == hi then {} else Interval(lo, hi - 1) + {hi - 1}
  }

  /** A block is mandatory if and only if it holds a stored row that is forced or lies in a range. */
  lemma MandatoryIff(p: Pool, ranges: seq<Range>, forcePos: int, i: nat)
    requires Valid(p) && forall k :: 0 <= k < |ranges| ==> ranges[k].begin < ranges[k].end
    ensures i in Mandatory(p, ranges, forcePos) <==>
      exists r: nat :: r < p.total && BlockOf(r, p.bt) == i && (r == forcePos || Wanted(ranges, r))
  {
    if i < |p.own| && Overlaps(p, i, ranges) {
      var k :| 0 <= k < |ranges| && Before(i, p.bt) + Len(p, i) > ranges[k].begin && Before(i, p.bt) < ranges[k].end;
      LenPositive(p, i);
      BeforeMono(0, i, p.bt);
      var r := if ranges[k].begin > Before(i, p.bt) then ranges[k].begin else Before(i, p.bt);
      RowUnique(i, r - Before(i, p.bt), p.bt);
      assert InRange(ranges[k], r);
    }
    forall r: nat | r < p.total && BlockOf(r, p.bt) == i && Wanted(ranges, r)
      ensures i < |p.own| && Overlaps(p, i, ranges)
    {
      RowInBlock(r, p.bt, p.total);
      var k :| 0 <= k < |ranges| && InRange(ranges[k], r);
    }
    if 0 <= forcePos < p.total {
      assert BlockOf(forcePos, p.bt) == i ==> i in Mandatory(p, ranges, forcePos);
    }
  }

  predicate InRange(range: Range, r: nat) {
    range.begin <= r < range.end
  }

  predicate Wanted(ranges: seq<Range>, r: nat) {
    exists k :: 0 <= k < |ranges| && InRange(ranges[k], r)
  }
}
