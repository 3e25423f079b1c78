/** Selections: what a plan leaves resident, and why a selection that fits leaves room to continue. */
module Selecting {
  import opened Arith
  import opened SlotTable
  import opened SlotPool
  import opened Runs
  import opened Admission

  // ----- A plan within the pool places every selected block -----

  /** Blocks marked as the working set have a slot. */
  ghost predicate SetPlaced(own: seq<Info>) {
    forall i :: 0 <= i < |own| && own[i].inSet ==> Resident(own[i])
  }

  /** Selected blocks that exist. */
  function Known(own: seq<Info>, sel: set<nat>): set<nat> {
    set i | i in sel && i < |own|
  }

  ghost function CountIn(sel: set<nat>, k: nat): nat {
    if k == 0 then 0 else CountIn(sel, k - 1) + if k - 1 in sel then 1 else 0
  }

  lemma {:induction false} CountInSize(sel: set<nat>, k: nat)
    ensures CountIn(sel, k) == |set i | i in sel && i < k|
  {
    var below := set i | i in sel && i < k;
    if k == 0 {
      assert below == {};
    } else {
      CountInSize(sel, k - 1);
      assert below == (set i | i in sel && i < k - 1) + if k - 1 in sel then {k - 1} else {};
    }
  }

  ghost function LackingBefore(own: seq<Info>, want: set<nat>, k: nat): nat
    requires k <= |own|
  {
    if k == 0 then 0 else LackingBefore(own, want, k - 1) + if k - 1 in want && !Resident(own[k - 1]) then 1 else 0
  }

  lemma {:induction false} LackingSplit(own: seq<Info>, want: set<nat>, k: nat)
    requires k <= |own|
    ensures LackingBefore(own, want, k) + Lacking(own, want, k) == Lacking(own, want, 0)
  {
    if k > 0 {
      LackingSplit(own, want, k - 1);
    }
  }

  /** Residents and blocks still to be placed are all selected, so together they are at most that many. */
  lemma {:induction false} DemandBounded(own: seq<Info>, sel: set<nat>, want: set<nat>, k: nat)
    requires k <= |own| && want <= sel && forall i :: 0 <= i < k && Resident(own[i]) ==> i in sel
    ensures |Residents(own[..k])| + LackingBefore(own, want, k) <= CountIn(sel, k)
  {
    if k > 0 {
      DemandBounded(own, sel, want, k - 1);
      assert own[..k][..k - 1] == own[..k - 1];
    }
  }

  /** Freed and free slots together cover what a plan within the pool still has to place. */
  lemma PlanHasRoom(p: Pool, sel: set<nat>)
    requires Valid(p) && |Known(p.own, sel)| <= p.nSlots
    ensures Lacking(Marked(p.own, sel), Incoming(p, sel), 0) <= |p.free + Freed(p.own, sel)|
  {
    var marked, ins, known := Marked(p.own, sel), Incoming(p, sel), Known(p.own, sel);
    MarkedPartition(p.own, p.free, p.nSlots, sel);
    PartitionCount(marked, p.free + Freed(p.own, sel), p.nSlots);
    DemandBounded(marked, known, ins, |marked|);
    assert marked[..|marked|] == marked;
    LackingSplit(marked, ins, |marked|);
    CountInSize(known, |marked|);
    assert (set i | i in known && i < |marked|) == known;
  }

  /** A plan for at most as many blocks as there are slots makes exactly the selected blocks resident. */
  lemma PlanIsExact(p: Pool, sel: set<nat>)
    requires Valid(p) && SetPlaced(p.own) && |Known(p.own, sel)| <= p.nSlots
    ensures var q := ApplyPlan(p, sel);
      && SetPlaced(q.own)
      && (forall i :: 0 <= i < |q.own| ==> (Resident(q.own[i]) <==> i in sel))
  {
    var marked, ins, all := Marked(p.own, sel), Incoming(p, sel), p.free + Freed(p.own, sel);
    PlanHasRoom(p, sel);
    MarkedPartition(p.own, p.free, p.nSlots, sel);
    FreeInRange(marked, all, p.nSlots);
    AssignPlacesAll(marked, all, ins, 0);
    AssignExtends(marked, all, ins, 0);
  }

  // ----- The working-set marks stay placed over every run -----

  /** Selections are budget-bounded: no plan asks for more blocks than the pool has slots. */
  ghost predicate Bounded(q: Pool, e: Event) {
    match e
    case Batch(_, pick) => pick.Some? ==> |pick.value| <= q.nSlots
    case ApplySelection(sel) => |Ids(sel.blocks)| <= q.nSlots
    case _ => true
  }

  lemma KnownSize(own: seq<Info>, sel: set<nat>)
    ensures |Known(own, sel)| <= |sel|
  {
    assert sel == Known(own, sel) + (sel - Known(own, sel));
  }

  lemma PlacedSetPlaced(a: Pool, t0: nat, n: nat, pick: Option<set<nat>>)
    requires Valid(a) && SetPlaced(a.own) && (pick.Some? ==> |pick.value| <= a.nSlots)
    ensures var r := Placed(a, t0, n, pick); r.Some? ==> SetPlaced(r.value.own)
  {
    if pick.Some? {
      KnownSize(a.own, pick.value);
      PlanIsExact(a, pick.value);
    }
    FreeInRange(a.own, a.free, a.nSlots);
    AssignExtends(a.own, a.free, Touched(a, t0), 0);
  }

  lemma PrepareSetPlaced(p: Pool, n: nat, pick: Option<set<nat>>)
    requires Valid(p) && SetPlaced(p.own) && (pick.Some? ==> |pick.value| <= p.nSlots)
    ensures SetPlaced(Prepare(p, n, pick).1.own)
  {
    if n > 0 && !p.replay {
      AppendValid(p, n);
      PlacedSetPlaced(Append(p, n), p.total, n, pick);
    }
  }

  lemma SelectSetPlaced(p: Pool, sel: Selection)
    requires Valid(p) && SetPlaced(p.own) && |Ids(sel.blocks)| <= p.nSlots
    ensures SetPlaced(Select(p, sel).own)
  {
    hide Before, BlockOf, OffsetOf, BlocksFor, ApplyPlan, Layout, WriteCold;
    PlanValid(p, Ids(sel.blocks));
    KnownSize(p.own, Ids(sel.blocks));
    PlanIsExact(p, Ids(sel.blocks));
    LayoutSetPlaced(ApplyPlan(p, Ids(sel.blocks)).(pinned := true));
  }

  lemma LayoutSetPlaced(a: Pool)
    requires Shaped(a) && SetPlaced(a.own)
    ensures SetPlaced(Layout(a).own)
  {
  }

  lemma StepSetPlaced(p: Pool, e: Event)
    requires Valid(p) && SetPlaced(p.own) && Bounded(p, e)
    ensures SetPlaced(Step(p, e).own)
  {
    match e
    case Batch(batch, pick) => PrepareSetPlaced(Noted(p, batch), |batch|, pick);
    case ApplySelection(sel) => SelectSetPlaced(p, sel);
    case _ =>
  }

  // ----- Selections that fit -----

  /** A half-open range of rows. */
  datatype Range = Range(begin: int, end: int)

  predicate Overlaps(p: Pool, i: nat, ranges: seq<Range>) {
    exists k :: 0 <= k < |ranges| && Before(i, p.bt) + Len(p, i) > ranges[k].begin && Before(i, p.bt) < ranges[k].end
  }

  /** Blocks a selection must keep: those that hold rows of a mandatory range, and the forced one. */
  function Mandatory(p: Pool, ranges: seq<Range>, forcePos: int): set<nat>
    requires p.bt > 0
  {
    (set i: nat | i < |p.own| && Overlaps(p, i, ranges))
      + if 0 <= forcePos < p.total then {BlockOf(forcePos, p.bt)} else {}
  }

  /** Blocks in [lo, hi) outside the selection. */
  function Outside(blocks: seq<nat>, lo: nat, hi: nat): nat {
    if hi <= lo then 0 else Outside(blocks, lo, hi - 1) + if hi - 1 in blocks then 0 else 1
  }

  /** selection_fits: current, keeps what is mandatory, and leaves slots for the rows to come. */
  predicate SelectionFits(p: Pool, sel: Selection, end: nat, gen: nat, ranges: seq<Range>, forcePos: int)
    requires p.bt > 0
  {
    var first, final := BlockOf(p.total, p.bt), BlocksFor(end + gen, p.bt);
    && sel.epoch == p.epoch && sel.rows == p.total && end >= p.total
    && (forall i :: i in Mandatory(p, ranges, forcePos) ==> i in sel.blocks)
    && final >= first && final - first <= p.nSlots
    && |sel.blocks| + Outside(sel.blocks, first, final) <= p.nSlots
  }

  /** What the selector returns: existing block ids, ascending. */
  ghost predicate WellFormed(p: Pool, sel: Selection) {
    Ascending(sel.blocks) && forall k :: 0 <= k < |sel.blocks| ==> sel.blocks[k] < |p.own|
  }

  lemma {:induction false} AscendingSize(ids: seq<nat>)
    requires Ascending(ids)
    ensures |Ids(ids)| == |ids|
  {
    if ids == [] {
      assert Ids(ids) == {};
    } else {
      var n := |ids| - 1;
      AscendingSize(ids[..n]);
      assert Ids(ids) == Ids(ids[..n]) + {ids[n]};
    }
  }

  lemma {:induction false} AscendingUnique(a: seq<nat>, b: seq<nat>)
    requires Ascending(a) && Ascending(b) && forall i: nat :: i in a <==> i in b
    ensures a == b
  {
    assert |a| > 0 ==> a[0] in b;
    assert |b| > 0 ==> b[0] in a;
    if a != [] && b != [] {
      var m, n := |a| - 1, |b| - 1;
      assert a[m] in b && b[n] in a;
      assert a[m] == b[n];
      forall i: nat ensures i in a[..m] <==> i in b[..n] {
        assert i in a[..m] <==> i in a && i != a[m];
        assert i in b[..n] <==> i in b && i != b[n];
      }
      AscendingUnique(a[..m], b[..n]);
    }
  }

  /** After apply_selection the residents are exactly the selected blocks, in order. */
  lemma SelectIsExact(p: Pool, sel: Selection)
    requires Valid(p) && SetPlaced(p.own) && WellFormed(p, sel)
    requires sel.epoch == p.epoch && sel.rows == p.total && |sel.blocks| <= p.nSlots
    ensures var q := Select(p, sel); Residents(q.own) == sel.blocks && |q.own| == |p.own| && q.total == p.total
  {
    hide Before, BlockOf, OffsetOf, BlocksFor;
    var q := Select(p, sel);
    PlanValid(p, Ids(sel.blocks));
    AscendingSize(sel.blocks);
    KnownSize(p.own, Ids(sel.blocks));
    PlanIsExact(p, Ids(sel.blocks));
    ResidentsAre(q.own);
    forall i: nat ensures i in Residents(q.own) <==> i in sel.blocks {
      assert i in sel.blocks ==> i < |p.own|;
    }
    AscendingUnique(Residents(q.own), sel.blocks);
  }

  lemma {:induction false} NeededIsOutside(own: seq<Info>, blocks: seq<nat>, lo: nat, hi: nat)
    requires forall i: nat :: i in blocks <==> i < |own| && Resident(own[i])
    ensures Needed(own, lo, hi) == Outside(blocks, lo, hi)
  {
    if lo < hi {
      NeededIsOutside(own, blocks, lo, hi - 1);
    }
  }

  /** A selection that fits is safe to continue from: every mandatory block is selected, and after
      applying it the slot tests of can_append for the same rows cannot fail. */
  lemma FittingSelectionAdmits(p: Pool, sel: Selection, end: nat, gen: nat, ranges: seq<Range>, forcePos: int,
                               budgetBlocks: nat, allHistory: bool)
    requires Valid(p) && SetPlaced(p.own) && WellFormed(p, sel)
    requires SelectionFits(p, sel, end, gen, ranges, forcePos)
    ensures Mandatory(p, ranges, forcePos) <= Ids(sel.blocks)
    ensures Valid(Select(p, sel))
    ensures CanAppend(Select(p, sel), budgetBlocks, end, gen, allHistory) != Some(InsufficientSlots)
  {
    var q := Select(p, sel);
    SelectValid(p, sel);
    SelectIsExact(p, sel);
    ResidentsAre(q.own);
    PartitionCount(q.own, q.free, q.nSlots);
    NeededIsOutside(q.own, sel.blocks, BlockOf(p.total, p.bt), BlocksFor(end + gen, p.bt));
    BlockOfMono(p.total, p.total, p.bt);
  }
}
