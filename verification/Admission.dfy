/** Admission: whether a continuation may be appended, and why it then never runs out of slots. */
module Admission {
  import opened Arith
  import opened SlotTable
  import opened SlotPool
  import opened Runs
  import opened Views

  datatype Refusal =
    | InvalidBoundary | CoverageOrLayout | PartialTailMissing | HistoryNotResident
    | SelectionBudget | PrefillPressure | InsufficientSlots

  /** Blocks in [lo, hi) that do not exist yet or have no slot. */
  function Needed(own: seq<Info>, lo: nat, hi: nat): nat {
    if hi <= lo then 0 else
      Needed(own, lo, hi - 1) + if hi - 1 < |own| && Resident(own[hi - 1]) then 0 else 1
  }

  /** can_append: the first check that fails, or None when rows up to `end` plus `gen` generated rows
      may be appended. */
  function CanAppend(p: Pool, budgetBlocks: nat, end: nat, gen: nat, allHistory: bool): Option<Refusal>
    requires p.bt > 0
  {
    if end < p.total then Some(InvalidBoundary) else
      var view := AttentionView(p, allHistory);
      if !view.valid then Some(CoverageOrLayout)
      else if OffsetOf(p.total, p.bt) != 0 &&
          !(BlockOf(p.total, p.bt) < |p.own| && Complete(p, BlockOf(p.total, p.bt))) then Some(PartialTailMissing)
      else if allHistory && |view.blocks| != |p.own| then Some(HistoryNotResident)
      else if allHistory && budgetBlocks > 0 && BlocksFor(end, p.bt) > budgetBlocks then Some(SelectionBudget)
      else if allHistory && NeedsOffload(p, ResidentRows(p, |p.own|), end - p.total) then Some(PrefillPressure)
      else
        var final := BlocksFor(end + gen, p.bt);
        if final > p.nSlots + |p.own| || Needed(p.own, BlockOf(p.total, p.bt), final) > |p.free|
        then Some(InsufficientSlots) else None
  }

  // ----- Slots stay sufficient -----

  /** The promise: every block in [lo, hi) that is missing or has no slot can still be given one.
      All blocks lie below hi, and the block of the next row does not lie below lo. */
  ghost predicate Admits(p: Pool, lo: nat, hi: nat) {
    && Valid(p) && (p.pinned || p.keep)
    && lo <= BlockOf(p.total, p.bt) && |p.own| <= hi
    && Needed(p.own, lo, hi) <= |p.free|
  }

  lemma {:induction false} NeededSplit(own: seq<Info>, lo: nat, mid: nat, hi: nat)
    requires lo <= mid <= hi
    ensures Needed(own, lo, hi) == Needed(own, lo, mid) + Needed(own, mid, hi)
  {
    if mid < hi {
      NeededSplit(own, lo, mid, hi - 1);
    }
  }

  /** Only the residents in the range matter. */
  lemma {:induction false} NeededSame(own: seq<Info>, own': seq<Info>, lo: nat, hi: nat)
    requires forall i :: lo <= i < hi ==>
      ((i < |own| && Resident(own[i])) <==> (i < |own'| && Resident(own'[i])))
    ensures Needed(own, lo, hi) == Needed(own', lo, hi)
  {
    if lo < hi {
      NeededSame(own, own', lo, hi - 1);
    }
  }

  /** Over existing blocks, what is needed is what placement lacks. */
  lemma {:induction false} NeededLacking(own: seq<Info>, want: set<nat>, lo: nat, k: nat)
    requires lo <= k <= |own| && forall i: nat :: i < |own| ==> (i in want <==> i >= lo)
    ensures Needed(own, lo, |own|) == Needed(own, lo, k) + Lacking(own, want, k)
    decreases |own| - k
  {
    if k < |own| {
      NeededLacking(own, want, lo, k + 1);
    }
  }

  lemma {:induction false} LackingBelow(own: seq<Info>, want: set<nat>, lo: nat, k: nat)
    requires k <= lo <= |own| && forall i: nat :: i < lo ==> i !in want
    ensures Lacking(own, want, k) == Lacking(own, want, lo)
    decreases lo - k
  {
    if k < lo {
      LackingBelow(own, want, lo, k + 1);
    }
  }

  /** Popping blocks frees exactly the slots their absence makes necessary. */
  lemma {:induction false} NeededPopped(own: seq<Info>, keep: nat, lo: nat, hi: nat)
    requires lo <= keep <= |own| <= hi
    ensures Needed(own[..keep], lo, hi) == Needed(own, lo, hi) + |Popped(own, keep)|
  {
    if |own| == keep {
      assert own[..keep] == own;
    } else {
      var n := |own| - 1;
      NeededPopped(own[..n], keep, lo, hi);
      assert own[..n][..keep] == own[..keep];
      NeededSplit(own, lo, n, hi);
      NeededSplit(own, n, n + 1, hi);
      NeededSplit(own[..n], lo, n, hi);
      NeededSplit(own[..n], n, n + 1, hi);
      NeededSame(own, own[..n], lo, n);
      NeededSame(own, own[..n], n + 1, hi);
    }
  }

  /** Truncation to a row of block lo or later keeps the promise. */
  lemma TruncateAdmits(p: Pool, t: nat, lo: nat, hi: nat)
    requires Admits(p, lo, hi) && lo <= BlockOf(t, p.bt)
    ensures Admits(Truncate(p, t), lo, hi)
  {
    TruncateValid(p, t);
    if t < p.total {
      BlocksForMono(t, p.total, p.bt);
      BlockOfMono(t, t, p.bt);
      NeededPopped(p.own, BlocksFor(t, p.bt), lo, hi);
    }
  }

  /** Placing the touched blocks succeeds and uses up exactly the need it covers. */
  lemma PlacedAdmits(a: Pool, t0: nat, n: nat, pick: Option<set<nat>>, lo: nat, hi: nat)
    requires Valid(a) && (a.pinned || a.keep)
    requires lo <= BlockOf(t0, a.bt) <= |a.own| <= hi && Needed(a.own, lo, hi) <= |a.free|
    ensures var r := Placed(a, t0, n, pick);
      && r.Some? && TailPlaced(r.value, t0)
      && r.value == a.(own := r.value.own, free := r.value.free)
      && Needed(r.value.own, lo, hi) <= |r.value.free|
  {
    var want, mid := Touched(a, t0), BlockOf(t0, a.bt);
    NeededSplit(a.own, lo, mid, hi);
    NeededSplit(a.own, mid, |a.own|, hi);
    NeededLacking(a.own, want, mid, mid);
    LackingBelow(a.own, want, mid, 0);
    FreeInRange(a.own, a.free, a.nSlots);
    AssignPlacesAll(a.own, a.free, want, 0);
    AssignExtends(a.own, a.free, want, 0);
    AssignedNeeds(a, want, lo, mid, hi);
  }

  /** The main step: while the promise holds and no block past hi is asked for, preparing any batch
      succeeds, and the promise still holds afterwards. */
  lemma PrepareAdmits(p: Pool, n: nat, pick: Option<set<nat>>, lo: nat, hi: nat)
    requires Admits(p, lo, hi) && (p.replay || BlocksFor(p.total + n, p.bt) <= hi)
    ensures Prepare(p, n, pick).0
    ensures Admits(Prepare(p, n, pick).1, lo, hi)
  {
    PrepareValid(p, n, pick);
    if n > 0 && !p.replay {
      var a := Append(p, n);
      AppendValid(p, n);
      BlockOfMono(p.total, a.total, p.bt);
      NeededSame(p.own, a.own, lo, hi);
      PlacedAdmits(a, p.total, n, pick, lo, hi);
    }
  }

  /** Placement of [lo, |own|) lowers the need of [start, hi) by what it used. */
  lemma AssignedNeeds(a: Pool, want: set<nat>, first: nat, lo: nat, hi: nat)
    requires first <= lo <= |a.own| <= hi && forall i: nat :: i < |a.own| ==> (i in want <==> i >= lo)
    requires var own' := Assign(a.own, a.free, want, 0).0;
      Extends(a.own, own', want, 0) && forall j :: 0 <= j < |a.own| && j in want ==> Resident(own'[j])
    ensures Needed(Assign(a.own, a.free, want, 0).0, first, hi) + Lacking(a.own, want, lo) == Needed(a.own, first, hi)
  {
    var own' := Assign(a.own, a.free, want, 0).0;
    NeededSplit(own', first, lo, hi);
    NeededSplit(own', lo, |own'|, hi);
    NeededSplit(a.own, first, lo, hi);
    NeededSplit(a.own, lo, |a.own|, hi);
    NeededSame(a.own, own', first, lo);
    NeededSame(a.own, own', |a.own|, hi);
    NeededNone(own', lo, |own'|);
    NeededLacking(a.own, want, lo, lo);
  }

  lemma {:induction false} NeededNone(own: seq<Info>, lo: nat, hi: nat)
    requires hi <= |own| && forall i :: lo <= i < hi ==> Resident(own[i])
    ensures Needed(own, lo, hi) == 0
  {
    if lo < hi {
      NeededNone(own, lo, hi - 1);
    }
  }

  /** Events of a continuation: appends within the bound, truncations no further back than the
      start, and whatever does not release or re-place blocks. */
  ghost predicate Continues(q: Pool, e: Event, start: nat, bound: nat) {
    match e
    case Batch(batch, _) => q.replay || q.total + |batch| <= bound
    case TruncateCached(t) => start <= t
    case RemoveRows(_, _) => true
    case SetReplay(_, _) => true
    case HarvestFull => true
    case CommitResident => true
    case Pin => true
    case KeepSelected => true
    case _ => false
  }

  ghost predicate Continuation(p: Pool, es: seq<Event>, start: nat, bound: nat)
    requires Valid(p)
  {
    es == [] ||
    (Continuation(p, es[..|es| - 1], start, bound) && Continues(Run(p, es[..|es| - 1]), es[|es| - 1], start, bound))
  }

  lemma SameNeeds(p: Pool, q: Pool, lo: nat, hi: nat)
    requires Admits(p, lo, hi) && Valid(q)
    requires q.bt == p.bt && q.own == p.own && q.free == p.free && q.total == p.total && (q.pinned || q.keep)
    ensures Admits(q, lo, hi)
  {
  }

  lemma StoreAdmits(p: Pool, batch: seq<Row>, lo: nat, hi: nat)
    requires Admits(p, lo, hi)
    ensures Admits(Store(p, batch), lo, hi)
  {
    StoreValid(p, batch);
    SameNeeds(p, Store(p, batch), lo, hi);
  }

  lemma BatchAdmits(p: Pool, batch: seq<Row>, pick: Option<set<nat>>, lo: nat, hi: nat)
    requires Admits(p, lo, hi) && (p.replay || BlocksFor(p.total + |batch|, p.bt) <= hi)
    ensures Prepare(Noted(p, batch), |batch|, pick).0
    ensures Admits(Decode(p, batch, pick), lo, hi)
  {
    hide Before, BlockOf, OffsetOf, BlocksFor, Prepare, Store, Needed, Partition;
    var n := Noted(p, batch);
    SameNeeds(p, n, lo, hi);
    PrepareAdmits(n, |batch|, pick, lo, hi);
    StoreAdmits(Prepare(n, |batch|, pick).1, batch, lo, hi);
  }

  lemma CutAdmits(p: Pool, t: nat, lo: nat, hi: nat)
    requires Admits(p, lo, hi) && lo <= BlockOf(t, p.bt)
    ensures Admits(Cut(p, t), lo, hi)
  {
    TruncateAdmits(p, t, lo, hi);
    CutValid(p, t);
    SameNeeds(Truncate(p, t), Cut(p, t), lo, hi);
  }

  lemma StepAdmits(p: Pool, e: Event, start: nat, bound: nat)
    requires p.bt > 0 && Admits(p, BlockOf(start, p.bt), BlocksFor(bound, p.bt)) && Continues(p, e, start, bound)
    ensures Admits(Step(p, e), BlockOf(start, p.bt), BlocksFor(bound, p.bt))
  {
    hide Before, BlockOf, OffsetOf, BlocksFor;
    var q, lo, hi := Step(p, e), BlockOf(start, p.bt), BlocksFor(bound, p.bt);
    StepValid(p, e);
    match e
    case Batch(batch, pick) =>
      if !p.replay {
        BlocksForMono(p.total + |batch|, bound, p.bt);
      }
      BatchAdmits(p, batch, pick, lo, hi);
    case TruncateCached(t) =>
      BlockOfMono(start, t, p.bt);
      CutAdmits(p, t, lo, hi);
    case CommitResident => NeededSame(p.own, q.own, lo, hi);
    case _ => SameNeeds(p, q, lo, hi);
  }

  lemma {:induction false} RunAdmits(p: Pool, es: seq<Event>, start: nat, bound: nat)
    requires p.bt > 0 && Admits(p, BlockOf(start, p.bt), BlocksFor(bound, p.bt)) && Continuation(p, es, start, bound)
    ensures Run(p, es).bt == p.bt && Admits(Run(p, es), BlockOf(start, p.bt), BlocksFor(bound, p.bt))
  {
    if es != [] {
      var q, e := Run(p, es[..|es| - 1]), es[|es| - 1];
      RunAdmits(p, es[..|es| - 1], start, bound);
      StepAdmits(q, e, start, bound);
      StepBlockSize(q, e);
    }
  }

  lemma StepBlockSize(p: Pool, e: Event)
    requires Valid(p)
    ensures Step(p, e).bt == p.bt
  {
    hide Before, BlockOf, OffsetOf, BlocksFor;
  }

  lemma CanAppendAdmits(p: Pool, budgetBlocks: nat, end: nat, gen: nat, allHistory: bool)
    requires Valid(p) && (p.pinned || p.keep) && CanAppend(p, budgetBlocks, end, gen, allHistory).None?
    ensures Admits(p, BlockOf(p.total, p.bt), BlocksFor(end + gen, p.bt))
  {
    BlocksForMono(p.total, end + gen, p.bt);
  }

  /** Making room succeeds for any batch that stays within the bound, whatever the pressure
      selector would pick. */
  ghost predicate HasRoom(q: Pool, bound: nat)
    requires Valid(q)
  {
    forall batch, pick :: q.replay || q.total + |batch| <= bound ==> Prepare(Noted(q, batch), |batch|, pick).0
  }

  lemma AdmitsHasRoom(q: Pool, lo: nat, bound: nat)
    requires q.bt > 0 && Admits(q, lo, BlocksFor(bound, q.bt))
    ensures HasRoom(q, bound)
  {
    forall batch, pick | q.replay || q.total + |batch| <= bound
      ensures Prepare(Noted(q, batch), |batch|, pick).0
    {
      if !q.replay {
        BlocksForMono(q.total + |batch|, bound, q.bt);
      }
      BatchAdmits(q, batch, pick, lo, BlocksFor(bound, q.bt));
    }
  }

  /** Admission is sound: once can_append accepts `end` plus `gen` rows and the window is kept or
      pinned, making room for a batch never fails for lack of a slot, however the rows are split
      into batches and however often they are rolled back, while they stay within `end + gen`. */
  lemma AdmissionIsSound(p: Pool, budgetBlocks: nat, end: nat, gen: nat, allHistory: bool, es: seq<Event>)
    requires Valid(p) && (p.pinned || p.keep) && CanAppend(p, budgetBlocks, end, gen, allHistory).None?
    requires Continuation(p, es, p.total, end + gen)
    ensures HasRoom(Run(p, es), end + gen)
  {
    hide Before, BlockOf, OffsetOf, BlocksFor;
    CanAppendAdmits(p, budgetBlocks, end, gen, allHistory);
    RunAdmits(p, es, p.total, end + gen);
    AdmitsHasRoom(Run(p, es), BlockOf(p.total, p.bt), end + gen);
  }

  // ----- Slots are not cells: the last slot may be cut off by the end of the cache -----

  /** When the cache ends on a slot boundary, rows that found room also have cells. */
  lemma WholeSlotsGiveCells(p: Pool, n: nat, pick: Option<set<nat>>, r: nat)
    requires Valid(p) && !p.replay && p.kvSize == Before(p.nSlots, p.bt)
    requires Prepare(p, n, pick).0 && p.total <= r < p.total + n
    ensures Mapped(Prepare(p, n, pick).1, r)
  {
    var q := Prepare(p, n, pick).1;
    PrepareValid(p, n, pick);
    RowInBlock(r, p.bt, q.total);
    BlockOfMono(p.total, r, p.bt);
    var i := BlockOf(r, p.bt);
    assert TailPlaced(q, p.total) && Resident(q.own[i]);
    OwnedOnce(q.own, q.free, q.nSlots, i, i);
    BeforeMono(q.own[i].slot, q.nSlots, p.bt);
  }

  /** When it does not, an admitted continuation can lose rows: an empty pool admits as many
      generated rows as its slots would hold, every block gets a slot, and yet some row has no cell. */
  lemma PartialSlotLosesRows(bt: nat, nSlots: nat, kvSize: nat, highWater: nat, kv: seq<Bytes>, budgetBlocks: nat)
    requires bt > 0 && kvSize < Before(nSlots, bt) && |kv| == kvSize
    ensures var p, n := Fresh(bt, nSlots, kvSize, highWater, kv).(pinned := true, keep := true), Before(nSlots, bt);
      && CanAppend(p, budgetBlocks, 0, n, true).None?
      && Prepare(p, n, None).0
      && exists r :: 0 <= r < n && !Mapped(Prepare(p, n, None).1, r)
  {
    var p, n := Fresh(bt, nSlots, kvSize, highWater, kv).(pinned := true, keep := true), Before(nSlots, bt);
    BlocksForExact(nSlots, bt);
    NeededEmpty(nSlots);
    assert p.cells == seq(kvSize, _ => Empty);
    UsedEmpty(p.cells);
    assert Admits(p, 0, nSlots);
    PrepareAdmits(p, n, None, 0, nSlots);
    var q := Prepare(p, n, None).1;
    TopSlotOverflows(q);
  }

  lemma {:induction false} NeededEmpty(n: nat)
    ensures Needed([], 0, n) == n
  {
    if n > 0 {
      NeededEmpty(n - 1);
    }
  }

  lemma {:induction false} UsedEmpty(cells: seq<Cell>)
    requires forall c :: 0 <= c < |cells| ==> cells[c].Empty?
    ensures Used(cells) == 0
  {
    if cells != [] {
      UsedEmpty(cells[..|cells| - 1]);
    }
  }

  /** With every slot taken by a full block, the last row of the top slot lies past a short cache. */
  lemma TopSlotOverflows(q: Pool)
    requires Valid(q) && q.nSlots > 0 && q.kvSize < Before(q.nSlots, q.bt) && q.total == Before(q.nSlots, q.bt)
    requires forall i :: 0 <= i < |q.own| ==> Resident(q.own[i])
    ensures exists r :: 0 <= r < q.total && !Mapped(q, r)
  {
    BlocksForExact(q.nSlots, q.bt);
    AllResident(q.own);
    PartitionCount(q.own, q.free, q.nSlots);
    var top := q.nSlots - 1;
    assert q.free == [] && Owners(q.own, top) == 1;
    if forall i :: 0 <= i < |q.own| ==> q.own[i].slot != top {
      NobodyOwns(q.own, top);
    }
    var i :| 0 <= i < |q.own| && q.own[i].slot == top;
    var r := Before(i, q.bt) + (q.bt - 1);
    RowUnique(i, q.bt - 1, q.bt);
    BeforeMono(i + 1, q.nSlots, q.bt);
    BeforeShift(i, q.bt);
    BeforeShift(top, q.bt);
    assert !Mapped(q, r);
  }

  lemma {:induction false} AllResident(own: seq<Info>)
    requires forall i :: 0 <= i < |own| ==> Resident(own[i])
    ensures |Residents(own)| == |own|
  {
    if own != [] {
      AllResident(own[..|own| - 1]);
    }
  }
}
