/** Runs of the slot pool: every operation as one step, the slot partition as an invariant of all
    runs, and what the partition means for cells. */
module Runs {
  import opened Arith
  import opened SlotTable
  import opened SlotPool

  /** A previewed selection: the epoch and row count it was made for, and the chosen block ids. */
  datatype Selection = Selection(epoch: nat, rows: nat, blocks: seq<nat>)

  datatype Event =
    | Batch(batch: seq<Row>, pick: Option<set<nat>>)  // prepare and decode
    | TruncateCached(t: nat)
    | RemoveRows(lo: int, hi: int)                    // hi < 0 removes to the end
    | SetReplay(on: bool, begin: nat)
    | ApplySelection(sel: Selection)
    | HarvestFull                                     // pack full resident blocks
    | SeqRm(dead: set<nat>, everything: bool)         // removal by model position
    | CommitResident                                  // mark exactly the residents as the working set
    | Pin | KeepSelected | BeginTurn
    | Clear

  function Ids(blocks: seq<nat>): set<nat> {
    set i | i in blocks
  }

  /** Packed rows at or past row t are dropped. */
  function CutRaw(raw: map<nat, seq<Bytes>>, t: nat, bt: nat): map<nat, seq<Bytes>>
    requires bt > 0
  {
    map i | i in raw && i < BlocksFor(t, bt) :: CutTo(raw[i], t - Before(i, bt))
  }

  function CutTo(s: seq<Bytes>, n: int): seq<Bytes> {
    if n < 0 then [] else if n < |s| then s[..n] else s
  }

  /** Packed rows at or past row t are invalid; the store still knows the blocks. */
  function InvalidateRaw(raw: map<nat, seq<Bytes>>, t: nat, bt: nat): map<nat, seq<Bytes>>
    requires bt > 0
  {
    map i | i in raw :: CutTo(raw[i], t - Before(i, bt))
  }

  function FullResidents(p: Pool): set<nat> {
    set i: nat | i < |p.own| && Resident(p.own[i]) && Len(p, i) == p.bt
  }

  /** apply_selection: plan, then re-layout, then restore staged-in blocks that stayed cold. */
  function Select(p: Pool, sel: Selection): (q: Pool)
    requires Valid(p)
  {
    if sel.epoch != p.epoch || sel.rows != p.total then p else
      PlanValid(p, Ids(sel.blocks));
      var planned := ApplyPlan(p, Ids(sel.blocks)).(pinned := true);
      if Items(planned.own) == [] || SlotsInOrder(planned.own)
      then WriteCold(planned, Incoming(p, Ids(sel.blocks)), |planned.own|)
      else Layout(planned)
  }

  /** truncate_cached: keep the first t rows of every record. */
  function Cut(p: Pool, t: nat): Pool
    requires Shaped(p)
  {
    if t >= p.total then p else
      Truncate(p.(epoch := p.epoch + 1,
                  rowPos := if |p.rowPos| > t then p.rowPos[..t] else p.rowPos,
                  raw := CutRaw(p.raw, t, p.bt)), t)
  }

  function Replay(p: Pool, on: bool, begin: nat): Pool
    requires Shaped(p)
  {
    if on && !p.replay
    then p.(epoch := p.epoch + 1, raw := InvalidateRaw(p.raw, begin, p.bt), replay := true)
    else p.(replay := on)
  }

  /** Removal by model position kills some cells; removing everything outside a replay also drops
      the block table. */
  function RemoveCells(p: Pool, dead: set<nat>, everything: bool): Pool
    requires Shaped(p)
  {
    var q := p.(epoch := p.epoch + 1,
                cells := seq(|p.cells|, c requires 0 <= c < |p.cells| => if c in dead then Empty else p.cells[c]));
    if everything && !p.replay then q.(total := 0, own := [], free := DownTo(p.nSlots, 0), pinned := false) else q
  }

  function Cleared(p: Pool): Pool
    requires Shaped(p)
  {
    p.(epoch := p.epoch + 1, cells := seq(|p.cells|, _ => Empty), total := 0, own := [],
       free := DownTo(p.nSlots, 0), rowPos := [], raw := map[], pinned := false, keep := false)
  }

  /** Every resident block, and no other, is in the working set. */
  function Committed(own: seq<Info>): (own': seq<Info>)
    ensures |own'| == |own| && forall i :: 0 <= i < |own| ==> own'[i] == own[i].(inSet := Resident(own[i]))
  {
    seq(|own|, i requires 0 <= i < |own| => own[i].(inSet := Resident(own[i])))
  }

  function Step(p: Pool, e: Event): Pool
    requires Valid(p)
  {
    match e
    case Batch(batch, pick) => Decode(p, batch, pick)
    case TruncateCached(t) => Cut(p, t)
    case RemoveRows(lo, hi) =>
      p.(epoch := p.epoch + 1, cells := KillRows(p.cells, lo, if hi < 0 then MaxRow(p) else hi))
    case SetReplay(on, begin) => Replay(p, on, begin)
    case ApplySelection(sel) => Select(p, sel)
    case HarvestFull => if p.pinned || p.replay then p else HarvestAll(p, FullResidents(p), |p.own|)
    case SeqRm(dead, everything) => RemoveCells(p, dead, everything)
    case CommitResident => p.(own := Committed(p.own))
    case Pin => p.(pinned := true, keep := true)
    case KeepSelected => p.(keep := true)
    case BeginTurn => p.(pinned := false, keep := false)
    case Clear => Cleared(p)
  }

  /** One past every row that a cell is live for. */
  function MaxRow(p: Pool): (m: nat)
    ensures forall c :: 0 <= c < |p.cells| && p.cells[c].Live? ==> p.cells[c].row < m
  {
    MaxRowOf(p.cells)
  }

  function MaxRowOf(cells: seq<Cell>): (m: nat)
    ensures forall c :: 0 <= c < |cells| && cells[c].Live? ==> cells[c].row < m
  {
    if cells == [] then 0 else
      var n := |cells| - 1;
      var m := MaxRowOf(cells[..n]);
      assert forall c :: 0 <= c < n ==> cells[..n][c] == cells[c];
      if cells[n].Live? && cells[n].row >= m then cells[n].row + 1 else m
  }

  // ----- Shape and partition of each operation -----

  lemma {:induction false} OwnersBySlot(a: seq<Info>, b: seq<Info>, s: int)
    requires |a| == |b| && forall i :: 0 <= i < |a| ==> a[i].slot == b[i].slot
    ensures Owners(a, s) == Owners(b, s)
  {
    if a != [] {
      OwnersBySlot(a[..|a| - 1], b[..|b| - 1], s);
    }
  }

  lemma {:induction false} NewBlocksOwnNothing(own: seq<Info>, more: seq<Info>, s: int)
    requires forall i :: 0 <= i < |more| ==> more[i] == NEW_BLOCK
    ensures Owners(own + more, s) == Owners(own, s)
  {
    if more == [] {
      assert own + more == own;
    } else {
      var n := |more| - 1;
      NewBlocksOwnNothing(own, more[..n], s);
      assert (own + more)[..|own + more| - 1] == own + more[..n];
    }
  }

  lemma AppendValid(p: Pool, n: nat)
    requires Valid(p)
    ensures Valid(Append(p, n))
  {
    var q := Append(p, n);
    assert q.own == p.own + q.own[|p.own|..];
    forall s ensures Listed(q.free, s) + Owners(q.own, s) == if 0 <= s < q.nSlots then 1 else 0 {
      NewBlocksOwnNothing(p.own, q.own[|p.own|..], s);
    }
  }

  lemma TruncateValid(p: Pool, t: nat)
    requires Valid(p)
    ensures Valid(Truncate(p, t))
  {
    if t < p.total {
      BlocksForMono(t, p.total, p.bt);
      PoppedPartition(p.own, p.free, p.nSlots, BlocksFor(t, p.bt));
    }
  }

  /** What a plan leaves behind: outgoing blocks are off the GPU, other placements stand, and
      incoming blocks got a slot as long as slots lasted. */
  lemma ReplaceFacts(own: seq<Info>, free: seq<int>, n: nat, sel: set<nat>, ins: set<nat>)
    requires Partition(own, free, n)
    requires forall i :: 0 <= i < |own| && Resident(own[i]) ==> own[i].onGpu
    ensures var (own', free') := Replace(own, free, sel, ins);
      && Partition(own', free', n)
      && (forall i :: 0 <= i < |own| && Resident(own'[i]) ==> own'[i].onGpu)
      && (forall i :: 0 <= i < |own| && Resident(own[i]) && i in sel ==> own'[i].slot == own[i].slot)
      && (forall i :: 0 <= i < |own| && i !in sel && i !in ins ==> !Resident(own'[i]))
  {
    var marked, all := Marked(own, sel), free + Freed(own, sel);
    MarkedPartition(own, free, n, sel);
    AssignPartition(marked, all, n, ins, 0);
    FreeInRange(marked, all, n);
    AssignExtends(marked, all, ins, 0);
    var (placed, free') := Assign(marked, all, ins, 0);
    forall s ensures Listed(free', s) + Owners(OnGpu(placed, ins), s) == if 0 <= s < n then 1 else 0 {
      OwnersBySlot(placed, OnGpu(placed, ins), s);
    }
  }

  lemma PlanValid(p: Pool, sel: set<nat>)
    requires Valid(p)
    ensures Valid(ApplyPlan(p, sel))
  {
    ReplaceFacts(p.own, p.free, p.nSlots, sel, Incoming(p, sel));
  }

  lemma PlacedValid(a: Pool, t0: nat, n: nat, pick: Option<set<nat>>)
    requires Valid(a)
    ensures var r := Placed(a, t0, n, pick); r.Some? ==> Valid(r.value)
  {
    if pick.Some? {
      PlanValid(a, pick.value);
    }
    AssignPartition(a.own, a.free, a.nSlots, Touched(a, t0), 0);
    FreeInRange(a.own, a.free, a.nSlots);
    AssignExtends(a.own, a.free, Touched(a, t0), 0);
  }

  lemma PrepareValid(p: Pool, n: nat, pick: Option<set<nat>>)
    requires Valid(p)
    ensures Valid(Prepare(p, n, pick).1)
  {
    if n > 0 && !p.replay {
      var a := Append(p, n);
      AppendValid(p, n);
      PlacedValid(a, p.total, n, pick);
      var grown := Placed(a, p.total, n, pick);
      TruncateValid(if grown.Some? then grown.value else a, p.total);
    }
  }

  lemma {:induction false} DownToListed(n: nat, k: nat, m: nat, s: int)
    requires k <= n && m <= n - k
    ensures Listed(DownTo(n, k)[..m], s) == if n - m <= s < n then 1 else 0
  {
    if m > 0 {
      DownToListed(n, k, m - 1, s);
      assert DownTo(n, k)[..m][..m - 1] == DownTo(n, k)[..m - 1];
    }
  }

  lemma PackedPrefix(own: seq<Info>, n: nat)
    requires n <= |own|
    ensures PackedOwn(own)[..n] == PackedOwn(own[..n])
  {
    forall i | 0 <= i < n ensures PackedOwn(own)[i] == PackedOwn(own[..n])[i] {
      assert own[..n][..i] == own[..i];
    }
  }

  lemma PackedLast(own: seq<Info>)
    requires own != []
    ensures var n := |own| - 1;
      PackedOwn(own)[n].slot == if Resident(own[n]) then |Residents(own[..n])| else own[n].slot
    ensures |Residents(own)| == |Residents(own[..|own| - 1])| + if Resident(own[|own| - 1]) then 1 else 0
  {
  }

  lemma {:induction false} PackedOwners(own: seq<Info>, s: int)
    ensures Owners(PackedOwn(own), s) == if 0 <= s < |Residents(own)| then 1 else 0
  {
    if own != [] {
      PackedOwners(own[..|own| - 1], s);
      PackedPrefix(own, |own| - 1);
      PackedLast(own);
    }
  }

  /** Packing keeps the partition: residents take slots 0 .. k-1 and the rest is free. */
  lemma PackedPartition(own: seq<Info>, free: seq<int>, n: nat)
    requires Partition(own, free, n)
    ensures Partition(PackedOwn(own), DownTo(n, |Residents(own)|), n)
  {
    var k := |Residents(own)|;
    PartitionCount(own, free, n);
    forall s ensures Listed(DownTo(n, k), s) + Owners(PackedOwn(own), s) == if 0 <= s < n then 1 else 0 {
      DownToListed(n, k, n - k, s);
      assert DownTo(n, k)[..n - k] == DownTo(n, k);
      PackedOwners(own, s);
    }
  }

  lemma LayoutValid(p: Pool)
    requires Valid(p)
    ensures Valid(Layout(p))
  {
    PackedPartition(p.own, p.free, p.nSlots);
  }

  lemma EmptyValid(p: Pool)
    requires p.bt > 0 && p.own == [] && p.total == 0 && p.free == DownTo(p.nSlots, 0)
    requires |p.cells| == |p.kv| == p.kvSize <= Before(p.nSlots, p.bt)
    ensures Valid(p)
  {
    forall s ensures Listed(p.free, s) + Owners(p.own, s) == if 0 <= s < p.nSlots then 1 else 0 {
      DownToListed(p.nSlots, 0, p.nSlots, s);
      assert DownTo(p.nSlots, 0)[..p.nSlots] == DownTo(p.nSlots, 0);
    }
  }

  lemma StoreValid(p: Pool, batch: seq<Row>)
    requires Valid(p)
    ensures Valid(Store(p, batch))
  {
    var q := Store(p, batch);
    assert q.own == p.own && q.free == p.free && q.nSlots == p.nSlots;
  }

  lemma DecodeValid(p: Pool, batch: seq<Row>, pick: Option<set<nat>>)
    requires Valid(p)
    ensures Valid(Decode(p, batch, pick))
  {
    PrepareValid(Noted(p, batch), |batch|, pick);
    StoreValid(Prepare(Noted(p, batch), |batch|, pick).1, batch);
  }

  lemma CutValid(p: Pool, t: nat)
    requires Valid(p)
    ensures Valid(Cut(p, t))
  {
    if t < p.total {
      TruncateValid(p, t);
      assert Cut(p, t).own == Truncate(p, t).own && Cut(p, t).free == Truncate(p, t).free;
    }
  }

  lemma SelectValid(p: Pool, sel: Selection)
    requires Valid(p)
    ensures Valid(Select(p, sel))
  {
    var planned := ApplyPlan(p, Ids(sel.blocks)).(pinned := true);
    PlanValid(p, Ids(sel.blocks));
    LayoutValid(planned);
  }

  lemma RemoveCellsValid(p: Pool, dead: set<nat>, everything: bool)
    requires Valid(p)
    ensures Valid(RemoveCells(p, dead, everything)) && Valid(Cleared(p))
  {
    if everything && !p.replay {
      EmptyValid(RemoveCells(p, dead, everything));
    }
    EmptyValid(Cleared(p));
  }

  /** Every operation keeps the state valid: the free stack and the slots owned by resident blocks
      stay a duplicate-free partition of the pool. */
  lemma StepValid(p: Pool, e: Event)
    requires Valid(p)
    ensures Valid(Step(p, e))
  {
    match e
    case Batch(batch, pick) => DecodeValid(p, batch, pick);
    case TruncateCached(t) => CutValid(p, t);
    case ApplySelection(sel) => SelectValid(p, sel);
    case SeqRm(dead, everything) => RemoveCellsValid(p, dead, everything);
    case Clear => RemoveCellsValid(p, {}, true);
    case CommitResident =>
      forall s ensures Listed(p.free, s) + Owners(Committed(p.own), s) == if 0 <= s < p.nSlots then 1 else 0 {
        OwnersBySlot(p.own, Committed(p.own), s);
      }
    case _ =>
  }

  /** The state after a run of operations. */
  function Run(p: Pool, es: seq<Event>): (q: Pool)
    requires Valid(p)
    ensures Valid(q)
  {
    if es == [] then p else
      var q := Run(p, es[..|es| - 1]);
      StepValid(q, es[|es| - 1]);
      Step(q, es[|es| - 1])
  }

  /** A pool as constructed: no rows, every slot free. */
  function Fresh(bt: nat, nSlots: nat, kvSize: nat, highWater: nat, kv: seq<Bytes>): (p: Pool)
    requires bt > 0 && kvSize <= Before(nSlots, bt) && |kv| == kvSize
    ensures Valid(p)
  {
    var p := Pool(bt, nSlots, kvSize, highWater, 0, [], DownTo(nSlots, 0),
                  seq(kvSize, _ => Empty), kv, [], map[], 0, false, false, false);
    EmptyValid(p);
    p
  }

  // ----- Distinct rows, distinct cells -----

  /** Rows of resident blocks never share a cell. */
  lemma CellsDistinct(p: Pool, r1: nat, r2: nat)
    requires Valid(p) && BlockOf(r1, p.bt) < |p.own| && BlockOf(r2, p.bt) < |p.own|
    requires Resident(p.own[BlockOf(r1, p.bt)]) && Resident(p.own[BlockOf(r2, p.bt)])
    requires CellOf(p, r1) == CellOf(p, r2)
    ensures r1 == r2
  {
    CellRows(p.own[BlockOf(r1, p.bt)].slot, r1, p.own[BlockOf(r2, p.bt)].slot, r2, p.bt);
    OwnedOnce(p.own, p.free, p.nSlots, BlockOf(r1, p.bt), BlockOf(r2, p.bt));
  }

  /** The row-to-cell map of a batch: it fails exactly when some row has no cell, and otherwise
      sends distinct rows to distinct cells inside the cache. */
  lemma FillSlotsInjective(p: Pool, batch: seq<Row>)
    requires Valid(p)
    ensures var idx := FillSlots(p, batch);
      && (idx.None? <==> batch == [] || exists k :: 0 <= k < |batch| && !Mapped(p, batch[k].row))
      && (idx.Some? ==> forall k :: 0 <= k < |batch| ==> idx.value[k] < p.kvSize)
      && (idx.Some? ==> forall j, k :: 0 <= j < |batch| && 0 <= k < |batch| && idx.value[j] == idx.value[k]
                          ==> batch[j].row == batch[k].row)
  {
    var idx := FillSlots(p, batch);
    if idx.Some? {
      forall j, k | 0 <= j < |batch| && 0 <= k < |batch| && idx.value[j] == idx.value[k]
        ensures batch[j].row == batch[k].row
      {
        assert Mapped(p, batch[j].row) && Mapped(p, batch[k].row);
        CellsDistinct(p, batch[j].row, batch[k].row);
      }
    }
  }

  /** In every reachable state each slot is either free once or owned by one block, so the blocks
      with a slot and the free stack together account for the whole pool. */
  lemma ReachablePartition(p: Pool, es: seq<Event>)
    requires Valid(p)
    ensures var q := Run(p, es);
      && (forall s :: 0 <= s < q.nSlots ==> (s in q.free <==> !(exists i :: 0 <= i < |q.own| && q.own[i].slot == s)))
      && (forall i, j :: 0 <= i < j < |q.own| && Resident(q.own[i]) ==> q.own[i].slot != q.own[j].slot)
      && (forall i :: 0 <= i < |q.own| ==> q.own[i].slot < q.nSlots)
      && |q.free| + |Residents(q.own)| == q.nSlots
  {
    var q := Run(p, es);
    PartitionCount(q.own, q.free, q.nSlots);
    forall i, j | 0 <= i < j < |q.own| && Resident(q.own[i]) ensures q.own[i].slot != q.own[j].slot {
      OwnedOnce(q.own, q.free, q.nSlots, i, j);
    }
    forall i | 0 <= i < |q.own| ensures q.own[i].slot < q.nSlots {
      if Resident(q.own[i]) {
        OwnedOnce(q.own, q.free, q.nSlots, i, i);
      }
    }
    forall s | 0 <= s < q.nSlots
      ensures s in q.free <==> !(exists i :: 0 <= i < |q.own| && q.own[i].slot == s)
    {
      if i :| 0 <= i < |q.own| && q.own[i].slot == s {
        OwnedOnce(q.own, q.free, q.nSlots, i, i);
      } else {
        NobodyOwns(q.own, s);
        NotListed(q.free, s);
        assert Listed(q.free, s) + Owners(q.own, s) == if 0 <= s < q.nSlots then 1 else 0;
      }
    }
  }

  lemma {:induction false} NobodyOwns(own: seq<Info>, s: int)
    requires forall i :: 0 <= i < |own| ==> own[i].slot != s
    ensures Owners(own, s) == 0
  {
    if own != [] {
      NobodyOwns(own[..|own| - 1], s);
    }
  }

  lemma {:induction false} NotListed(free: seq<int>, s: int)
    ensures s !in free ==> Listed(free, s) == 0
  {
    if free != [] {
      NotListed(free[..|free| - 1], s);
    }
  }
}
