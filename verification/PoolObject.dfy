/** The slot pool as the object that holds it: a block table extended and popped in place, a free-slot
    stack, and the cell and byte buffers of the cache. Each method does in steps and loops what the
    function of the same operation says about its value. */
module PoolObject {
  import opened Arith
  import opened SlotTable
  import opened SlotPool
  import opened Runs
  import opened BlockTable
  import opened PoolSteps
  import opened Views
  import opened Admission
  import opened Selecting
  import opened Follower
  import opened Relayout
  import opened LayoutSteps

  class KvPool {
    const bt: nat
    const nSlots: nat
    const kvSize: nat
    const highWater: nat
    const cells: array<Cell>
    const kv: array<Bytes>
    var blocks: seq<Block>
    var total: nat
    var free: seq<int>
    var rowPos: seq<Position>
    var raw: map<nat, seq<Bytes>>
    var epoch: nat
    var replay: bool
    var pinned: bool
    var keep: bool

    /** The pool's value. */
    function State(): Pool
      reads this, cells, kv
    {
      Pool(bt, nSlots, kvSize, highWater, total, Infos(blocks), free, cells[..], kv[..], rowPos, raw, epoch, replay,
           pinned, keep)
    }

    /** The table is right, every block has a slot or -1, and the buffers have the pool's size. */
    ghost predicate Formed()
      reads this
    {
      && Table(blocks, total, bt) && cells.Length == kv.Length == kvSize && (cells as object) != (kv as object)
      && (forall i :: 0 <= i < |blocks| ==> blocks[i].at.slot >= -1)
    }

    ghost predicate Valid()
      reads this, cells, kv
    {
      Formed() && SlotPool.Valid(State())
    }

    constructor (bt: nat, nSlots: nat, highWater: nat, contents: seq<Bytes>)
      requires bt > 0 && |contents| <= Before(nSlots, bt)
      ensures Valid() && fresh(cells) && fresh(kv)
      ensures State() == Fresh(bt, nSlots, |contents|, highWater, contents)
    {
      this.bt, this.nSlots, this.kvSize, this.highWater := bt, nSlots, |contents|, highWater;
      cells := new Cell[|contents|](_ => Empty);
      kv := new Bytes[|contents|](i requires 0 <= i < |contents| => contents[i]);
      blocks, total, free, rowPos, raw := [], 0, [], [], map[];
      epoch, replay, pinned, keep := 0, false, false, false;
      new;
      ResetSlots();
      assert cells[..] == seq(|contents|, _ => Empty) && kv[..] == contents && Infos(blocks) == [];
      EmptyValid(State());
    }

    // ----- Slots -----

    method ResetSlots()
      modifies this`free
      ensures free == DownTo(nSlots, 0)
    {
      free := [];
      var i := nSlots;
      while i > 0
        invariant 0 <= i <= nSlots && free == DownTo(nSlots, i)
      {
        i := i - 1;
        free := free + [i];
      }
    }

    /** The top of the free stack, or -1. */
    method AllocSlot() returns (slot: int)
      modifies this`free
      ensures old(free) == [] ==> slot == -1 && free == []
      ensures old(free) != [] ==> old(free) == free + [slot]
    {
      if free == [] {
        return -1;
      }
      slot := free[|free| - 1];
      free := free[..|free| - 1];
    }

    method FreeSlot(slot: int)
      modifies this`free
      ensures free == old(free) + if slot < 0 then [] else [slot]
    {
      if slot < 0 {
        assert free + [] == free;
        return;
      }
      free := free + [slot];
    }

    // ----- The block table -----

    /** The partial tail takes as many of n rows as it has room for. */
    method ExtendTail(n: nat) returns (remaining: nat)
      requires Formed()
      modifies this`blocks, this`total
      ensures Formed() && remaining <= n && total + remaining == old(total) + n
      ensures Infos(blocks) == old(Infos(blocks))
      ensures remaining > 0 && blocks != [] ==> blocks[|blocks| - 1].n == bt
    {
      hide Before, BlocksFor, RowsOf, Right, Table;
      remaining := n;
      if blocks != [] && blocks[|blocks| - 1].n < bt {
        var i := |blocks| - 1;
        TailOf(blocks, total, bt);
        var room := bt - blocks[i].n;
        var take := if room < remaining then room else remaining;
        TailGrows(blocks, total, bt, take);
        InfosUpdate(blocks, i, blocks[i].(n := blocks[i].n + take));
        blocks := blocks[i := blocks[i].(n := blocks[i].n + take)];
        total, remaining := total + take, remaining - take;
      } else if blocks != [] {
        TailOf(blocks, total, bt);
      }
    }

    /** Append rows: extend the tail block in place, then add blocks. */
    method RegisterAppend(n: nat)
      requires Formed()
      modifies this`blocks, this`total
      ensures Formed() && State() == Append(old(State()), n)
    {
      hide Before, BlocksFor, RowsOf, Right, Table, Append;
      TableSize(blocks, total, bt);
      ghost var p, k := State(), |blocks|;
      var remaining := ExtendTail(n);
      while remaining > 0
        invariant Formed() && remaining >= 0 && total + remaining == p.total + n && |blocks| >= k
        invariant remaining > 0 && blocks != [] ==> blocks[|blocks| - 1].n == bt
        invariant p.own <= Infos(blocks)
        invariant forall j :: k <= j < |blocks| ==> blocks[j].at == NEW_BLOCK
      {
        var take := if bt < remaining then bt else remaining;
        BlockAdded(blocks, total, bt, take);
        InfosGrow(blocks, Block(total, take, NEW_BLOCK));
        blocks := blocks + [Block(total, take, NEW_BLOCK)];
        total, remaining := total + take, remaining - take;
      }
      TableSize(blocks, total, bt);
      AppendIs(p, n, Infos(blocks));
    }

    /** Pop the blocks that start at or past row t. Their slots come out in popping order. */
    method PopBlocks(t: nat) returns (dropped: seq<int>)
      requires Formed() && t <= total && BlocksFor(t, bt) <= |blocks|
      modifies this`blocks, this`total
      ensures Formed() && t <= total && (blocks != [] ==> blocks[|blocks| - 1].start < t)
      ensures BlocksFor(t, bt) <= |blocks| <= |old(blocks)| && Infos(blocks) == old(Infos(blocks))[..|blocks|]
      ensures Popped(old(Infos(blocks)), BlocksFor(t, bt)) == dropped + Popped(Infos(blocks), BlocksFor(t, bt))
    {
      hide Before, BlocksFor, RowsOf, Right, Table, Popped, Infos;
      TableSize(blocks, total, bt);
      ghost var was, own, k := blocks, Infos(blocks), BlocksFor(t, bt);
      assert own == own[..|was|];
      dropped := [];
      while blocks != [] && blocks[|blocks| - 1].start >= t
        invariant Formed() && t <= total && k <= |blocks| <= |own| && blocks == was[..|blocks|]
        invariant Popped(own, k) == dropped + Popped(own[..|blocks|], k)
      {
        var i := |blocks| - 1;
        PopStays(blocks, total, bt, t);
        BlockPopped(blocks, total, bt);
        PoppedNext(own[..|blocks|], k, dropped);
        assert own[..|blocks|][..i] == own[..i];
        dropped := dropped + SlotOf(blocks[i].at);
        total := total - blocks[i].n;
        blocks := blocks[..i];
      }
      InfosSlice(was, |blocks|);
    }

    /** Shorten the tail block to end at row t. */
    method ShrinkTail(t: nat)
      requires Formed() && t <= total && (if blocks == [] then t == total else blocks[|blocks| - 1].start < t)
      modifies this`blocks, this`total
      ensures Formed() && total == t && Infos(blocks) == old(Infos(blocks))
    {
      hide Before, BlocksFor, RowsOf, Right, Table;
      if blocks != [] {
        TailOf(blocks, total, bt);
        var i := |blocks| - 1;
        if blocks[i].start + blocks[i].n > t {
          var keepRows := t - blocks[i].start;
          TailShrinks(blocks, total, bt, keepRows);
          InfosUpdate(blocks, i, blocks[i].(n := keepRows));
          total := total - (blocks[i].n - keepRows);
          blocks := blocks[i := blocks[i].(n := keepRows)];
        }
      }
    }

    /** Drop rows from t on, then free the slots of the dropped blocks. */
    method TruncateTo(t: nat)
      requires Formed()
      modifies this`blocks, this`total, this`free
      ensures Formed() && State() == Truncate(old(State()), t)
    {
      hide Before, BlocksFor, RowsOf, Right, Table, Popped, Infos;
      TableSize(blocks, total, bt);
      if t >= total {
        return;
      }
      BlocksForMono(t, total, bt);
      var dropped := PopBlocks(t);
      PopDone(blocks, total, bt, t);
      PoppedAll(Infos(blocks));
      assert dropped == Popped(old(Infos(blocks)), BlocksFor(t, bt));
      ShrinkTail(t);
      for i := 0 to |dropped|
        invariant free == old(free) + dropped[..i]
        modifies this`free
      {
        PoppedSlots(old(Infos(blocks)), BlocksFor(t, bt), i);
        FreeSlot(dropped[i]);
      }
    }

    // ----- Looking rows up -----

    /** The block that holds a row, or -1. The table is dense, so the first guess is right. */
    method BlockIdContaining(r: nat) returns (id: int)
      requires Formed()
      ensures id == if r < total then BlockOf(r, bt) else -1
      ensures r < total ==> id < |blocks| && blocks[id].start == r - OffsetOf(r, bt) && OffsetOf(r, bt) < blocks[id].n
    {
      hide Before, BlockOf, OffsetOf, BlocksFor;
      EmptyTable(blocks, total, bt);
      if blocks == [] || r >= total {
        return -1;
      }
      IsDivMod(r, bt);
      id := r / bt;
      RowInBlock(r, bt, total);
      assert Right(blocks[id], id, total, bt);
    }

    /** The cell of a row, or -1 with any of the reasons for having none. */
    method CellFor(r: int) returns (cell: int)
      requires Formed()
      ensures cell >= 0 ==> HasCell(State(), r, cell)
      ensures cell < 0 ==> !Mapped(State(), r)
    {
      hide Before, BlockOf, OffsetOf, BlocksFor, Table;
      TableSize(blocks, total, bt);
      if r < 0 {
        return -1;
      }
      var id := BlockIdContaining(r);
      if id < 0 {
        return -1;
      }
      var b := blocks[id];
      if b.at.slot < 0 {
        return -1;
      }
      var off := r - b.start;
      if off >= b.n || off >= bt {
        return -1;
      }
      IsMul(b.at.slot, bt);
      cell := b.at.slot * bt + off;
      CellIsNat(State(), r);
      if cell >= kvSize {
        cell := -1;
      }
    }

    /** The cells of a batch, or nothing as soon as one row has none. */
    method FillSlotInfo(batch: seq<Row>) returns (idx: Option<seq<nat>>)
      requires Formed()
      ensures idx == FillSlots(State(), batch)
    {
      hide Mapped, CellOf, Table, HasCell;
      TableSize(blocks, total, bt);
      if batch == [] {
        return None;
      }
      var found: seq<nat> := [];
      for i := 0 to |batch|
        invariant |found| == i
        invariant forall k :: 0 <= k < i ==> HasCell(State(), batch[k].row, found[k])
      {
        var cell := CellFor(batch[i].row);
        if cell < 0 {
          return None;
        }
        found := found + [cell];
      }
      FilledAll(State(), batch, found);
      idx := Some(found);
    }

    method ResidentTokens() returns (n: nat)
      requires Formed()
      ensures n == ResidentRows(State(), |blocks|)
    {
      n := 0;
      for i := 0 to |blocks|
        invariant n == ResidentRows(State(), i)
      {
        assert Right(blocks[i], i, total, bt);
        if blocks[i].at.slot >= 0 {
          n := n + blocks[i].n;
        }
      }
    }

    // ----- Applying a selection plan -----

    method SetPlacement(i: nat, b: Info)
      requires Formed() && i < |blocks| && b.slot >= -1
      modifies this`blocks
      ensures Formed() && |blocks| == |old(blocks)| && Infos(blocks) == old(Infos(blocks))[i := b]
    {
      hide Table;
      TablePlaced(blocks, total, bt, i, b);
      InfosUpdate(blocks, i, blocks[i].(at := b));
      blocks := blocks[i := blocks[i].(at := b)];
    }

    /** Save a block's packed rows from its cells. */
    method HarvestBlock(i: nat)
      requires Formed() && Shaped(State()) && i < |blocks|
      modifies this`raw
      ensures State() == Harvest(old(State()), i)
    {
      hide Before, BlocksFor, BlockOf, OffsetOf;
      assert Right(blocks[i], i, total, bt);
      var b := blocks[i];
      if b.at.slot < 0 {
        return;
      }
      IsMul(b.at.slot, bt);
      var idx := b.at.slot * bt;
      if idx >= kvSize || cells[idx].Empty? {
        return;
      }
      var n := if kvSize - idx < b.n then kvSize - idx else b.n;
      if i in raw && |raw[i]| >= n {
        return;
      }
      raw := raw[i := kv[idx..idx + n]];
    }

    method HarvestBlocks(ids: set<nat>)
      requires Formed() && Shaped(State())
      modifies this`raw
      ensures State() == HarvestAll(old(State()), ids, |blocks|)
    {
      hide Before, BlocksFor, Harvest, Table;
      for k := 0 to |blocks|
        invariant State() == HarvestAll(old(State()), ids, k)
      {
        if k in ids {
          HarvestBlock(k);
        }
      }
    }

    /** Mark the selected blocks, and move the others off the GPU. Their slots are kept aside. */
    method SpillOutgoing(sel: set<nat>) returns (pending: seq<int>)
      requires Formed()
      modifies this`blocks
      ensures Formed() && Infos(blocks) == Marked(old(Infos(blocks)), sel)
      ensures pending == Freed(old(Infos(blocks)), sel)
    {
      hide Table;
      ghost var own := Infos(blocks);
      pending := [];
      for k := 0 to |blocks|
        invariant Formed() && |blocks| == |own| && pending == Freed(own[..k], sel)
        invariant forall j :: 0 <= j < |own| ==> blocks[j].at == if j < k then MarkedAs(own[j], j in sel) else own[j]
      {
        var b := blocks[k].at;
        FreedNext(own, sel, k);
        if k in sel {
          SetPlacement(k, b.(inSet := true));
        } else if b.onGpu {
          pending := pending + if b.slot >= 0 then [b.slot] else [];
          SetPlacement(k, Info(-1, false, false));
        }
      }
      assert own[..|own|] == own;
    }

    /** Empty every cell that is live for a row in [lo, hi). */
    method SeqRm(lo: int, hi: int)
      modifies cells
      ensures cells[..] == KillRows(old(cells[..]), lo, hi)
    {
      for c := 0 to cells.Length
        invariant forall x :: 0 <= x < cells.Length ==>
                  cells[x] == if x < c then KillRows(old(cells[..]), lo, hi)[x] else old(cells[..])[x]
      {
        if cells[c].Live? && lo <= cells[c].row < hi {
          cells[c] := Empty;
        }
      }
    }

    method RemoveRowsOf(ids: set<nat>)
      requires Formed()
      modifies cells
      ensures cells[..] == KillBlocks(old(State()), ids)
    {
      hide Before, BlocksFor, KillBlocks, KillRows, Under;
      ghost var p := State();
      TableSize(blocks, total, bt);
      KillStart(p, ids);
      for k := 0 to |blocks|
        invariant cells[..] == KillBlocks(p, Under(ids, k))
      {
        assert Right(blocks[k], k, total, bt);
        if k in ids {
          KillNext(p, ids, k);
          SeqRm(blocks[k].start, blocks[k].start + blocks[k].n);
        } else {
          KillSkips(p, ids, k);
        }
      }
      KillAll(p, ids);
    }

    method FreeAll(pending: seq<int>)
      requires forall i :: 0 <= i < |pending| ==> pending[i] >= 0
      modifies this`free
      ensures free == old(free) + pending
    {
      for i := 0 to |pending|
        invariant free == old(free) + pending[..i]
      {
        assert pending[..i + 1] == pending[..i] + [pending[i]];
        FreeSlot(pending[i]);
      }
      assert pending[..|pending|] == pending;
    }

    /** Bring a block to the GPU: it keeps a slot it has, else takes one, or -1 when there is none. */
    method StageIn(k: nat)
      requires Formed() && k < |blocks| && (forall i :: 0 <= i < |free| ==> free[i] >= 0)
      requires Resident(blocks[k].at) ==> blocks[k].at.onGpu
      modifies this`blocks, this`free
      ensures Formed()
      ensures var (b, rest) := PlacedBlock(old(Infos(blocks))[k], old(free), true);
        Infos(blocks)[k] == b.(onGpu := true) && free == rest
      ensures Infos(blocks) == old(Infos(blocks))[k := Infos(blocks)[k]]
    {
      hide Table;
      var b := blocks[k].at;
      if b.onGpu && b.slot >= 0 {
        return;
      }
      var slot := AllocSlot();
      assert old(free) != [] ==> slot == old(free)[|free|];
      SetPlacement(k, b.(slot := slot, onGpu := true));
    }

    /** Admit incoming blocks, in block order. */
    method AdmitIncoming(ins: set<nat>)
      requires Formed() && (forall i :: 0 <= i < |free| ==> free[i] >= 0)
      requires forall i :: 0 <= i < |blocks| && Resident(blocks[i].at) ==> blocks[i].at.onGpu
      modifies this`blocks, this`free
      ensures Formed()
      ensures var (placed, rest) := Assign(old(Infos(blocks)), old(free), ins, 0);
        Infos(blocks) == OnGpu(placed, ins) && free == rest
    {
      hide Table, Assign;
      ghost var own, free0, placed := Infos(blocks), free, Infos(blocks);
      for k := 0 to |blocks|
        invariant Formed() && |blocks| == |own| && PlacingAt(own, free0, placed, free, ins, k)
        invariant AdmittedTo(Infos(blocks), placed, ins, k)
        invariant forall i :: k <= i < |blocks| && Resident(blocks[i].at) ==> blocks[i].at.onGpu
      {
        PlacingNext(own, free0, placed, free, ins, k);
        ghost var (b, rest) := PlacedBlock(placed[k], free, k in ins);
        AdmittedNext(Infos(blocks), placed, ins, k, b);
        placed := placed[k := b];
        if k in ins {
          StageIn(k);
        }
      }
      PlacingDone(own, free0, placed, free, ins);
      AdmittedAll(Infos(blocks), placed, ins);
    }

    /** The outgoing half of a plan: save the blocks, take their slots, and clear their cells. */
    method StageOutgoing(sel: set<nat>, outs: set<nat>) returns (pending: seq<int>)
      requires Formed() && Shaped(State())
      modifies this`blocks, this`raw, cells
      ensures Formed() && pending == Freed(old(Infos(blocks)), sel)
      ensures raw == HarvestAll(old(State()), outs, |old(blocks)|).raw && cells[..] == KillBlocks(old(State()), outs)
      ensures Infos(blocks) == Marked(old(Infos(blocks)), sel)
    {
      hide Table, Partition, Before, BlocksFor, HarvestAll, KillBlocks, Marked, Freed;
      ghost var p := State();
      HarvestBlocks(outs);
      assert raw == HarvestAll(p, outs, |p.own|).raw;
      pending := SpillOutgoing(sel);
      KillSame(p, State(), outs);
      RemoveRowsOf(outs);
      assert cells[..] == KillBlocks(p, outs);
    }

    /** The incoming half: free the slots taken, and only then admit. */
    method AdmitPlan(sel: set<nat>, ins: set<nat>, pending: seq<int>, ghost own: seq<Info>)
      requires Formed() && Infos(blocks) == Marked(own, sel) && pending == Freed(own, sel)
      requires forall i :: 0 <= i < |free| ==> free[i] >= 0
      requires forall i :: 0 <= i < |own| && Resident(own[i]) ==> own[i].onGpu
      modifies this`blocks, this`free
      ensures Formed() && (Infos(blocks), free) == Replace(own, old(free), sel, ins)
    {
      hide Table, Assign, Marked, Freed;
      FreedSlots(own, sel);
      FreeAll(pending);
      MarkedOnGpu(own, sel);
      AdmitIncoming(ins);
    }

    /** Apply a selection plan: save and spill outgoing blocks, clear their cells, free their slots, and
        only then admit incoming blocks. */
    method ApplyPlanToKv(sel: set<nat>)
      requires Valid()
      modifies this, cells
      ensures Valid() && State() == ApplyPlan(old(State()), sel)
    {
      hide Table, Partition, Before, BlocksFor, HarvestAll, KillBlocks, Marked, Freed, Outgoing, Incoming, Infos,
          ApplyPlan, Replace;
      ghost var p := State();
      var outs, ins := Outgoing(State(), sel), Incoming(State(), sel);
      if outs != {} || ins != {} {
        epoch := epoch + 1;
      }
      KillSame(p, State(), outs);
      HarvestAnyEpoch(p, epoch, outs, |p.own|);
      var pending := StageOutgoing(sel, outs);
      FreeInRange(p.own, p.free, p.nSlots);
      AdmitPlan(sel, ins, pending, p.own);
      PlanIs(p, State(), sel, outs, ins);
      PlanValid(p, sel);
    }

    // ----- Making room for a batch -----

    /** Give every block that holds rows from t0 on a slot, until slots run out. */
    method PlaceIncoming(t0: nat) returns (ok: bool)
      requires Valid() && t0 < total
      modifies this`blocks, this`free
      ensures Valid() && |blocks| == |old(blocks)|
      ensures (Infos(blocks), free) == Assign(old(Infos(blocks)), old(free), Touched(old(State()), t0), 0)
      ensures !ok ==> !TailPlaced(State(), t0)
    {
      hide Table, Assign, Partition, Before, BlocksFor, BlockOf, OffsetOf;
      TableSize(blocks, total, bt);
      ghost var p := State();
      ghost var want := Touched(p, t0);
      FreeInRange(p.own, p.free, p.nSlots);
      ok := true;
      var k := 0;
      while k < |blocks| && ok
        invariant Formed() && k <= |blocks| == |p.own| && PlacingAt(p.own, p.free, Infos(blocks), free, want, k)
        invariant forall j :: k <= j < |blocks| && Resident(blocks[j].at) ==> blocks[j].at.onGpu
        invariant forall j :: 0 <= j < |blocks| ==>
                  blocks[j].start == old(blocks)[j].start && blocks[j].n == old(blocks)[j].n
        invariant !ok ==> free == [] && k < |blocks| && k in want && !Resident(Infos(blocks)[k])
        decreases |blocks| - k, ok
      {
        PlacingNext(p.own, p.free, Infos(blocks), free, want, k);
        ghost var (b, rest) := PlacedBlock(Infos(blocks)[k], free, k in want);
        StartOf(blocks, total, bt, k);
        TouchedRows(p, t0, k);
        if blocks[k].start + blocks[k].n > t0 && blocks[k].at.slot < 0 {
          var slot := AllocSlot();
          if slot < 0 {
            ok := false;
          } else {
            SetSlot(k, slot);
            k := k + 1;
          }
        } else {
          assert Infos(blocks)[k := Infos(blocks)[k]] == Infos(blocks);
          k := k + 1;
        }
      }
      if ok {
        PlacingDone(p.own, p.free, Infos(blocks), free, want);
      } else {
        PlacingStuck(p.own, p.free, Infos(blocks), want, k);
      }
      PlacedValidOwn(p, Infos(blocks), free, want);
    }

    method SetSlot(k: nat, slot: int)
      requires Formed() && k < |blocks| && slot >= -1
      modifies this`blocks
      ensures Formed() && Infos(blocks) == old(Infos(blocks))[k := old(blocks)[k].at.(slot := slot, onGpu := true)]
      ensures |blocks| == |old(blocks)|
      ensures forall j :: 0 <= j < |blocks| ==>
                blocks[j].start == old(blocks)[j].start && blocks[j].n == old(blocks)[j].n
    {
      hide Table;
      var b := blocks[k].at.(slot := slot, onGpu := true);
      TablePlaced(blocks, total, bt, k, b);
      InfosUpdate(blocks, k, blocks[k].(at := b));
      blocks := blocks[k := blocks[k].(at := b)];
    }

    /** Whether every block that holds rows from t0 on has a slot. */
    method AllPlaced(t0: nat) returns (ok: bool)
      requires Formed() && t0 < total
      ensures ok <==> TailPlaced(State(), t0)
    {
      hide Table, Before, BlocksFor, BlockOf, OffsetOf;
      TableSize(blocks, total, bt);
      for k := 0 to |blocks|
        invariant forall j :: 0 <= j < k && BlockOf(t0, bt) <= j ==> Resident(blocks[j].at)
      {
        StartOf(blocks, total, bt, k);
        TouchedRows(State(), t0, k);
        if blocks[k].start + blocks[k].n > t0 && blocks[k].at.slot < 0 {
          assert !Resident(State().own[k]);
          return false;
        }
      }
      return true;
    }

    /** Place the blocks of the appended rows, by a pressure plan if the pool would overflow. */
    method PlaceBatch(t0: nat, n: nat, pick: Option<set<nat>>) returns (ok: bool)
      requires Valid() && t0 < total
      modifies this, cells
      ensures Valid() && total == old(total)
      ensures var grown := Placed(old(State()), t0, n, pick);
        && State() == (if grown.Some? then grown.value else old(State()))
        && (ok <==> grown.Some? && TailPlaced(State(), t0))
    {
      hide Table, Partition, Before, BlocksFor, BlockOf, OffsetOf, Assign, ApplyPlan, ResidentRows, TailPlaced, Touched;
      var offload := false;
      if !pinned && !keep {
        var resident := ResidentTokens();
        offload := NeedsOffload(State(), resident, n);
      }
      if offload {
        if pick.None? {
          return false;
        }
        PlanFrame(State(), pick.value);
        ApplyPlanToKv(pick.value);
      } else {
        ok := PlaceIncoming(t0);
        if !ok {
          return;
        }
      }
      ok := AllPlaced(t0);
    }

    /** Make room for n new rows; a failed call keeps the rows there were. */
    method PrepareWorkingSet(n: nat, pick: Option<set<nat>>) returns (ok: bool)
      requires Valid()
      modifies this, cells
      ensures Valid() && (ok, State()) == Prepare(old(State()), n, pick)
    {
      hide Table, Partition, Before, BlocksFor, BlockOf, OffsetOf, Append, Placed, Truncate, TailPlaced;
      if n == 0 || replay {
        return true;
      }
      ghost var p := State();
      var t0 := total;
      AppendValid(p, n);
      RegisterAppend(n);
      ghost var a := State();
      ok := PlaceBatch(t0, n, pick);
      PrepareIs(p, n, pick, a, Placed(a, t0, n, pick));
      if !ok {
        TruncateValid(State(), t0);
        TruncateTo(t0);
      }
    }

    // ----- Storing a batch -----

    /** Move the epoch once if the batch rewrites a stored row. */
    method NoteRewrites(batch: seq<Row>)
      modifies this`epoch
      ensures epoch == if Rewrites(old(State()), batch) then old(epoch) + 1 else old(epoch)
    {
      for i := 0 to |batch|
        invariant epoch == old(epoch) && forall k :: 0 <= k < i ==> !(0 <= batch[k].row < total)
      {
        if 0 <= batch[i].row < total {
          epoch := epoch + 1;
          break;
        }
      }
    }

    /** Record the position of each row, up to the first row that is not stored. */
    method RecordRows(batch: seq<Row>) returns (known: bool)
      modifies this`rowPos
      ensures (known, rowPos) == RecordPositions(old(rowPos), total, batch)
    {
      hide Extend;
      for i := 0 to |batch|
        invariant (true, rowPos) == RecordPositions(old(rowPos), total, batch[..i])
      {
        if batch[i].row < 0 || batch[i].row >= total {
          RecordStops(old(rowPos), total, batch, i);
          return false;
        }
        RecordNext(old(rowPos), total, batch, i);
        rowPos := Extend(rowPos, batch[i].row + 1);
        rowPos := rowPos[batch[i].row := batch[i].pos];
      }
      assert batch[..|batch|] == batch;
      return true;
    }

    /** Write each row of a batch to its cell. */
    method WriteRows(batch: seq<Row>, idx: seq<nat>)
      requires Formed() && |idx| == |batch|
      requires forall k :: 0 <= k < |batch| ==> idx[k] < kvSize && batch[k].row >= 0
      modifies cells, kv
      ensures (cells[..], kv[..]) == WriteCells(old(cells[..]), old(kv[..]), batch, idx)
    {
      hide Table;
      for i := 0 to |batch|
        invariant (cells[..], kv[..]) == WriteCells(old(cells[..]), old(kv[..]), batch[..i], idx[..i])
      {
        WriteNext(old(cells[..]), old(kv[..]), batch, idx, i);
        cells[idx[i]] := Live(batch[i].row, batch[i].pos);
        kv[idx[i]] := batch[i].val;
      }
      assert batch[..|batch|] == batch && idx[..|idx|] == idx;
    }

    /** Record and write a batch for which room was made. */
    method StoreBatch(batch: seq<Row>)
      requires Valid()
      modifies this`rowPos, cells, kv
      ensures Valid() && State() == Store(old(State()), batch)
    {
      hide Table, Partition, Before, BlocksFor, BlockOf, OffsetOf, RecordPositions, WriteCells, Mapped, FillSlots;
      ghost var p := State();
      StoreValid(p, batch);
      var known := RecordRows(batch);
      if known {
        SameSlots(p, State(), batch);
        FilledInside(p, batch);
        var idx := FillSlotInfo(batch);
        if idx.Some? {
          WriteRows(batch, idx.value);
        }
      }
    }

    /** Prepare and decode one batch. */
    method DecodeBatch(batch: seq<Row>, pick: Option<set<nat>>)
      requires Valid()
      modifies this, cells, kv
      ensures Valid() && State() == Decode(old(State()), batch, pick)
    {
      hide Table, Partition, Before, BlocksFor, Prepare, Store, Rewrites;
      ghost var p := State();
      NoteRewrites(batch);
      assert State() == Noted(p, batch);
      var ok := PrepareWorkingSet(|batch|, pick);
      if ok {
        StoreBatch(batch);
      }
    }

    // ----- Queries -----

    /** Whether a block is fully present on the GPU. */
    method GpuKvComplete(i: nat) returns (ok: bool)
      requires Formed() && i < |blocks|
      ensures ok <==> Complete(State(), i)
    {
      hide Table, Before, BlocksFor, BlockOf, OffsetOf;
      TableSize(blocks, total, bt);
      StartOf(blocks, total, bt, i);
      var b := blocks[i];
      if b.at.slot < 0 || !b.at.onGpu || b.n == 0 {
        return false;
      }
      IsMul(b.at.slot, bt);
      var first := b.at.slot * bt;
      if first + b.n > cells.Length || b.start + b.n > |rowPos| {
        return false;
      }
      for o := 0 to b.n
        invariant forall x :: 0 <= x < o ==> RowLive(State(), i, x)
      {
        if cells[first + o] != Live(b.start + o, rowPos[b.start + o]) {
          assert !RowLive(State(), i, o);
          return false;
        }
      }
      return true;
    }

    method CountUsed() returns (n: nat)
      ensures n == Used(cells[..])
    {
      n := 0;
      for c := 0 to cells.Length
        invariant n == Used(cells[..c])
      {
        assert cells[..c + 1][..c] == cells[..c];
        if cells[c].Live? {
          n := n + 1;
        }
      }
      assert cells[..cells.Length] == cells[..];
    }

    method GetAttentionView(canonical: bool) returns (view: View)
      requires Formed()
      ensures view == AttentionView(State(), canonical)
    {
      hide Table, Before, BlocksFor, BlockOf, OffsetOf, Complete, Used, CoveredBy, Residents;
      TableSize(blocks, total, bt);
      var ids: seq<nat> := [];
      var resident := 0;
      var valid := true;
      NoResidents(Infos(blocks));
      CoverNone(State(), canonical);
      for i := 0 to |blocks|
        invariant ids == Residents(Infos(blocks)[..i]) && resident == ResidentRows(State(), i)
        invariant InBlocks(ids, i) && (valid <==> CoveredBy(State(), canonical, ids))
      {
        StartOf(blocks, total, bt, i);
        ResidentsNext(Infos(blocks), i);
        if blocks[i].at.slot >= 0 {
          resident := resident + blocks[i].n;
          var whole := GpuKvComplete(i);
          CoverOne(State(), canonical, ids, i);
          if (canonical && blocks[i].at.slot != |ids|) || !whole {
            valid := false;
          }
          ids := ids + [i];
        }
      }
      assert Infos(blocks)[..|blocks|] == Infos(blocks);
      CoveredIs(State(), canonical, ids);
      var used := CountUsed();
      view := View(epoch, total, valid && used == resident, ids);
    }

    /** can_append: nothing, or the first reason against. */
    method CanAppendRows(budgetBlocks: nat, end: nat, gen: nat, allHistory: bool) returns (refusal: Option<Refusal>)
      requires Formed()
      ensures refusal == CanAppend(State(), budgetBlocks, end, gen, allHistory)
    {
      hide Table, Before, BlockOf, OffsetOf, BlocksFor, Complete, AttentionView, Needed, ResidentRows;
      TableSize(blocks, total, bt);
      if end < total {
        return Some(InvalidBoundary);
      }
      var view := GetAttentionView(allHistory);
      if !view.valid {
        return Some(CoverageOrLayout);
      }
      IsDivMod(total, bt);
      if total % bt != 0 {
        var whole := false;
        if total / bt < |blocks| {
          whole := GpuKvComplete(total / bt);
        }
        if !whole {
          return Some(PartialTailMissing);
        }
      }
      if allHistory {
        var refused := HistoryRefused(budgetBlocks, end, |view.blocks|);
        if refused.Some? {
          return refused;
        }
      }
      IsDivMod(end + gen, bt);
      var final := (end + gen + bt - 1) / bt;
      if final > nSlots + |blocks| {
        return Some(InsufficientSlots);
      }
      var needed := CountNeeded(total / bt, final);
      return if needed > |free| then Some(InsufficientSlots) else None;
    }

    /** The further conditions when all history must stay resident. */
    method HistoryRefused(budgetBlocks: nat, end: nat, residents: nat) returns (refusal: Option<Refusal>)
      requires Formed() && end >= total && bt > 0
      ensures refusal ==
        if residents != |blocks| then Some(HistoryNotResident)
        else if budgetBlocks > 0 && BlocksFor(end, bt) > budgetBlocks then Some(SelectionBudget)
        else if NeedsOffload(State(), ResidentRows(State(), |blocks|), end - total) then Some(PrefillPressure) else None
    {
      hide Table, Before, BlockOf, OffsetOf, BlocksFor, ResidentRows;
      if residents != |blocks| {
        return Some(HistoryNotResident);
      }
      IsDivMod(end, bt);
      if budgetBlocks > 0 && (end + bt - 1) / bt > budgetBlocks {
        return Some(SelectionBudget);
      }
      var resident := ResidentTokens();
      return if NeedsOffload(State(), resident, end - total) then Some(PrefillPressure) else None;
    }

    method CountNeeded(first: nat, final: nat) returns (n: nat)
      ensures n == Needed(Infos(blocks), first, final)
    {
      n := 0;
      var id := first;
      while id < final
        invariant first <= id && (id <= final || id == first) && n == Needed(Infos(blocks), first, id)
      {
        if id >= |blocks| || blocks[id].at.slot < 0 {
          n := n + 1;
        }
        id := id + 1;
      }
    }

    /** selection_fits. `mandatory` is what the caller must keep. */
    method SelectionFitsRows(sel: Selection, end: nat, gen: nat, ranges: seq<Range>, forcePos: int) returns (ok: bool)
      requires Formed()
      ensures ok == SelectionFits(State(), sel, end, gen, ranges, forcePos)
    {
      hide Table, Before, BlockOf, OffsetOf, BlocksFor, Overlaps, Outside;
      TableSize(blocks, total, bt);
      if sel.epoch != epoch || sel.rows != total || end < sel.rows {
        return false;
      }
      var kept := KeepsMandatory(sel.blocks, ranges, forcePos);
      if !kept {
        return false;
      }
      IsDivMod(end + gen, bt);
      IsDivMod(total, bt);
      var first, final := sel.rows / bt, (end + gen + bt - 1) / bt;
      if final < first || final - first > nSlots {
        return false;
      }
      var more := CountOutside(sel.blocks, first, final);
      return |sel.blocks| + more <= nSlots;
    }

    method CountOutside(ids: seq<nat>, first: nat, final: nat) returns (n: nat)
      requires first <= final
      ensures n == Outside(ids, first, final)
    {
      n := 0;
      for id := first to final
        invariant n == Outside(ids, first, id)
      {
        if id !in ids {
          n := n + 1;
        }
      }
    }

    /** Whether a selection holds every block of a mandatory range, and the forced one. */
    method KeepsMandatory(ids: seq<nat>, ranges: seq<Range>, forcePos: int) returns (ok: bool)
      requires Formed()
      ensures ok <==> forall i :: i in Mandatory(State(), ranges, forcePos) ==> i in ids
    {
      hide Table, Before, BlockOf, OffsetOf, BlocksFor;
      TableSize(blocks, total, bt);
      for i := 0 to |blocks|
        invariant forall j :: 0 <= j < i && Overlaps(State(), j, ranges) ==> j in ids
      {
        var meets := MeetsRange(i, ranges);
        if meets && i !in ids {
          assert i in Mandatory(State(), ranges, forcePos);
          return false;
        }
      }
      if forcePos >= 0 {
        var id := BlockIdContaining(forcePos);
        if id >= 0 && id !in ids {
          assert id in Mandatory(State(), ranges, forcePos);
          return false;
        }
      }
      return true;
    }

    method MeetsRange(i: nat, ranges: seq<Range>) returns (ok: bool)
      requires Formed() && i < |blocks|
      ensures ok <==> Overlaps(State(), i, ranges)
    {
      hide Table, Before, BlocksFor;
      StartOf(blocks, total, bt, i);
      for k := 0 to |ranges|
        invariant forall j :: 0 <= j < k ==>
                  !(blocks[i].start + blocks[i].n > ranges[j].begin && blocks[i].start < ranges[j].end)
      {
        if blocks[i].start + blocks[i].n > ranges[k].begin && blocks[i].start < ranges[k].end {
          return true;
        }
      }
      return false;
    }

    /** slot_for_orig_pos. */
    method SlotForOrigPos(r: nat) returns (at: Option<(int, nat)>)
      requires Formed()
      ensures |blocks| == BlocksFor(total, bt) && at == SlotFor(State(), r)
    {
      hide Table, Before, BlockOf, OffsetOf, BlocksFor;
      TableSize(blocks, total, bt);
      var id := BlockIdContaining(r);
      if id >= 0 {
        var b := blocks[id];
        return if b.at.slot < 0 then None else Some((b.at.slot, r - b.start));
      }
      if blocks != [] {
        var last := blocks[|blocks| - 1];
        StartOf(blocks, total, bt, |blocks| - 1);
        if last.at.slot >= 0 && last.start <= r < last.start + bt {
          return Some((last.at.slot, r - last.start));
        }
      }
      IsDivMod(r, bt);
      return if free == [] then None else Some((free[|free| - 1], r % bt));
    }

    // ----- Re-layout -----

    /** The blocks with a slot, in row order. */
    method ResidentIds() returns (ids: seq<nat>)
      ensures ids == Items(Infos(blocks))
    {
      ids := [];
      for i := 0 to |blocks|
        invariant ids == Residents(Infos(blocks)[..i])
      {
        assert Infos(blocks)[..i + 1][..i] == Infos(blocks)[..i];
        if blocks[i].at.slot >= 0 {
          ids := ids + [i];
        }
      }
      assert Infos(blocks)[..|blocks|] == Infos(blocks);
    }

    method InOrder(items: seq<nat>) returns (ok: bool)
      requires items == Items(Infos(blocks))
      ensures ok <==> SlotsInOrder(Infos(blocks))
    {
      SortedIsInOrder(Infos(blocks), items);
      for k := 0 to |items|
        invariant forall j :: 0 <= j < k ==> Infos(blocks)[items[j]].slot == j
      {
        if blocks[items[k]].at.slot != k {
          assert Infos(blocks)[items[k]].slot != k;
          return false;
        }
      }
      return true;
    }

    /** Whether a block's first cell is live for its first row. */
    method AlreadyResident(i: nat) returns (ok: bool)
      requires Formed() && i < |blocks|
      ensures ok <==> HeadLive(State(), i)
    {
      hide Table, Before, BlocksFor;
      StartOf(blocks, total, bt, i);
      if blocks[i].at.slot < 0 {
        return false;
      }
      IsMul(blocks[i].at.slot, bt);
      var idx := blocks[i].at.slot * bt;
      return idx < kvSize && cells[idx].Live? && cells[idx].row == blocks[i].start;
    }

    /** Copy the rows of live blocks aside. */
    method Gather(items: seq<nat>) returns (scratch: seq<seq<Bytes>>, hot: seq<bool>)
      requires Valid() && kvSize == Before(nSlots, bt) && items == Items(Infos(blocks))
      ensures |scratch| == |hot| == |items|
      ensures forall k :: 0 <= k < |items| ==>
                hot[k] == HeadLive(State(), items[k]) && scratch[k] == Gathered(State(), items[k])
    {
      hide Table, Before, BlocksFor, Partition, HeadLive;
      ItemsFacts(Infos(blocks));
      scratch, hot := [], [];
      for k := 0 to |items|
        invariant |scratch| == |hot| == k
        invariant forall j :: 0 <= j < k ==>
                  hot[j] == HeadLive(State(), items[j]) && scratch[j] == Gathered(State(), items[j])
      {
        var i := items[k];
        var live := AlreadyResident(i);
        StartOf(blocks, total, bt, i);
        WholeSlot(State(), i);
        IsMul(blocks[i].at.slot, bt);
        var src := blocks[i].at.slot * bt;
        scratch := scratch + [if live then kv[src..src + blocks[i].n] else []];
        hot := hot + [live];
      }
    }

    method PasteBytes(base: nat, part: seq<Bytes>)
      requires base + |part| <= kv.Length
      modifies kv
      ensures kv[..] == Pasted(old(kv[..]), base, part)
    {
      for o := 0 to |part|
        invariant forall c :: 0 <= c < kv.Length ==>
                  kv[c] == if base <= c < base + o then part[c - base] else old(kv[..])[c]
      {
        kv[base + o] := part[o];
      }
    }

    /** Copy the gathered rows to the slots of their blocks' ranks. */
    method Scatter(items: seq<nat>, scratch: seq<seq<Bytes>>, ghost p: Pool)
      requires Formed() && SlotPool.Valid(p) && p.kvSize == Before(p.nSlots, p.bt) && p.bt == bt
      requires items == Items(p.own) && kv[..] == p.kv
      requires |scratch| == |items| && forall k :: 0 <= k < |items| ==> scratch[k] == Gathered(p, items[k])
      modifies kv
      ensures KvAt(p, items, kv[..], |items|, 0)
    {
      hide Table, Before, BlocksFor, Partition, KvAt, Gathered;
      KvStart(p, items);
      for k := 0 to |items|
        invariant KvAt(p, items, kv[..], k, 0)
      {
        ScatterStep(p, items, kv[..], k);
        IsMul(k, bt);
        PasteBytes(k * bt, scratch[k]);
      }
    }

    /** Take the slots of the residents away. */
    method ReleaseSlots(items: seq<nat>)
      requires Formed() && items == Items(Infos(blocks))
      modifies this`blocks
      ensures Formed() && |blocks| == |old(blocks)| && OwnAt(old(State()), Infos(blocks), 0)
    {
      hide Table, OwnAt;
      ghost var p := State();
      for k := 0 to |items|
        invariant Formed() && |blocks| == |p.own|
        invariant forall j :: 0 <= j < |blocks| ==>
                  blocks[j].at == if j in items[..k] then p.own[j].(slot := -1) else p.own[j]
      {
        assert items[..k + 1] == items[..k] + [items[k]];
        SetPlacement(items[k], blocks[items[k]].at.(slot := -1));
      }
      assert items[..|items|] == items;
      PlaceStart(p, Infos(blocks), items);
    }

    /** Make a block's cells live from `base` on, row by row, at their recorded positions. */
    method OccupyCells(i: nat, base: nat)
      requires Formed() && i < |blocks| && base + blocks[i].n <= kvSize
      modifies cells
      ensures blocks[i].n == |Occupancy(old(State()), i)|
      ensures cells[..] == Pasted(old(cells[..]), base, Occupancy(old(State()), i))
    {
      hide Table, Before, BlocksFor;
      ghost var part := Occupancy(State(), i);
      StartOf(blocks, total, bt, i);
      for o := 0 to blocks[i].n
        invariant forall c :: 0 <= c < cells.Length ==>
                  cells[c] == if base <= c < base + o then part[c - base] else old(cells[..])[c]
      {
        var r := blocks[i].start + o;
        cells[base + o] := Live(r, if r < |rowPos| then rowPos[r] else 0);
        assert cells[base + o] == part[o];
      }
    }

    /** What the placement loop of a re-layout has done for the first k residents of p. */
    ghost predicate LaidTo(p: Pool, items: seq<nat>, k: nat)
      requires Shaped(p) && items == Items(p.own) && k <= |items|
      reads this, cells, kv
    {
      && Formed() && bt == p.bt && nSlots == p.nSlots && kvSize == p.kvSize && total == p.total && raw == p.raw &&
          rowPos == p.rowPos
      && OwnAt(p, Infos(blocks), k) && free == DownTo(nSlots, k) && epoch == p.epoch + 1 + |ColdOnes(p, items, k)|
      && CellsAt(p, items, cells[..], k) && KvAt(p, items, kv[..], |items|, k)
    }

    /** Fill the cells of the k-th resident at its new slot: its bytes are there already if it was live,
        else they come from its packed rows. */
    method FillItem(i: nat, slot: nat, hot: bool, ghost p: Pool)
      requires Formed() && Shaped(p) && i < |blocks| && |p.own| == |blocks| && hot == HeadLive(p, i)
      requires bt == p.bt && total == p.total && raw == p.raw && rowPos == p.rowPos
      requires Before(slot, bt) + bt <= kvSize && Before(slot, bt) >= 0 && Len(p, i) <= bt
      modifies this`epoch, cells, kv
      ensures cells[..] == Pasted(old(cells[..]), Before(slot, bt), Occupied(p, i))
      ensures kv[..] == Pasted(old(kv[..]), Before(slot, bt), Restored(p, i))
      ensures epoch == old(epoch) + if !HeadLive(p, i) && i in p.raw then 1 else 0
    {
      hide Table, Before, BlocksFor, HeadLive, Partition;
      StartOf(blocks, total, bt, i);
      OccupancySame(p, State(), i);
      IsMul(slot, bt);
      PastedNothing(cells[..], Before(slot, bt));
      PastedNothing(kv[..], Before(slot, bt));
      if hot {
        OccupyCells(i, slot * bt);
      } else if i in raw {
        epoch := epoch + 1;
        OccupyCells(i, slot * bt);
        if |raw[i]| >= blocks[i].n {
          PasteBytes(slot * bt, raw[i][..blocks[i].n]);
        }
      }
    }

    /** Give the k-th resident slot k, and fill its cells. */
    method PlaceItem(items: seq<nat>, k: nat, hot: bool, ghost p: Pool)
      requires SlotPool.Valid(p) && p.kvSize == Before(p.nSlots, p.bt) && items == Items(p.own) && k < |items|
      requires LaidTo(p, items, k) && hot == HeadLive(p, items[k])
      modifies this`blocks, this`free, this`epoch, cells, kv
      ensures LaidTo(p, items, k + 1)
    {
      hide Table, Before, BlocksFor, Partition, HeadLive, OwnAt, CellsAt, KvAt, ColdOnes, LaidOutCell, LaidOutBytes,
          Occupied, Restored;
      var i := items[k];
      TargetInside(p, k);
      LenFits(p, i);
      OwnSize(p, Infos(blocks), k);
      DownToTop(nSlots, k);
      PlaceStep(p, Infos(blocks), k);
      OccupyStep(p, items, cells[..], k);
      ColdStep(p, items, kv[..], k);
      ColdNext(p, items, k);
      var slot := AllocSlot();
      LastOf(free, slot, DownTo(nSlots, k + 1), k);
      SetSlot(i, slot);
      FillItem(i, slot, hot, p);
    }

    /** Everything before the placement loop: gather and scatter live rows, clear the residents' cells, and
        take all slots back. */
    method StartLayout(items: seq<nat>) returns (hot: seq<bool>)
      requires Valid() && kvSize == Before(nSlots, bt) && items == Items(Infos(blocks))
      modifies this`epoch, this`blocks, this`free, cells, kv
      ensures |hot| == |items| && forall k :: 0 <= k < |items| ==> hot[k] == HeadLive(old(State()), items[k])
      ensures LaidTo(old(State()), items, 0)
    {
      hide Table, Before, BlocksFor, Partition, HeadLive, OwnAt, CellsAt, KvAt, ColdOnes, LaidOutCell, LaidOutBytes,
          KillBlocks, Gathered;
      ghost var p := State();
      var scratch;
      scratch, hot := Gather(items);
      Scatter(items, scratch, p);
      KillSame(p, State(), set i | i in items);
      RemoveRowsOf(set i | i in items);
      OwnSame(p, State(), 0);
      ReleaseSlots(items);
      ResetSlots();
      epoch := epoch + 1;
      CellsStart(p, items);
      ColdNone(p, items);
    }

    /** Pack the residents into slots 0, 1, ... in row order: gather, scatter, clear, and place. Nothing
        happens if they are there already. */
    method LayoutGpuSlots() returns (moved: bool)
      requires Valid() && kvSize == Before(nSlots, bt)
      modifies this, cells, kv
      ensures Valid() && State() == Layout(old(State())) && moved == Moves(old(State()))
    {
      hide Table, Before, BlocksFor, Partition, HeadLive, OwnAt, CellsAt, KvAt, ColdOnes, LaidOutCell, LaidOutBytes,
          KillBlocks, Layout, SlotsInOrder, Rewritten;
      ghost var p := State();
      var items := ResidentIds();
      var sorted := InOrder(items);
      LayoutValid(p);
      if items == [] || sorted {
        LayoutIdle(p);
        return false;
      }
      var hot := StartLayout(items);
      for k := 0 to |items|
        invariant LaidTo(p, items, k)
        modifies this`blocks, this`free, this`epoch, cells, kv
      {
        PlaceItem(items, k, hot[k], p);
      }
      ColdAll(p, items);
      KvDone(p, items, kv[..]);
      CellsDone(p, items, cells[..]);
      PlaceDone(p, Infos(blocks));
      LayoutParts(p, State(), items);
      return true;
    }

    // ----- Retrieval and rollback -----

    /** Restore a resident block from its packed rows, if the store knows the block. */
    method WriteBlockToGpu(i: nat)
      requires Valid() && kvSize == Before(nSlots, bt) && i < |blocks|
      modifies this`epoch, cells, kv
      ensures Valid() && State() == WriteBlock(old(State()), i)
    {
      hide Table, Before, BlocksFor, Partition, WriteBlock;
      ghost var p := State();
      if blocks[i].at.slot < 0 || i !in raw {
        WriteBlockIdle(p, i);
        return;
      }
      WholeSlot(p, i);
      StartOf(blocks, total, bt, i);
      IsMul(blocks[i].at.slot, bt);
      var base := blocks[i].at.slot * bt;
      WriteBlockIs(p, i);
      epoch := epoch + 1;
      OccupancySame(p, State(), i);
      OccupyCells(i, base);
      if |raw[i]| >= blocks[i].n {
        PasteBytes(base, raw[i][..blocks[i].n]);
      }
    }

    method WriteColdBlocks(ids: set<nat>)
      requires Valid() && kvSize == Before(nSlots, bt)
      modifies this`epoch, cells, kv
      ensures Valid() && State() == WriteCold(old(State()), ids, |blocks|)
    {
      hide Table, Before, BlocksFor, Partition, WriteBlock, HeadLive;
      for k := 0 to |blocks|
        invariant Valid() && State() == WriteCold(old(State()), ids, k)
      {
        if k in ids {
          var live := AlreadyResident(k);
          if !live {
            WriteBlockToGpu(k);
          }
        }
      }
    }

    /** Apply a selection previewed for the present epoch and rows; a stale one is refused. */
    method ApplySelectionToKv(sel: Selection) returns (ok: bool)
      requires Valid() && kvSize == Before(nSlots, bt)
      modifies this, cells, kv
      ensures Valid() && State() == Select(old(State()), sel)
      ensures ok <==> sel.epoch == old(epoch) && sel.rows == old(total)
    {
      hide Table, Before, BlocksFor, Partition, ApplyPlan, WriteCold, Layout, SlotsInOrder;
      if sel.epoch != epoch || sel.rows != total {
        return false;
      }
      ghost var p := State();
      var ids := Ids(sel.blocks);
      var ins := Incoming(State(), ids);
      ApplyPlanToKv(ids);
      PlanShape(p, ids);
      pinned := true;
      ghost var planned := State();
      var moved := LayoutGpuSlots();
      LayoutIdleAlso(planned);
      if !moved {
        WriteColdBlocks(ins);
      }
      return true;
    }

    /** truncate_cached: keep the first t rows of the positions, the packed rows and the block table. */
    method TruncateCached(t: nat)
      requires Valid()
      modifies this
      ensures Valid() && State() == Cut(old(State()), t)
    {
      hide Table, Before, BlocksFor, Partition, CutRaw;
      if t >= total {
        return;
      }
      CutValid(State(), t);
      epoch := epoch + 1;
      if |rowPos| > t {
        rowPos := rowPos[..t];
      }
      raw := CutRaw(raw, t, bt);
      TruncateTo(t);
    }
  }

  /** The ids name blocks below k. */
  ghost predicate InBlocks(ids: seq<nat>, k: nat) {
    forall i :: 0 <= i < |ids| ==> ids[i] < k
  }

  ghost predicate CoveredBy(p: Pool, canonical: bool, ids: seq<nat>)
    requires p.bt > 0 && InBlocks(ids, |p.own|)
  {
    Covered(p, canonical, ids)
  }

  lemma CoveredIs(p: Pool, canonical: bool, ids: seq<nat>)
    requires p.bt > 0 && InBlocks(ids, |p.own|)
    ensures CoveredBy(p, canonical, ids) == Covered(p, canonical, ids)
  {
  }

  lemma NoResidents(own: seq<Info>)
    ensures Residents(own[..0]) == []
  {
  }

  lemma ResidentsNext(own: seq<Info>, i: nat)
    requires i < |own|
    ensures Residents(own[..i + 1]) == Residents(own[..i]) + if Resident(own[i]) then [i] else []
  {
    assert own[..i + 1][..i] == own[..i];
  }

  lemma CoverNone(p: Pool, canonical: bool)
    requires p.bt > 0
    ensures CoveredBy(p, canonical, [])
  {
  }

  lemma CoverOne(p: Pool, canonical: bool, ids: seq<nat>, i: nat)
    requires p.bt > 0 && i < |p.own| && InBlocks(ids, i)
    ensures CoveredBy(p, canonical, ids + [i]) <==>
              CoveredBy(p, canonical, ids) && Complete(p, i) && (canonical ==> p.own[i].slot == |ids|)
  {
    hide Complete;
    var more := ids + [i];
    assert more[|ids|] == i;
    if CoveredBy(p, canonical, more) {
      forall k | 0 <= k < |ids| ensures Complete(p, ids[k]) && (canonical ==> p.own[ids[k]].slot == k) {
        assert more[k] == ids[k];
      }
    }
  }
}
