/** The bounded GPU slot pool as a value: a logical row history cut into blocks, at most one slot of
    `bt` cells per block, and every operation that appends to, re-places or drops it. */
module SlotPool {
  import opened Arith
  import opened SlotTable

  /** K/V bytes of one row; nothing is known about them. A row position is a code whose default,
      for rows never recorded, is 0. */
  type Bytes(==, 0, !new)
  type Position = int

  datatype Option<T> = None | Some(value: T)

  /** One cache cell: empty, or live for a logical row. */
  datatype Cell = Empty | Live(row: nat, pos: Position)

  /** `own[i]` places block i, which holds rows [i * bt, i * bt + Len(i)). `free` is a stack with
      its top at the end. `cells` says what each cell is live for and `kv` what bytes it holds.
      `rowPos` is the position recorded for each row, `raw` the packed rows saved per block. */
  datatype Pool = Pool(
    bt: nat, nSlots: nat, kvSize: nat, highWater: nat,
    total: nat, own: seq<Info>, free: seq<int>,
    cells: seq<Cell>, kv: seq<Bytes>, rowPos: seq<Position>, raw: map<nat, seq<Bytes>>,
    epoch: nat, replay: bool, pinned: bool, keep: bool)

  /** The shape every reachable state has, besides the slot partition. */
  ghost predicate Shaped(p: Pool) {
    && p.bt > 0 && |p.own| == BlocksFor(p.total, p.bt)
    && |p.cells| == |p.kv| == p.kvSize <= Before(p.nSlots, p.bt)
    && (forall i :: 0 <= i < |p.own| && Resident(p.own[i]) ==> p.own[i].onGpu)
  }

  ghost predicate Valid(p: Pool) {
    Shaped(p) && Partition(p.own, p.free, p.nSlots)
  }

  /** Rows of block i when t rows are stored. */
  function RowsOf(t: nat, i: nat, bt: nat): (n: nat) {
    var left := t - Before(i, bt);
    if left <= 0 then 0 else if left < bt then left else bt
  }

  function Len(p: Pool, i: nat): (n: nat) {
    RowsOf(p.total, i, p.bt)
  }

  lemma LenPositive(p: Pool, i: nat)
    requires p.bt > 0 && i < BlocksFor(p.total, p.bt)
    ensures 0 < Len(p, i) <= p.bt && Before(i, p.bt) + Len(p, i) <= p.total
  {
    BlocksForCovers(p.total, p.bt, i);
  }

  /** The cell that row r occupies under the current placement. */
  function CellOf(p: Pool, r: nat): int
    requires p.bt > 0 && BlockOf(r, p.bt) < |p.own|
  {
    Before(p.own[BlockOf(r, p.bt)].slot, p.bt) + OffsetOf(r, p.bt)
  }

  function PosOf(p: Pool, r: nat): Position {
    if r < |p.rowPos| then p.rowPos[r] else 0
  }

  // ----- Append and truncate the block table -----

  /** Append n rows: the partial tail grows in place, new blocks start without a slot. */
  function Append(p: Pool, n: nat): (q: Pool)
    requires p.bt > 0 && |p.own| == BlocksFor(p.total, p.bt)
    ensures q == p.(total := p.total + n, own := q.own)
    ensures |q.own| == BlocksFor(q.total, p.bt) && p.own <= q.own
    ensures forall i :: |p.own| <= i < |q.own| ==> q.own[i] == NEW_BLOCK
  {
    BlocksForMono(p.total, p.total + n, p.bt);
    p.(total := p.total + n,
       own := p.own + seq(BlocksFor(p.total + n, p.bt) - |p.own|, _ => NEW_BLOCK))
  }

  /** Keep the first t rows; slots of dropped blocks return to the stack. */
  function Truncate(p: Pool, t: nat): (q: Pool)
    requires p.bt > 0 && |p.own| == BlocksFor(p.total, p.bt)
    ensures q == p.(total := q.total, own := q.own, free := q.free)
    ensures q.total == (if t < p.total then t else p.total) && |q.own| == BlocksFor(q.total, p.bt)
    ensures q.own <= p.own
  {
    if t >= p.total then p else
      BlocksForMono(t, p.total, p.bt);
      p.(total := t, own := p.own[..BlocksFor(t, p.bt)],
         free := p.free + Popped(p.own, BlocksFor(t, p.bt)))
  }

  // ----- Cells -----

  /** Cells of rows in [lo, hi) become empty. */
  function KillRows(cells: seq<Cell>, lo: int, hi: int): (r: seq<Cell>)
    ensures |r| == |cells|
  {
    seq(|cells|, c requires 0 <= c < |cells| =>
      if cells[c].Live? && lo <= cells[c].row < hi then Empty else cells[c])
  }

  /** Cells of rows of blocks in `ids` become empty. */
  function KillBlocks(p: Pool, ids: set<nat>): (r: seq<Cell>)
    requires p.bt > 0
    ensures |r| == |p.cells|
  {
    seq(|p.cells|, c requires 0 <= c < |p.cells| =>
      if p.cells[c].Live? && p.cells[c].row < p.total && BlockOf(p.cells[c].row, p.bt) in ids then Empty
          else p.cells[c])
  }

  /** The first cell of block i is live for the block's first row. */
  predicate HeadLive(p: Pool, i: nat)
    requires i < |p.own| && |p.cells| == p.kvSize
  {
    && Resident(p.own[i]) && Before(p.own[i].slot, p.bt) < p.kvSize
    && p.own[i].slot >= 0 && Before(p.own[i].slot, p.bt) >= 0
    && p.cells[Before(p.own[i].slot, p.bt)].Live? && p.cells[Before(p.own[i].slot, p.bt)].row == Before(i, p.bt)
  }

  // ----- Selection plans -----

  /** Blocks that a plan for `sel` moves off the GPU, and blocks it brings into the working set. */
  function Outgoing(p: Pool, sel: set<nat>): set<nat> {
    set i: nat | i < |p.own| && p.own[i].onGpu && i !in sel
  }

  function Incoming(p: Pool, sel: set<nat>): set<nat> {
    set i: nat | i < |p.own| && i in sel && !p.own[i].inSet
  }

  /** Save block i's packed rows from its cells, unless saved already or its first cell is empty. */
  function Harvest(p: Pool, i: nat): Pool
    requires Shaped(p) && i < |p.own|
  {
    var s := p.own[i].slot;
    if s < 0 || Before(s, p.bt) >= p.kvSize || !p.cells[Before(s, p.bt)].Live? then p else
      var n := if p.kvSize - Before(s, p.bt) < Len(p, i) then p.kvSize - Before(s, p.bt) else Len(p, i);
      if i in p.raw && |p.raw[i]| >= n then p
      else p.(raw := p.raw[i := p.kv[Before(s, p.bt) .. Before(s, p.bt) + n]])
  }

  function HarvestAll(p: Pool, ids: set<nat>, k: nat): (q: Pool)
    requires Shaped(p) && k <= |p.own|
    ensures q == p.(raw := q.raw)
  {
    if k == 0 then p else
      var q := HarvestAll(p, ids, k - 1);
      if k - 1 in ids then Harvest(q, k - 1) else q
  }

  /** Placement after a plan: outgoing blocks give up their slots before incoming blocks take any. */
  function Replace(own: seq<Info>, free: seq<int>, sel: set<nat>, ins: set<nat>): (r: (seq<Info>, seq<int>))
    ensures |r.0| == |own|
  {
    var (placed, free') := Assign(Marked(own, sel), free + Freed(own, sel), ins, 0);
    (OnGpu(placed, ins), free')
  }

  function OnGpu(own: seq<Info>, ids: set<nat>): (own': seq<Info>)
    ensures |own'| == |own|
    ensures forall i :: 0 <= i < |own| ==> own'[i] == if i in ids then own[i].(onGpu := true) else own[i]
  {
    seq(|own|, i requires 0 <= i < |own| => if i in ids then own[i].(onGpu := true) else own[i])
  }

  /** Apply a selection plan: save and clear outgoing blocks, free their slots, admit incoming ones. */
  function ApplyPlan(p: Pool, sel: set<nat>): Pool
    requires Shaped(p)
  {
    var outs, ins := Outgoing(p, sel), Incoming(p, sel);
    var (own', free') := Replace(p.own, p.free, sel, ins);
    p.(epoch := if outs == {} && ins == {} then p.epoch else p.epoch + 1,
       raw := HarvestAll(p, outs, |p.own|).raw,
       cells := KillBlocks(p, outs), own := own', free := free')
  }

  // ----- Appending a batch -----

  function ResidentRows(p: Pool, k: nat): nat
    requires k <= |p.own|
  {
    if k == 0 then 0 else ResidentRows(p, k - 1) + if Resident(p.own[k - 1]) then Len(p, k - 1) else 0
  }

  /** Whether n more rows would pass the pool size or its high watermark. */
  predicate NeedsOffload(p: Pool, resident: nat, n: nat) {
    n > 0 && p.kvSize > 0 && (resident + n > p.kvSize || resident + n > p.highWater)
  }

  /** Blocks that hold rows in [t0, p.total). */
  function Touched(p: Pool, t0: nat): set<nat>
    requires p.bt > 0
  {
    set i: nat | i < |p.own| && InTail(i, BlockOf(t0, p.bt))
  }

  predicate InTail(i: nat, first: nat) { i >= first }

  predicate TailPlaced(p: Pool, t0: nat)
    requires p.bt > 0
  {
    forall i :: BlockOf(t0, p.bt) <= i < |p.own| ==> Resident(p.own[i])
  }

  /** Make room for n new rows. `pick` is what the pressure selector would choose; None stands for
      a selector that gives up. A failed call leaves the first t0 rows. */
  function Prepare(p: Pool, n: nat, pick: Option<set<nat>>): (r: (bool, Pool))
    requires Shaped(p)
    ensures r.1.bt == p.bt && |r.1.cells| == |r.1.kv|
  {
    if n == 0 || p.replay then (true, p) else
      var a := Append(p, n);
      var grown := Placed(a, p.total, n, pick);
      var q := if grown.Some? then grown.value else a;
      if grown.Some? && TailPlaced(q, p.total) then (true, q) else (false, Truncate(q, p.total))
  }

  /** Place the blocks touched by rows from t0 on, by a pressure plan or from the free stack. */
  function Placed(a: Pool, t0: nat, n: nat, pick: Option<set<nat>>): (r: Option<Pool>)
    requires Shaped(a)
    ensures r.Some? ==> |r.value.own| == |a.own| && r.value.total == a.total && r.value.bt == a.bt
    ensures r.Some? ==> |r.value.cells| == |r.value.kv|
  {
    if !(a.pinned || a.keep) && NeedsOffload(a, ResidentRows(a, |a.own|), n) then
      if pick.None? then None else Some(ApplyPlan(a, pick.value))
    else
      var (own', free') := Assign(a.own, a.free, Touched(a, t0), 0);
      Some(a.(own := own', free := free'))
  }

  /** One row of a batch: logical row, model position, and the bytes the graph computes for it. */
  datatype Row = Row(row: int, pos: Position, val: Bytes)

  /** Row r has a cell: it is stored, its block is resident, and the cell is inside the cache. */
  predicate Mapped(p: Pool, r: int)
    requires p.bt > 0
  {
    && 0 <= r < p.total && BlockOf(r, p.bt) < |p.own| && Resident(p.own[BlockOf(r, p.bt)])
    && CellOf(p, r) < p.kvSize
  }

  /** The cells of a batch, or nothing if some row has none. */
  function FillSlots(p: Pool, batch: seq<Row>): (r: Option<seq<nat>>)
    requires p.bt > 0
    ensures r.Some? ==> |r.value| == |batch|
  {
    if batch != [] && forall k :: 0 <= k < |batch| ==> Mapped(p, batch[k].row) then
      Some(seq(|batch|, k requires 0 <= k < |batch| && Mapped(p, batch[k].row) =>
        CellIsNat(p, batch[k].row); CellOf(p, batch[k].row)))
    else None
  }

  lemma CellIsNat(p: Pool, r: nat)
    requires p.bt > 0 && BlockOf(r, p.bt) < |p.own| && Resident(p.own[BlockOf(r, p.bt)])
    ensures CellOf(p, r) >= 0
  {
    BeforeMono(0, p.own[BlockOf(r, p.bt)].slot, p.bt);
  }

  /** Record positions row by row; a row that is not stored stops the batch. */
  function RecordPositions(rowPos: seq<Position>, total: nat, batch: seq<Row>): (r: (bool, seq<Position>))
    ensures |r.1| >= |rowPos|
  {
    if batch == [] then (true, rowPos) else
      var (ok, before) := RecordPositions(rowPos, total, batch[..|batch| - 1]);
      var last := batch[|batch| - 1];
      if !ok || last.row < 0 || last.row >= total then (false, before)
      else (true, Extend(before, last.row + 1)[last.row := last.pos])
  }

  function Extend(rowPos: seq<Position>, n: nat): (r: seq<Position>)
    ensures |r| >= n && |r| >= |rowPos| && r[..|rowPos|] == rowPos
  {
    if |rowPos| >= n then rowPos else
      rowPos + seq(n - |rowPos|, _ => 0)
  }

  /** Write a batch to its cells. */
  function WriteCells(cells: seq<Cell>, kv: seq<Bytes>, batch: seq<Row>, idx: seq<nat>): (r: (seq<Cell>, seq<Bytes>))
    requires |idx| == |batch| && |cells| == |kv|
    ensures |r.0| == |r.1| == |cells|
  {
    if batch == [] then (cells, kv) else
      var n := |batch| - 1;
      var (c, v) := WriteCells(cells, kv, batch[..n], idx[..n]);
      if idx[n] < |c| && batch[n].row >= 0 then
        (c[idx[n] := Live(batch[n].row, batch[n].pos)], v[idx[n] := batch[n].val])
      else (c, v)
  }

  predicate Rewrites(p: Pool, batch: seq<Row>) {
    exists k :: 0 <= k < |batch| && 0 <= batch[k].row < p.total
  }

  /** Record a batch's positions and write it to its cells, once room for it was made. */
  function Store(p: Pool, batch: seq<Row>): (q: Pool)
    requires p.bt > 0 && |p.cells| == |p.kv|
    ensures q == p.(rowPos := q.rowPos, cells := q.cells, kv := q.kv)
    ensures |q.cells| == |q.kv| == |p.cells|
  {
    var (known, rowPos) := RecordPositions(p.rowPos, p.total, batch);
    var idx := FillSlots(p, batch);
    if !known || idx.None? then p.(rowPos := rowPos) else
      var (cells, kv) := WriteCells(p.cells, p.kv, batch, idx.value);
      p.(rowPos := rowPos, cells := cells, kv := kv)
  }

  /** The epoch moves before anything else if an old row is about to be rewritten. */
  function Noted(p: Pool, batch: seq<Row>): Pool {
    if Rewrites(p, batch) then p.(epoch := p.epoch + 1) else p
  }

  /** Prepare and decode one batch. */
  function Decode(p: Pool, batch: seq<Row>, pick: Option<set<nat>>): Pool
    requires Shaped(p)
  {
    var (ok, q) := Prepare(Noted(p, batch), |batch|, pick);
    if ok then Store(q, batch) else q
  }

  // ----- Re-layout -----

  /** Slot i of the packed placement goes to the i-th resident. */
  function PackedOwn(own: seq<Info>): (own': seq<Info>)
    ensures |own'| == |own|
    ensures forall i :: 0 <= i < |own| ==>
              own'[i] == if Resident(own[i]) then own[i].(slot := RankOf(own, i), onGpu := true) else own[i]
  {
    seq(|own|, i requires 0 <= i < |own| =>
      if Resident(own[i]) then own[i].(slot := RankOf(own, i), onGpu := true) else own[i])
  }

  function RankOf(own: seq<Info>, i: nat): nat
    requires i <= |own|
  {
    |Residents(own[..i])|
  }

  predicate SlotsInOrder(own: seq<Info>) {
    forall i :: 0 <= i < |own| && Resident(own[i]) ==> own[i].slot == RankOf(own, i)
  }

  /** Whether block i's cells are live after a re-layout: copied slot to slot, or restored. */
  predicate Restorable(p: Pool, i: nat)
    requires i < |p.own| && |p.cells| == p.kvSize
  {
    HeadLive(p, i) || i in p.raw
  }

  /** The block whose rows land in cell c when residents are packed in order, if any. */
  function LandsAt(p: Pool, items: seq<nat>, c: nat): Option<nat>
    requires p.bt > 0
  {
    if BlockOf(c, p.bt) < |items| && OffsetOf(c, p.bt) < Len(p, items[BlockOf(c, p.bt)])
    then Some(items[BlockOf(c, p.bt)]) else None
  }

  function LaidOutCell(p: Pool, items: seq<nat>, c: nat): Cell
    requires Shaped(p) && c < |p.cells| && forall k :: 0 <= k < |items| ==> items[k] < |p.own|
  {
    var at := LandsAt(p, items, c);
    if at.Some? && Restorable(p, at.value) then
      Live(Before(at.value, p.bt) + OffsetOf(c, p.bt), PosOf(p, Before(at.value, p.bt) + OffsetOf(c, p.bt)))
    else KillBlocks(p, set i | i in items)[c]
  }

  function LaidOutBytes(p: Pool, items: seq<nat>, c: nat): Bytes
    requires Shaped(p) && c < |p.cells| && forall k :: 0 <= k < |items| ==> items[k] < |p.own|
  {
    var at := LandsAt(p, items, c);
    if at.None? then p.kv[c]
    else if HeadLive(p, at.value) then
      var src := Before(p.own[at.value].slot, p.bt) + OffsetOf(c, p.bt);
      if 0 <= src < |p.kv| then p.kv[src] else p.kv[c]
    else if at.value in p.raw && |p.raw[at.value]| >= Len(p, at.value) then p.raw[at.value][OffsetOf(c, p.bt)]
    else p.kv[c]
  }

  /** Pack residents into slots 0, 1, ... in row order; nothing happens if they are there already. */
  function Layout(p: Pool): Pool
    requires Shaped(p)
  {
    var items := Items(p.own);
    if items == [] || SlotsInOrder(p.own) then p else
      p.(epoch := p.epoch + 1 + |Rewritten(p, items)|,
         own := PackedOwn(p.own),
         free := DownTo(p.nSlots, |items|),
         cells := LaidOutCells(p, items), kv := LaidOutKv(p, items))
  }

  function Items(own: seq<Info>): (items: seq<nat>)
    ensures items == Residents(own)
    ensures forall k :: 0 <= k < |items| ==> items[k] < |own|
  {
    ResidentsAre(own);
    assert forall k :: 0 <= k < |Residents(own)| ==> Residents(own)[k] in Residents(own);
    Residents(own)
  }

  function LaidOutCells(p: Pool, items: seq<nat>): (cells: seq<Cell>)
    requires Shaped(p) && forall k :: 0 <= k < |items| ==> items[k] < |p.own|
    ensures |cells| == |p.cells| && forall c :: 0 <= c < |cells| ==> cells[c] == LaidOutCell(p, items, c)
  {
    seq(|p.cells|, c requires 0 <= c < |p.cells| => LaidOutCell(p, items, c))
  }

  function LaidOutKv(p: Pool, items: seq<nat>): (kv: seq<Bytes>)
    requires Shaped(p) && forall k :: 0 <= k < |items| ==> items[k] < |p.own|
    ensures |kv| == |p.kv| && forall c :: 0 <= c < |kv| ==> kv[c] == LaidOutBytes(p, items, c)
  {
    seq(|p.kv|, c requires 0 <= c < |p.kv| => LaidOutBytes(p, items, c))
  }

  function Rewritten(p: Pool, items: seq<nat>): set<nat>
    requires |p.cells| == p.kvSize && forall k :: 0 <= k < |items| ==> items[k] < |p.own|
  {
    set i | i in items && !HeadLive(p, i) && i in p.raw
  }

  /** The free stack after a reset from which the first k slots were taken: n-1 down to k. */
  function DownTo(n: nat, k: nat): (s: seq<int>)
    ensures |s| == if n >= k then n - k else 0
    ensures forall j :: 0 <= j < |s| ==> s[j] == n - 1 - j
  {
    if n <= k then [] else seq(n - k, j => n - 1 - j)
  }

  // ----- Restoring cold blocks in place -----

  /** Restore a resident block from its packed rows, if the store knows the block. */
  function WriteBlock(p: Pool, i: nat): (q: Pool)
    requires Shaped(p) && i < |p.own|
    ensures Shaped(q) && q == p.(epoch := q.epoch, cells := q.cells, kv := q.kv)
  {
    if !Resident(p.own[i]) || i !in p.raw then p else
      var base := Before(p.own[i].slot, p.bt);
      var full := |p.raw[i]| >= Len(p, i);
      p.(epoch := p.epoch + 1,
         cells := seq(|p.cells|, c requires 0 <= c < |p.cells| =>
           if base <= c < base + Len(p, i)
           then Live(Before(i, p.bt) + (c - base), PosOf(p, Before(i, p.bt) + (c - base))) else p.cells[c]),
         kv := seq(|p.kv|, c requires 0 <= c < |p.kv| =>
           if full && base <= c < base + Len(p, i) then p.raw[i][c - base] else p.kv[c]))
  }

  function WriteCold(p: Pool, ids: set<nat>, k: nat): (q: Pool)
    requires Shaped(p) && k <= |p.own|
    ensures Shaped(q) && q == p.(epoch := q.epoch, cells := q.cells, kv := q.kv)
  {
    if k == 0 then p else
      var q := WriteCold(p, ids, k - 1);
      if k - 1 in ids && !HeadLive(q, k - 1) then WriteBlock(q, k - 1) else q
  }
}
