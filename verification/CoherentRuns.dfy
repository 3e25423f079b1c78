/** The coherence invariant through every operation of a serving run. */
module CoherentRuns {
  import opened Arith
  import opened SlotTable
  import opened SlotPool
  import opened Runs
  import opened Coherence
  import opened Relayout

  // ----- Selection plans -----

  /** From p to q the blocks in `outs` lost their slots and their cells, other residents stayed put,
      and other blocks may have gained slots. */
  ghost predicate Swapped(p: Pool, q: Pool, outs: set<nat>) {
    && p.bt > 0 && q.bt == p.bt && q.nSlots == p.nSlots && q.kvSize == p.kvSize && q.total == p.total && q.kv == p.kv
    && |q.own| == |p.own| && q.cells == KillBlocks(p, outs)
    && (forall i :: 0 <= i < |p.own| && Resident(p.own[i]) && i !in outs ==> q.own[i].slot == p.own[i].slot)
    && (forall i :: 0 <= i < |p.own| && i in outs ==> !Resident(q.own[i]))
  }

  lemma PlanSwaps(p: Pool, sel: set<nat>)
    requires Valid(p)
    ensures Swapped(p, ApplyPlan(p, sel), Outgoing(p, sel))
  {
    var outs, q := Outgoing(p, sel), ApplyPlan(p, sel);
    ReplaceFacts(p.own, p.free, p.nSlots, sel, Incoming(p, sel));
    forall i | 0 <= i < |p.own| && Resident(p.own[i]) && i !in outs ensures q.own[i].slot == p.own[i].slot {
      assert i in sel;
    }
  }

  lemma SwappedSound(p: Pool, q: Pool, h: History, u: nat, outs: set<nat>, c: nat)
    requires Coherent(p, h, u) && Swapped(p, q, outs) && c < |q.cells| && q.cells[c].Live?
    ensures Sound(q, h, u, c)
  {
    assert Sound(p, h, u, c);
  }

  /** A head live after the swap was live before it, in the same slot. */
  lemma SwappedHead(p: Pool, q: Pool, h: History, u: nat, outs: set<nat>, i: nat)
    requires Coherent(p, h, u) && Valid(q) && Swapped(p, q, outs) && i < |p.own| && HeadLive(q, i)
    ensures HeadLive(p, i) && i !in outs && q.own[i].slot == p.own[i].slot
  {
    assert Sound(p, h, u, Before(q.own[i].slot, q.bt));
    RowUnique(i, 0, p.bt);
  }

  lemma SwappedLive(p: Pool, q: Pool, outs: set<nat>, i: nat, o: nat)
    requires Shaped(p) && Swapped(p, q, outs) && i < |p.own| && Resident(p.own[i]) && i !in outs
    requires o < p.bt && LiveAt(p, i, o)
    ensures LiveAt(q, i, o)
  {
    RowUnique(i, o, p.bt);
  }

  lemma SwappedFound(p: Pool, q: Pool, h: History, u: nat, outs: set<nat>, i: nat)
    requires Coherent(p, h, u) && Valid(q) && Swapped(p, q, outs) && i < |p.own|
    requires i in p.raw ==> Saved(q, i, |p.raw[i]|)
    requires i in outs && HeadLive(p, i) ==> Saved(q, i, Done(p, u, i))
    ensures Found(q, u, i)
  {
    assert Found(p, u, i);
    if HeadLive(q, i) {
      SwappedHead(p, q, h, u, outs, i);
      forall o | 0 <= o < Done(q, u, i) ensures LiveAt(q, i, o) {
        assert LiveAt(p, i, o);
        SwappedLive(p, q, outs, i, o);
      }
    } else if HeadLive(p, i) && i !in outs && Done(q, u, i) > 0 {
      assert LiveAt(p, i, 0);
      SwappedLive(p, q, outs, i, 0);
    }
  }

  /** Outgoing blocks are packed, incoming blocks get empty cells, the others stand. */
  lemma PlanCoherent(p: Pool, h: History, u: nat, sel: set<nat>)
    requires Coherent(p, h, u)
    requires AllPackable(p, u, Outgoing(p, sel))
    ensures Coherent(ApplyPlan(p, sel), h, u)
  {
    hide Before, BlockOf, OffsetOf, BlocksFor;
    var outs, q := Outgoing(p, sel), ApplyPlan(p, sel);
    PlanValid(p, sel);
    PlanSwaps(p, sel);
    HarvestAllCoherent(p, h, u, outs, |p.own|);
    HarvestAllKeepsRaw(p, outs, |p.own|);
    forall c | 0 <= c < |q.cells| && q.cells[c].Live? ensures Sound(q, h, u, c) {
      SwappedSound(p, q, h, u, outs, c);
    }
    forall i | 0 <= i < |q.own| ensures Found(q, u, i) {
      if i in outs && HeadLive(p, i) {
        assert Packable(p, u, i);
        HarvestAllSaves(p, h, u, outs, |p.own|, i);
      }
      SwappedFound(p, q, h, u, outs, i);
    }
    forall i | i in q.raw ensures Packed(q, h, u, i) {
      assert Packed(HarvestAll(p, outs, |p.own|), h, u, i);
    }
  }

  // ----- Computing rows -----

  /** The block that row u continues is live: appending to a cold partial block would split its rows
      between the GPU and the packed store. */
  predicate TailLive(p: Pool, u: nat)
    requires p.bt > 0 && |p.cells| == p.kvSize
  {
    OffsetOf(u, p.bt) == 0 || (BlockOf(u, p.bt) < |p.own| && HeadLive(p, BlockOf(u, p.bt)))
  }

  function PutRow(p: Pool, row: Row): Pool
    requires p.bt > 0 && |p.cells| == |p.kv| == p.kvSize && Mapped(p, row.row)
  {
    CellIsNat(p, row.row);
    var c := CellOf(p, row.row);
    p.(cells := p.cells[c := Live(row.row, row.pos)], kv := p.kv[c := row.val])
  }

  lemma PutRowSound(p: Pool, h: History, u: nat, row: Row, c: nat)
    requires Coherent(p, h, u) && row.row == u < p.total && Mapped(p, u)
    requires c < |p.cells| && PutRow(p, row).cells[c].Live?
    ensures Sound(PutRow(p, row), h[u := row.val], u + 1, c)
  {
    if c != CellOf(p, u) {
      assert Sound(p, h, u, c);
    }
  }

  /** The row just put is the only change a block sees. */
  lemma PutRowElsewhere(p: Pool, row: Row, i: nat, o: nat)
    requires Valid(p) && Mapped(p, row.row) && |p.kv| == |p.cells| && i < |p.own| && Resident(p.own[i]) && o < p.bt
    requires Before(i, p.bt) + o != row.row
    ensures Before(p.own[i].slot, p.bt) + o != CellOf(p, row.row)
  {
    var r := Before(i, p.bt) + o;
    RowUnique(i, o, p.bt);
    if Before(p.own[i].slot, p.bt) + o == CellOf(p, row.row) {
      CellsDistinct(p, r, row.row);
    }
  }

  /** A live row of another block stays live, and its head was live before. */
  lemma PutRowKeeps(p: Pool, row: Row, i: nat, o: nat)
    requires Valid(p) && Mapped(p, row.row) && |p.kv| == |p.cells| && i < |p.own| && Resident(p.own[i])
    requires i != BlockOf(row.row, p.bt) && o < p.bt
    ensures LiveAt(p, i, o) ==> LiveAt(PutRow(p, row), i, o)
    ensures o == 0 && HeadLive(PutRow(p, row), i) ==> HeadLive(p, i)
    ensures o == 0 && HeadLive(p, i) ==> HeadLive(PutRow(p, row), i)
  {
    RowUnique(i, o, p.bt);
    PutRowElsewhere(p, row, i, o);
  }

  /** Other blocks are as they were. */
  lemma PutRowOthers(p: Pool, h: History, u: nat, row: Row, i: nat)
    requires Coherent(p, h, u) && row.row == u < p.total && Mapped(p, u) && i < |p.own| && i != BlockOf(u, p.bt)
    ensures Found(PutRow(p, row), u + 1, i)
  {
    var q, n := PutRow(p, row), Done(p, u, i);
    assert Found(p, u, i);
    DoneElsewhere(p, u, i);
    if Resident(p.own[i]) {
      PutRowKeeps(p, row, i, 0);
      forall o | 0 <= o < n && HeadLive(q, i) ensures LiveAt(q, i, o) {
        assert LiveAt(p, i, o);
        PutRowKeeps(p, row, i, o);
      }
    }
  }

  /** The block of the row is live with it. */
  lemma PutRowBlock(p: Pool, h: History, u: nat, row: Row)
    requires Coherent(p, h, u) && row.row == u < p.total && Mapped(p, u) && TailLive(p, u)
    ensures var i := BlockOf(u, p.bt); HeadLive(PutRow(p, row), i) && Found(PutRow(p, row), u + 1, i)
  {
    var q, i := PutRow(p, row), BlockOf(u, p.bt);
    assert Found(p, u, i);
    RowSplit(u, p.bt);
    if OffsetOf(u, p.bt) > 0 {
      PutRowElsewhere(p, row, i, 0);
    }
    forall o | 0 <= o < Done(q, u + 1, i) ensures LiveAt(q, i, o) {
      if o < OffsetOf(u, p.bt) {
        PutRowElsewhere(p, row, i, o);
        assert LiveAt(p, i, o);
      }
    }
  }

  lemma PutRowFound(p: Pool, h: History, u: nat, row: Row, i: nat)
    requires Coherent(p, h, u) && row.row == u < p.total && Mapped(p, u) && TailLive(p, u) && i < |p.own|
    ensures Found(PutRow(p, row), u + 1, i)
    ensures i == BlockOf(u, p.bt) ==> HeadLive(PutRow(p, row), i)
  {
    if i == BlockOf(u, p.bt) {
      PutRowBlock(p, h, u, row);
    } else {
      PutRowOthers(p, h, u, row, i);
    }
  }

  lemma DoneElsewhere(p: Pool, u: nat, i: nat)
    requires p.bt > 0 && u < p.total && i != BlockOf(u, p.bt)
    ensures Done(p, u + 1, i) == Done(p, u, i)
  {
    RowSplit(u, p.bt);
    BeforeMono(i, BlockOf(u, p.bt), p.bt);
    BeforeMono(BlockOf(u, p.bt), i, p.bt);
  }

  lemma TailNext(u: nat, bt: nat)
    requires bt > 0
    ensures OffsetOf(u + 1, bt) == 0 || (BlockOf(u + 1, bt) == BlockOf(u, bt) && OffsetOf(u + 1, bt) > 0)
  {
    RowSplit(u, bt);
    var q, o := BlockOf(u, bt), OffsetOf(u, bt);
    if o + 1 < bt {
      RowUnique(q, o + 1, bt);
    } else {
      BeforeShift(q, bt);
      RowUnique(q + 1, 0, bt);
    }
  }

  /** Computing the next row and writing it to its cell extends the coherent rows by one. */
  lemma PutRowCoherent(p: Pool, h: History, u: nat, row: Row)
    requires Coherent(p, h, u) && row.row == u < p.total && Mapped(p, u) && TailLive(p, u)
    ensures Coherent(PutRow(p, row), h[u := row.val], u + 1) && TailLive(PutRow(p, row), u + 1)
  {
    var q, h', v := PutRow(p, row), h[u := row.val], u + 1;
    forall c | 0 <= c < |q.cells| && q.cells[c].Live? ensures Sound(q, h', v, c) {
      PutRowSound(p, h, u, row, c);
    }
    forall i | 0 <= i < |q.own| ensures Found(q, v, i) {
      PutRowFound(p, h, u, row, i);
    }
    forall i | i in q.raw ensures Packed(q, h', v, i) {
      assert Packed(p, h, u, i);
    }
    PutRowFound(p, h, u, row, BlockOf(u, p.bt));
    TailNext(u, p.bt);
  }

  /** Rows of a batch that continues at row u. */
  ghost predicate ContinuesAt(batch: seq<Row>, u: nat) {
    forall k :: 0 <= k < |batch| ==> batch[k].row == u + k
  }

  ghost predicate AllMapped(p: Pool, batch: seq<Row>)
    requires p.bt > 0
  {
    forall k :: 0 <= k < |batch| ==> Mapped(p, batch[k].row)
  }

  ghost function Learned(h: History, batch: seq<Row>): History {
    if batch == [] then h else
      var last := batch[|batch| - 1];
      if last.row < 0 then Learned(h, batch[..|batch| - 1])
      else Learned(h, batch[..|batch| - 1])[last.row as nat := last.val]
  }

  ghost function PutRows(p: Pool, batch: seq<Row>): (q: Pool)
    requires p.bt > 0 && |p.cells| == |p.kv| == p.kvSize && AllMapped(p, batch)
    ensures q == p.(cells := q.cells, kv := q.kv) && |q.cells| == |q.kv| == |p.cells|
  {
    if batch == [] then p else
      var q := PutRows(p, batch[..|batch| - 1]);
      assert Mapped(p, batch[|batch| - 1].row);
      PutRow(q, batch[|batch| - 1])
  }

  lemma {:induction false} WriteIsPut(p: Pool, batch: seq<Row>, idx: seq<nat>)
    requires p.bt > 0 && |p.cells| == |p.kv| == p.kvSize && AllMapped(p, batch)
    requires |idx| == |batch| && forall k :: 0 <= k < |batch| ==> idx[k] == CellOf(p, batch[k].row)
    ensures WriteCells(p.cells, p.kv, batch, idx) == (PutRows(p, batch).cells, PutRows(p, batch).kv)
  {
    if batch != [] {
      var n := |batch| - 1;
      WriteIsPut(p, batch[..n], idx[..n]);
      assert Mapped(p, batch[n].row);
    }
  }

  lemma FrontContinues(p: Pool, batch: seq<Row>, u: nat)
    requires p.bt > 0 && batch != [] && ContinuesAt(batch, u) && AllMapped(p, batch)
    ensures var n := |batch| - 1;
      ContinuesAt(batch[..n], u) && AllMapped(p, batch[..n]) && batch[n].row == u + n && Mapped(p, u + n)
  {
    var n := |batch| - 1;
    assert Mapped(p, batch[n].row);
    forall k | 0 <= k < n ensures batch[..n][k].row == u + k && Mapped(p, batch[..n][k].row) {
      assert Mapped(p, batch[k].row);
    }
  }

  lemma {:induction false} PutRowsCoherent(p: Pool, h: History, u: nat, batch: seq<Row>)
    requires Coherent(p, h, u) && ContinuesAt(batch, u) && u + |batch| <= p.total
    requires AllMapped(p, batch) && TailLive(p, u)
    ensures Coherent(PutRows(p, batch), Learned(h, batch), u + |batch|)
    ensures TailLive(PutRows(p, batch), u + |batch|)
  {
    hide Before, BlockOf, OffsetOf, BlocksFor, Found, Sound, Packed, Partition, TailLive, PutRow, ContinuesAt;
    if batch != [] {
      var n := |batch| - 1;
      FrontContinues(p, batch, u);
      PutRowsCoherent(p, h, u, batch[..n]);
      PutRowCoherent(PutRows(p, batch[..n]), Learned(h, batch[..n]), u + n, batch[n]);
    }
  }

  lemma {:induction false} RecordKnown(rowPos: seq<Position>, total: nat, batch: seq<Row>)
    requires forall k :: 0 <= k < |batch| ==> 0 <= batch[k].row < total
    ensures RecordPositions(rowPos, total, batch).0
  {
    if batch != [] {
      RecordKnown(rowPos, total, batch[..|batch| - 1]);
    }
  }

  lemma PositionsCoherent(p: Pool, q: Pool, h: History, u: nat)
    requires Coherent(p, h, u)
    requires q == p.(rowPos := q.rowPos, epoch := q.epoch, replay := q.replay, pinned := q.pinned, keep := q.keep)
    ensures Coherent(q, h, u)
    ensures TailLive(p, u) ==> TailLive(q, u)
  {
    ReplacedCoherent(p, q, h, u);
  }

  lemma StoreIsPut(p: Pool, batch: seq<Row>)
    requires Shaped(p) && AllMapped(p, batch) && batch != []
    ensures Store(p, batch) == PutRows(p, batch).(rowPos := Store(p, batch).rowPos)
  {
    RecordKnown(p.rowPos, p.total, batch);
    var idx := FillSlots(p, batch);
    assert idx.Some?;
    WriteIsPut(p, batch, idx.value);
  }

  /** Storing a batch that continues at row u, with a cell for every row. */
  lemma StoreCoherent(p: Pool, h: History, u: nat, batch: seq<Row>)
    requires Coherent(p, h, u) && ContinuesAt(batch, u) && u + |batch| <= p.total
    requires AllMapped(p, batch) && TailLive(p, u)
    requires batch != []
    ensures Coherent(Store(p, batch), Learned(h, batch), u + |batch|)
    ensures TailLive(Store(p, batch), u + |batch|)
  {
    hide Before, BlockOf, OffsetOf, BlocksFor;
    StoreIsPut(p, batch);
    PutRowsCoherent(p, h, u, batch);
    PositionsCoherent(PutRows(p, batch), Store(p, batch), Learned(h, batch), u + |batch|);
  }

  // ----- Rolling back and replaying -----

  /** From p to q the rows from t on are removed, from the cells and from the packed rows. */
  ghost predicate Shrunk(p: Pool, q: Pool, t: nat) {
    && q.bt == p.bt && q.nSlots == p.nSlots && q.kvSize == p.kvSize && q.total == p.total
    && q.own == p.own && q.free == p.free && q.kv == p.kv && q.cells == KillRows(p.cells, t, MaxRow(p))
    && (forall i :: i in q.raw <==> i in p.raw)
    && (forall i :: i in q.raw ==> q.raw[i] == CutTo(p.raw[i], t - Before(i, p.bt)))
  }

  lemma CutToFacts(s: seq<Bytes>, n: int)
    ensures var r := CutTo(s, n);
      && |r| == (if n < 0 then 0 else if n < |s| then n else |s|)
      && (forall o :: 0 <= o < |r| ==> r[o] == s[o])
  {
  }

  lemma ShrunkHead(p: Pool, q: Pool, u: nat, t: nat, i: nat)
    requires Valid(p) && Shrunk(p, q, t) && i < |p.own|
    ensures HeadLive(q, i) ==> HeadLive(p, i)
    ensures HeadLive(p, i) && Before(i, p.bt) < t ==> HeadLive(q, i)
  {
  }

  lemma ShrunkFound(p: Pool, q: Pool, h: History, u: nat, t: nat, i: nat)
    requires Coherent(p, h, u) && Valid(q) && t <= u && i < |p.own| && Shrunk(p, q, t)
    ensures Found(q, t, i)
  {
    hide Before, BlockOf, OffsetOf, BlocksFor;
    assert Found(p, u, i);
    ShrunkHead(p, q, u, t, i);
    var n := Done(q, t, i);
    if i in p.raw {
      CutToFacts(p.raw[i], t - Before(i, p.bt));
    }
    forall o | 0 <= o < n && HeadLive(q, i) ensures LiveAt(q, i, o) {
      assert LiveAt(p, i, o);
      ShrunkLive(p, q, t, i, o);
    }
  }

  lemma ShrunkLive(p: Pool, q: Pool, t: nat, i: nat, o: nat)
    requires Shaped(p) && Shrunk(p, q, t) && i < |p.own| && LiveAt(p, i, o) && Before(i, p.bt) + o < t
    ensures LiveAt(q, i, o)
  {
    hide Before, BlockOf, OffsetOf, BlocksFor;
  }

  lemma ShrunkSound(p: Pool, q: Pool, h: History, u: nat, t: nat, c: nat)
    requires Coherent(p, h, u) && t <= u && Shrunk(p, q, t) && c < |q.cells| && q.cells[c].Live?
    ensures Sound(q, h, t, c)
  {
    hide Before, BlockOf, OffsetOf, BlocksFor;
    assert Sound(p, h, u, c);
  }

  lemma ShrunkPacked(p: Pool, q: Pool, h: History, u: nat, t: nat, i: nat)
    requires Coherent(p, h, u) && t <= u && Shrunk(p, q, t) && i in q.raw
    ensures Packed(q, h, t, i)
  {
    hide Before, BlockOf, OffsetOf, BlocksFor;
    assert Packed(p, h, u, i);
    CutToFacts(p.raw[i], t - Before(i, p.bt));
  }

  /** Removing the rows from t on leaves the first t rows coherent. */
  lemma ShrunkCoherent(p: Pool, q: Pool, h: History, u: nat, t: nat)
    requires Coherent(p, h, u) && Valid(q) && t <= u && Shrunk(p, q, t)
    ensures Coherent(q, h, t)
  {
    forall c | 0 <= c < |q.cells| && q.cells[c].Live? ensures Sound(q, h, t, c) {
      ShrunkSound(p, q, h, u, t, c);
    }
    forall i | 0 <= i < |q.own| ensures Found(q, t, i) {
      ShrunkFound(p, q, h, u, t, i);
    }
    forall i | i in q.raw ensures Packed(q, h, t, i) {
      ShrunkPacked(p, q, h, u, t, i);
    }
  }

  /** Forgetting packed blocks that do not exist any more. */
  ghost predicate Forgot(p: Pool, q: Pool) {
    && q == p.(raw := q.raw, rowPos := q.rowPos, epoch := q.epoch)
    && (forall i :: i in q.raw ==> i in p.raw && q.raw[i] == p.raw[i])
    && (forall i :: i in p.raw && i !in q.raw ==> i >= |p.own|)
  }

  lemma ForgotFound(p: Pool, q: Pool, u: nat, i: nat)
    requires Shaped(p) && Forgot(p, q) && i < |p.own| && Found(p, u, i)
    ensures Found(q, u, i)
  {
    forall o | 0 <= o < Done(q, u, i) && HeadLive(q, i) ensures LiveAt(q, i, o) {
      assert LiveAt(p, i, o);
    }
  }

  lemma ForgottenCoherent(p: Pool, q: Pool, h: History, u: nat)
    requires Coherent(p, h, u) && Forgot(p, q)
    ensures Coherent(q, h, u)
  {
    hide Before, BlockOf, OffsetOf, BlocksFor;
    forall c | 0 <= c < |q.cells| && q.cells[c].Live? ensures Sound(q, h, u, c) {
      assert Sound(p, h, u, c);
    }
    forall i | 0 <= i < |q.own| ensures Found(q, u, i) {
      ForgotFound(p, q, u, i);
    }
    forall i | i in q.raw ensures Packed(q, h, u, i) {
      assert Packed(p, h, u, i);
    }
  }

  lemma RemovedShrinks(p: Pool, t: nat)
    requires Valid(p)
    ensures var q := Step(p, RemoveRows(t, -1)).(raw := InvalidateRaw(p.raw, t, p.bt)); Valid(q) && Shrunk(p, q, t)
  {
  }

  /** No live cell lies past the rows. */
  lemma NothingRemoved(p: Pool, h: History)
    requires Coherent(p, h, p.total)
    ensures Coherent(Step(p, RemoveRows(p.total, -1)), h, p.total)
  {
    var q := Step(p, RemoveRows(p.total, -1));
    forall c | 0 <= c < |p.cells| ensures q.cells[c] == p.cells[c] {
      if p.cells[c].Live? {
        assert Sound(p, h, p.total, c);
      }
    }
    assert q.cells == p.cells;
    PositionsCoherent(p, q, h, p.total);
  }

  /** Removing rows [t, ...) and then truncating to t: the rollback every caller performs. */
  lemma RollbackCoherent(p: Pool, h: History, u: nat, t: nat)
    requires Coherent(p, h, u) && t <= u
    ensures Coherent(Step(Step(p, RemoveRows(t, -1)), TruncateCached(t)), h, t)
  {
    hide Before, BlockOf, OffsetOf, BlocksFor;
    if t == p.total {
      NothingRemoved(p, h);
      return;
    }
    var removed := Step(p, RemoveRows(t, -1));
    var shrunk := removed.(raw := InvalidateRaw(p.raw, t, p.bt));
    RemovedShrinks(p, t);
    ShrunkCoherent(p, shrunk, h, u, t);
    TruncateCoherent(shrunk, h, t);
    assert Forgot(Truncate(shrunk, t), Cut(removed, t));
    ForgottenCoherent(Truncate(shrunk, t), Cut(removed, t), h, t);
  }

  /** Removing rows [t, ...) and then entering replay from t. */
  lemma ReplayCoherent(p: Pool, h: History, u: nat, t: nat)
    requires Coherent(p, h, u) && t <= u && !p.replay
    ensures Coherent(Step(Step(p, RemoveRows(t, -1)), SetReplay(true, t)), h, t)
  {
    hide Before, BlockOf, OffsetOf, BlocksFor;
    var shrunk := Step(p, RemoveRows(t, -1)).(raw := InvalidateRaw(p.raw, t, p.bt));
    RemovedShrinks(p, t);
    ShrunkCoherent(p, shrunk, h, u, t);
    PositionsCoherent(shrunk, Replay(Step(p, RemoveRows(t, -1)), true, t), h, t);
  }

  // ----- Retrieval -----

  /** With every row computed, each resident is live at its head or packed in full. */
  lemma ResidentRestorable(p: Pool, h: History, i: nat)
    requires Coherent(p, h, p.total) && i < |p.own|
    ensures Done(p, p.total, i) == Len(p, i) > 0
    ensures HeadLive(p, i) || (i in p.raw && |p.raw[i]| >= Len(p, i))
  {
    LenPositive(p, i);
    assert Found(p, p.total, i);
  }

  /** The bytes a re-layout puts into the cell of a resident row are the row's bytes. */
  lemma LaidOutIsHistory(p: Pool, q: Pool, h: History, i: nat, o: nat)
    requires Coherent(p, h, p.total) && IsLayout(p, q) && i < |p.own| && Resident(p.own[i]) && o < Len(p, i)
    ensures var c := Before(q.own[i].slot, p.bt) + o;
      && q.own[i].slot == RankOf(p.own, i) && c < |q.cells| == |q.kv| && RowIs(h, Before(i, p.bt) + o, q.kv[c])
      && q.cells[c].Live? && q.cells[c].row == Before(i, p.bt) + o
  {
    hide Before, BlockOf, OffsetOf, BlocksFor, IsLayout, LaidOutCell, LaidOutBytes;
    ResidentRestorable(p, h, i);
    LayoutFrame(p, q);
    LayoutKeepsContents(p, q, i, o);
    LayoutKeepsAll(p, q, i, o);
    if HeadLive(p, i) {
      HeadBytes(p, h, p.total, i, o);
    } else {
      assert Packed(p, h, p.total, i);
    }
  }

  lemma LaidOutSound(p: Pool, q: Pool, h: History, c: nat)
    requires Coherent(p, h, p.total) && IsLayout(p, q) && c < |q.cells| && q.cells[c].Live?
    ensures Sound(q, h, p.total, c)
  {
    hide Before, BlockOf, OffsetOf, BlocksFor, IsLayout, LaidOutBytes;
    LayoutFrame(p, q);
    var items := Items(p.own);
    LayoutCell(p, q, c);
    if LandsAt(p, items, c).Some? {
      var i := LandsFrom(p, c);
      var o := OffsetOf(c, p.bt);
      LenPositive(p, i);
      LaidOutIsHistory(p, q, h, i, o);
      RowUnique(i, o, p.bt);
    } else {
      NotKilled(p, h, items, c);
    }
  }

  /** Clearing the rows of every resident clears every cell. */
  lemma NotKilled(p: Pool, h: History, items: seq<nat>, c: nat)
    requires Coherent(p, h, p.total) && items == Residents(p.own) && c < |p.cells|
    ensures KillBlocks(p, set i | i in items)[c].Empty?
  {
    ResidentsAre(p.own);
    if p.cells[c].Live? {
      assert Sound(p, h, p.total, c);
      assert BlockOf(p.cells[c].row, p.bt) in items;
    }
  }

  lemma LaidOutFound(p: Pool, q: Pool, h: History, i: nat)
    requires Coherent(p, h, p.total) && Valid(q) && IsLayout(p, q) && i < |p.own|
    ensures Found(q, p.total, i)
  {
    hide Before, BlockOf, OffsetOf, BlocksFor, IsLayout, LaidOutCell, LaidOutBytes;
    LayoutFrame(p, q);
    ResidentRestorable(p, h, i);
    if Resident(p.own[i]) {
      forall o | 0 <= o < Len(p, i) ensures LiveAt(q, i, o) {
        LaidOutIsHistory(p, q, h, i, o);
      }
      assert LiveAt(q, i, 0);
    }
  }

  /** Re-layout keeps the invariant. */
  lemma LayoutCoherent(p: Pool, h: History)
    requires Coherent(p, h, p.total)
    ensures Coherent(Layout(p), h, p.total)
  {
    hide Before, BlockOf, OffsetOf, BlocksFor;
    if Moves(p) {
      LayoutValid(p);
      LayoutIs(p);
      LaidOutCoherent(p, Layout(p), h);
    }
  }

  lemma LaidOutCoherent(p: Pool, q: Pool, h: History)
    requires Coherent(p, h, p.total) && Valid(q) && IsLayout(p, q)
    ensures Coherent(q, h, p.total)
  {
    hide Before, BlockOf, OffsetOf, BlocksFor, IsLayout, LaidOutCell, LaidOutBytes;
    LayoutFrame(p, q);
    forall c | 0 <= c < |q.cells| && q.cells[c].Live? ensures Sound(q, h, p.total, c) {
      LaidOutSound(p, q, h, c);
    }
    forall i | 0 <= i < |q.own| ensures Found(q, p.total, i) {
      LaidOutFound(p, q, h, i);
    }
    forall i | i in q.raw ensures Packed(q, h, p.total, i) {
      assert Packed(p, h, p.total, i);
    }
  }

  /** Restoring a cold block from its packed rows. */
  lemma WriteBlockCoherent(p: Pool, h: History, i: nat)
    requires Coherent(p, h, p.total) && i < |p.own| && !HeadLive(p, i)
    ensures Coherent(WriteBlock(p, i), h, p.total)
  {
    var q := WriteBlock(p, i);
    ResidentRestorable(p, h, i);
    if Resident(p.own[i]) && i in p.raw {
      assert Packed(p, h, p.total, i);
      forall c | 0 <= c < |q.cells| && q.cells[c].Live? ensures Sound(q, h, p.total, c) {
        WrittenSound(p, h, i, c);
      }
      forall j | 0 <= j < |q.own| ensures Found(q, p.total, j) {
        WrittenFound(p, h, i, j);
      }
      forall j | j in q.raw ensures Packed(q, h, p.total, j) {
        assert Packed(p, h, p.total, j);
      }
    }
  }

  lemma WrittenSound(p: Pool, h: History, i: nat, c: nat)
    requires Coherent(p, h, p.total) && i < |p.own| && Resident(p.own[i]) && i in p.raw && |p.raw[i]| >= Len(p, i)
    requires c < |p.cells| && WriteBlock(p, i).cells[c].Live?
    ensures Sound(WriteBlock(p, i), h, p.total, c)
  {
    var base := Before(p.own[i].slot, p.bt);
    if base <= c < base + Len(p, i) {
      var o := c - base;
      LenPositive(p, i);
      RowUnique(i, o, p.bt);
      assert Packed(p, h, p.total, i);
      assert RowIs(h, Before(i, p.bt) + o, p.raw[i][o]);
    } else {
      assert Sound(p, h, p.total, c);
    }
  }

  /** Cells of different residents do not overlap. */
  lemma BlocksApart(p: Pool, i: nat, j: nat, o: nat)
    requires Valid(p) && i < |p.own| && j < |p.own| && i != j && Resident(p.own[i]) && Resident(p.own[j]) && o < p.bt
    ensures var base := Before(p.own[i].slot, p.bt);
      Before(p.own[j].slot, p.bt) + o < base || Before(p.own[j].slot, p.bt) + o >= base + p.bt
  {
    OwnedOnce(p.own, p.free, p.nSlots, i, j);
    BeforeMono(p.own[i].slot, p.own[j].slot, p.bt);
    BeforeMono(p.own[j].slot, p.own[i].slot, p.bt);
  }

  lemma WrittenHere(p: Pool, i: nat, o: nat)
    requires Valid(p) && p.kvSize == Before(p.nSlots, p.bt) && i < |p.own| && Resident(p.own[i])
    requires i in p.raw && o < Len(p, i)
    ensures LiveAt(WriteBlock(p, i), i, o)
  {
    LenPositive(p, i);
    OwnedOnce(p.own, p.free, p.nSlots, i, i);
    BeforeMono(p.own[i].slot, p.nSlots, p.bt);
  }

  lemma WrittenElsewhere(p: Pool, i: nat, j: nat, o: nat)
    requires Valid(p) && i < |p.own| && j < |p.own| && i != j && Resident(p.own[i])
    requires Resident(p.own[j]) && i in p.raw && o < p.bt
    ensures LiveAt(p, j, o) ==> LiveAt(WriteBlock(p, i), j, o)
    ensures o == 0 ==> (HeadLive(WriteBlock(p, i), j) <==> HeadLive(p, j))
  {
    LenPositive(p, i);
    BlocksApart(p, i, j, o);
  }

  lemma WrittenFound(p: Pool, h: History, i: nat, j: nat)
    requires Coherent(p, h, p.total) && i < |p.own| && Resident(p.own[i]) && i in p.raw && j < |p.own|
    ensures Found(WriteBlock(p, i), p.total, j)
  {
    hide Before, BlockOf, OffsetOf, BlocksFor;
    var q := WriteBlock(p, i);
    ResidentRestorable(p, h, j);
    assert Found(p, p.total, j);
    if j == i {
      forall o | 0 <= o < Len(p, i) ensures LiveAt(q, i, o) {
        WrittenHere(p, i, o);
      }
      assert LiveAt(q, i, 0);
    } else if Resident(p.own[j]) {
      WrittenElsewhere(p, i, j, 0);
      forall o | 0 <= o < Len(p, j) && HeadLive(q, j) ensures LiveAt(q, j, o) {
        assert LiveAt(p, j, o);
        WrittenElsewhere(p, i, j, o);
      }
    }
  }

  lemma {:induction false} WriteColdCoherent(p: Pool, h: History, ids: set<nat>, k: nat)
    requires Coherent(p, h, p.total) && k <= |p.own|
    ensures Coherent(WriteCold(p, ids, k), h, p.total)
  {
    hide Before, BlockOf, OffsetOf, BlocksFor, WriteBlock, Found, Packed, Sound;
    if k > 0 {
      WriteColdCoherent(p, h, ids, k - 1);
      var q := WriteCold(p, ids, k - 1);
      if k - 1 in ids && !HeadLive(q, k - 1) {
        WriteBlockCoherent(q, h, k - 1);
      }
    }
  }

  /** Retrieval keeps the invariant. */
  lemma SelectCoherent(p: Pool, h: History, sel: Selection)
    requires Coherent(p, h, p.total)
    ensures Coherent(Select(p, sel), h, p.total)
  {
    hide Before, BlockOf, OffsetOf, BlocksFor;
    var ids := Ids(sel.blocks);
    if sel.epoch == p.epoch && sel.rows == p.total {
      forall i | i in Outgoing(p, ids) ensures Packable(p, p.total, i) {
        ResidentRestorable(p, h, i);
      }
      PlanValid(p, ids);
      PlanCoherent(p, h, p.total, ids);
      var planned := ApplyPlan(p, ids).(pinned := true);
      PositionsCoherent(ApplyPlan(p, ids), planned, h, p.total);
      LayoutCoherent(planned, h);
      WriteColdCoherent(planned, h, Incoming(p, ids), |planned.own|);
    }
  }
}
