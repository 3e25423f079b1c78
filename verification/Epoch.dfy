/** The attention epoch as an optimistic validation: equal epochs prove that nothing the earlier
    state attended has moved or changed. */
module Epoch {
  import opened Arith
  import opened SlotTable
  import opened SlotPool
  import opened Runs

  /** Row r is stored in a resident block, at a cell inside the cache. */
  ghost predicate Held(p: Pool, r: nat) {
    p.bt > 0 && r < p.total && BlockOf(r, p.bt) < |p.own| && Resident(p.own[BlockOf(r, p.bt)]) &&
        0 <= CellOf(p, r) < |p.cells|
  }

  ghost predicate SameCell(p: Pool, q: Pool, c: int) {
    0 <= c < |p.cells| && c < |q.cells| && c < |p.kv| && c < |q.kv| && q.cells[c] == p.cells[c] && q.kv[c] == p.kv[c]
  }

  ghost predicate SlotsStay(own: seq<Info>, own': seq<Info>) {
    |own| <= |own'| && forall i :: 0 <= i < |own| && Resident(own[i]) ==> own'[i].slot == own[i].slot
  }

  /** From p to q nothing p attended has changed: residents keep their slots, their cells keep rows
      and bytes, and every live cell is either as it was or holds a row appended since. */
  ghost predicate Unchanged(p: Pool, q: Pool) {
    && q.bt == p.bt && |q.cells| == |p.cells| && |q.kv| == |p.kv| && p.total <= q.total
    && SlotsStay(p.own, q.own)
    && (forall c :: 0 <= c < |q.cells| && q.cells[c].Live? && q.cells[c].row < p.total ==> SameCell(p, q, c))
    && (forall r: nat :: Held(p, r) ==> SameCell(p, q, CellOf(p, r)))
  }

  lemma HeldLater(p: Pool, q: Pool, r: nat)
    requires q.bt == p.bt && |q.cells| == |p.cells| && p.total <= q.total && SlotsStay(p.own, q.own) && Held(p, r)
    ensures Held(q, r) && CellOf(q, r) == CellOf(p, r)
  {
  }

  lemma UnchangedTrans(p: Pool, q: Pool, r: Pool)
    requires Unchanged(p, q) && Unchanged(q, r)
    ensures Unchanged(p, r)
  {
    forall x: nat | Held(p, x) ensures SameCell(p, r, CellOf(p, x)) {
      HeldLater(p, q, x);
      assert SameCell(p, q, CellOf(p, x)) && SameCell(q, r, CellOf(q, x));
    }
    forall c | 0 <= c < |r.cells| && r.cells[c].Live? && r.cells[c].row < p.total ensures SameCell(p, r, c) {
      assert SameCell(q, r, c);
    }
  }

  /** A change of placement records only: same cells, same bytes, residents keep their slots. */
  ghost predicate Regrown(p: Pool, q: Pool) {
    && q.bt == p.bt && q.cells == p.cells && q.kv == p.kv && q.epoch == p.epoch
    && p.total <= q.total && SlotsStay(p.own, q.own)
  }

  lemma RegrownUnchanged(p: Pool, q: Pool)
    requires Shaped(p) && Regrown(p, q)
    ensures Unchanged(p, q)
  {
  }

  /** A plan that leaves the epoch alone leaves everything else alone too, up to working-set marks. */
  lemma IdlePlan(p: Pool, sel: set<nat>)
    requires Valid(p) && ApplyPlan(p, sel).epoch == p.epoch
    ensures Regrown(p, ApplyPlan(p, sel))
    ensures Outgoing(p, sel) == {} && Incoming(p, sel) == {}
  {
    var outs := Outgoing(p, sel);
    ReplaceFacts(p.own, p.free, p.nSlots, sel, Incoming(p, sel));
    assert outs == {};
    forall i | 0 <= i < |p.own| && Resident(p.own[i]) ensures i in sel {
      assert i !in outs;
    }
    assert KillBlocks(p, outs) == p.cells;
  }

  lemma PlacedUnchanged(a: Pool, t0: nat, n: nat, pick: Option<set<nat>>)
    requires Valid(a)
    ensures var r := Placed(a, t0, n, pick);
      r.Some? ==> r.value.epoch >= a.epoch && (r.value.epoch == a.epoch ==> Regrown(a, r.value))
  {
    FreeInRange(a.own, a.free, a.nSlots);
    AssignExtends(a.own, a.free, Touched(a, t0), 0);
    if pick.Some? && ApplyPlan(a, pick.value).epoch == a.epoch {
      IdlePlan(a, pick.value);
    }
  }

  lemma PrepareUnchanged(p: Pool, n: nat, pick: Option<set<nat>>)
    requires Valid(p)
    ensures var q := Prepare(p, n, pick).1;
      q.epoch >= p.epoch && (q.epoch == p.epoch ==> Regrown(p, q))
  {
    if n > 0 && !p.replay {
      var a := Append(p, n);
      AppendValid(p, n);
      PlacedUnchanged(a, p.total, n, pick);
    }
  }

  /** What a batch does to the cells: each is as before, or live for the last batch row sent to it. */
  lemma {:induction false} WrittenCells(cells: seq<Cell>, kv: seq<Bytes>, batch: seq<Row>, idx: seq<nat>, c: nat)
    requires |idx| == |batch| && |cells| == |kv| && c < |cells|
    ensures var (cs, vs) := WriteCells(cells, kv, batch, idx);
      || (cs[c] == cells[c] && vs[c] == kv[c] && forall k :: 0 <= k < |batch| && batch[k].row >= 0 ==> idx[k] != c)
      || (exists k :: 0 <= k < |batch| && idx[k] == c && batch[k].row >= 0 && cs[c] == Live(batch[k].row, batch[k].pos)
                   && vs[c] == batch[k].val)
  {
    if batch != [] {
      var n := |batch| - 1;
      WrittenCells(cells, kv, batch[..n], idx[..n], c);
      var (cs, vs) := WriteCells(cells, kv, batch[..n], idx[..n]);
      if batch[n].row >= 0 && idx[n] == c {
      } else if k :| 0 <= k < n && idx[..n][k] == c && batch[..n][k].row >= 0
                     && cs[c] == Live(batch[..n][k].row, batch[..n][k].pos) && vs[c] == batch[..n][k].val {
        assert idx[k] == c && batch[k] == batch[..n][k];
      } else {
        assert forall k :: 0 <= k < n ==> idx[..n][k] == idx[k] && batch[..n][k] == batch[k];
      }
    }
  }

  /** A batch of rows past p.total writes no cell that a row held by p occupies. */
  lemma BatchMissesHeld(p: Pool, q: Pool, batch: seq<Row>, idx: seq<nat>, x: nat)
    requires Valid(q) && Regrown(p, q) && Held(p, x)
    requires forall k :: 0 <= k < |batch| ==> !(0 <= batch[k].row < p.total)
    requires FillSlots(q, batch) == Some(idx)
    ensures forall k :: 0 <= k < |batch| ==> idx[k] != CellOf(p, x)
  {
    HeldLater(p, q, x);
    forall k | 0 <= k < |batch| ensures idx[k] != CellOf(p, x) {
      assert Mapped(q, batch[k].row);
      if CellOf(q, batch[k].row) == CellOf(q, x) {
        CellsDistinct(q, x, batch[k].row);
      }
    }
  }

  /** Storing rows past p.total leaves the cells of rows held by p alone. */
  lemma StoreUnchanged(p: Pool, q: Pool, batch: seq<Row>)
    requires Valid(p) && Valid(q) && Regrown(p, q)
    requires forall k :: 0 <= k < |batch| ==> !(0 <= batch[k].row < p.total)
    ensures Unchanged(p, Store(q, batch))
  {
    var s := Store(q, batch);
    var idx := FillSlots(q, batch);
    if s.cells == q.cells && s.kv == q.kv {
      RegrownUnchanged(p, s);
    } else {
      forall c | 0 <= c < |s.cells| && s.cells[c].Live? && s.cells[c].row < p.total ensures SameCell(p, s, c) {
        WrittenCells(q.cells, q.kv, batch, idx.value, c);
      }
      forall x: nat | Held(p, x) ensures SameCell(p, s, CellOf(p, x)) {
        WrittenCells(q.cells, q.kv, batch, idx.value, CellOf(p, x));
        BatchMissesHeld(p, q, batch, idx.value, x);
      }
    }
  }

  lemma DecodeUnchanged(p: Pool, batch: seq<Row>, pick: Option<set<nat>>)
    requires Valid(p)
    ensures var q := Decode(p, batch, pick);
      q.epoch >= p.epoch && (q.epoch == p.epoch ==> Unchanged(p, q))
  {
    hide Before, BlockOf, OffsetOf, BlocksFor;
    var n := Noted(p, batch);
    PrepareUnchanged(n, |batch|, pick);
    PrepareValid(n, |batch|, pick);
    var (ok, q) := Prepare(n, |batch|, pick);
    if Decode(p, batch, pick).epoch == p.epoch {
      assert n == p;
      if ok {
        StoreUnchanged(p, q, batch);
      } else {
        RegrownUnchanged(p, q);
      }
    }
  }

  lemma SelectUnchanged(p: Pool, sel: Selection)
    requires Valid(p)
    ensures var q := Select(p, sel);
      q.epoch >= p.epoch && (q.epoch == p.epoch ==> Unchanged(p, q))
  {
    var ids := Ids(sel.blocks);
    if sel.epoch == p.epoch && sel.rows == p.total {
      PlanValid(p, ids);
      var planned := ApplyPlan(p, ids).(pinned := true);
      if ApplyPlan(p, ids).epoch == p.epoch {
        IdlePlan(p, ids);
        RegrownUnchanged(p, planned);
        WriteNothing(planned, |planned.own|);
      }
      WriteColdEpoch(planned, Incoming(p, ids), |planned.own|);
    } else {
      RegrownUnchanged(p, p);
    }
  }

  lemma {:induction false} WriteNothing(p: Pool, k: nat)
    requires Shaped(p) && k <= |p.own|
    ensures WriteCold(p, {}, k) == p
  {
    if k > 0 {
      WriteNothing(p, k - 1);
    }
  }

  lemma {:induction false} WriteColdEpoch(p: Pool, ids: set<nat>, k: nat)
    requires Shaped(p) && k <= |p.own|
    ensures WriteCold(p, ids, k).epoch >= p.epoch
  {
    if k > 0 {
      WriteColdEpoch(p, ids, k - 1);
    }
  }

  /** Each step either moves the epoch or leaves what was attended unchanged. */
  lemma StepUnchanged(p: Pool, e: Event)
    requires Valid(p)
    ensures var q := Step(p, e);
      q.epoch >= p.epoch && (q.epoch == p.epoch ==> Unchanged(p, q))
  {
    var q := Step(p, e);
    match e
    case Batch(batch, pick) => DecodeUnchanged(p, batch, pick);
    case ApplySelection(sel) => SelectUnchanged(p, sel);
    case _ =>
      if q.epoch == p.epoch {
        RegrownUnchanged(p, q);
      }
  }

  /** Equal epochs along a run prove that nothing attended at its start has changed. */
  lemma {:induction false} EpochProves(p: Pool, es: seq<Event>)
    requires Valid(p)
    ensures Run(p, es).epoch >= p.epoch
    ensures Run(p, es).epoch == p.epoch ==> Unchanged(p, Run(p, es))
  {
    if es == [] {
      RegrownUnchanged(p, p);
    } else {
      var q := Run(p, es[..|es| - 1]);
      EpochProves(p, es[..|es| - 1]);
      StepUnchanged(q, es[|es| - 1]);
      if Run(p, es).epoch == p.epoch {
        UnchangedTrans(p, q, Run(p, es));
      }
    }
  }
}
