/** Row positions: what is recorded for each row, what its cell is live at, and when a view stays valid. */
module Positions {
  import opened Arith
  import opened SlotTable
  import opened SlotPool
  import opened Runs
  import opened Epoch
  import opened Views
  import opened Relayout
  import opened Coherence
  import opened CoherentRuns
  import opened Serving

  // ----- A rollback keeps a valid view valid -----

  lemma RolledBack(p: Pool, t: nat)
    requires Valid(p) && t <= p.total
    ensures var q := Step(Step(p, RemoveRows(t, -1)), TruncateCached(t));
      && Valid(q) && q.bt == p.bt && q.total == t && q.own <= p.own && |q.own| == BlocksFor(t, p.bt)
      && |q.cells| == |p.cells|
      && (forall c :: 0 <= c < |q.cells| ==>
            q.cells[c] == if p.cells[c].Live? && p.cells[c].row >= t then Empty else p.cells[c])
      && |q.rowPos| <= |p.rowPos|
      && (forall r: nat :: r < t && r < |p.rowPos| ==> r < |q.rowPos| && q.rowPos[r] == p.rowPos[r])
  {
    hide Before, BlockOf, OffsetOf, BlocksFor, Partition;
    var removed := Step(p, RemoveRows(t, -1));
    StepValid(p, RemoveRows(t, -1));
    StepValid(removed, TruncateCached(t));
    CutIs(removed, t);
  }

  lemma CutIs(p: Pool, t: nat)
    requires Shaped(p) && t <= p.total
    ensures var q := Cut(p, t);
      && q.bt == p.bt && q.total == t && q.own <= p.own && |q.own| == BlocksFor(t, p.bt) && q.cells == p.cells
      && |q.rowPos| <= |p.rowPos|
      && (forall r: nat :: r < t && r < |p.rowPos| ==> r < |q.rowPos| && q.rowPos[r] == p.rowPos[r])
  {
  }

  /** Every row below t keeps its recorded position, and a valid view stays valid. */
  lemma RollbackKeepsView(p: Pool, t: nat, canonical: bool)
    requires Valid(p) && t <= p.total
    ensures var q := Step(Step(p, RemoveRows(t, -1)), TruncateCached(t));
      && q.bt > 0 && (AttentionView(p, canonical).valid ==> AttentionView(q, canonical).valid)
      && (forall r: nat :: r < t && r < |p.rowPos| ==> r < |q.rowPos| && q.rowPos[r] == p.rowPos[r])
  {
    hide AttentionView, Exact, SlotsInOrder;
    StepValid(p, RemoveRows(t, -1));
    var q := Step(Step(p, RemoveRows(t, -1)), TruncateCached(t));
    RolledBack(p, t);
    ViewValidIff(p, canonical);
    ViewValidIff(q, canonical);
    if SlotsInOrder(p.own) {
      OrderStays(p.own, q.own);
    }
    if Exact(p) {
      RollbackExact(p, q, t);
    }
  }

  lemma OrderStays(own: seq<Info>, own': seq<Info>)
    requires own' <= own && SlotsInOrder(own)
    ensures SlotsInOrder(own')
  {
    forall i | 0 <= i < |own'| && Resident(own'[i]) ensures own'[i].slot == RankOf(own', i) {
      assert own'[..i] == own[..i];
    }
  }

  lemma RollbackExact(p: Pool, q: Pool, t: nat)
    requires Valid(p) && Exact(p) && q.bt == p.bt && q.total == t <= p.total && q.own <= p.own
    requires |q.own| == BlocksFor(t, p.bt) && |q.cells| == |p.cells|
    requires forall c :: 0 <= c < |q.cells| ==>
               q.cells[c] == if p.cells[c].Live? && p.cells[c].row >= t then Empty else p.cells[c]
    requires forall r: nat :: r < t && r < |p.rowPos| ==> r < |q.rowPos| && q.rowPos[r] == p.rowPos[r]
    ensures Exact(q)
  {
    hide Before, BlockOf, OffsetOf, BlocksFor, Partition;
    forall r: nat | Stored(q, r) ensures InPlace(q, r) {
      assert Stored(p, r) && CellOf(q, r) == CellOf(p, r);
    }
    forall c | 0 <= c < |q.cells| && q.cells[c].Live?
      ensures Stored(q, q.cells[c].row) && CellOf(q, q.cells[c].row) == c
    {
      RowInBlock(q.cells[c].row, p.bt, t);
    }
  }

  // ----- The positions of a serving run -----

  /** For each row, the position it was last decoded at. */
  type Chart = map<nat, Position>

  /** The positions of the first u rows are on record, and each live cell is at the position of its row. */
  ghost predicate Charted(p: Pool, m: Chart, u: nat) {
    && (forall r: nat :: r < u ==> OnRecord(p, m, r))
    && (forall c :: 0 <= c < |p.cells| && p.cells[c].Live? ==> CellCharted(p.cells[c], m, u))
  }

  ghost predicate OnRecord(p: Pool, m: Chart, r: nat) {
    r in m && r < |p.rowPos| && p.rowPos[r] == m[r]
  }

  ghost predicate CellCharted(x: Cell, m: Chart, u: nat)
    requires x.Live?
  {
    x.row < u && x.row in m && x.pos == m[x.row]
  }

  /** A batch that continues at row u gives its rows their positions. */
  ghost function Plotted(m: Chart, u: nat, batch: seq<Row>): Chart {
    m + (map r: nat | r < u + |batch| && InTail(r, u) :: batch[r - u].pos)
  }

  lemma PlottedAt(m: Chart, u: nat, batch: seq<Row>, r: nat)
    ensures var m' := Plotted(m, u, batch);
      && (r in m && !(u <= r < u + |batch|) ==> r in m' && m'[r] == m[r])
      && (u <= r < u + |batch| ==> r in m' && m'[r] == batch[r - u].pos)
  {
  }

  /** Cells are as they were or empty, and recorded positions stand. */
  ghost predicate Dimmed(p: Pool, q: Pool) {
    && |q.cells| == |p.cells| && q.rowPos == p.rowPos
    && (forall c :: 0 <= c < |q.cells| && q.cells[c].Live? ==> q.cells[c] == p.cells[c])
  }

  lemma DimmedCharted(p: Pool, q: Pool, m: Chart, u: nat)
    requires Charted(p, m, u) && Dimmed(p, q)
    ensures Charted(q, m, u)
  {
    forall r: nat | r < u ensures OnRecord(q, m, r) {
      assert OnRecord(p, m, r);
    }
  }

  lemma PrepareDims(p: Pool, n: nat, pick: Option<set<nat>>)
    requires Valid(p)
    ensures Dimmed(p, Prepare(p, n, pick).1)
  {
    hide Before, BlockOf, OffsetOf, BlocksFor, Partition;
  }

  lemma {:induction false} Recorded(rowPos: seq<Position>, total: nat, batch: seq<Row>, u: nat)
    requires ContinuesAt(batch, u) && u <= |rowPos| && u + |batch| <= total
    ensures var (known, after) := RecordPositions(rowPos, total, batch);
      && known && u + |batch| <= |after|
      && (forall r :: 0 <= r < u ==> after[r] == rowPos[r])
      && (forall k :: 0 <= k < |batch| ==> after[u + k] == batch[k].pos)
  {
    if batch != [] {
      var n := |batch| - 1;
      Recorded(rowPos, total, batch[..n], u);
      var before := RecordPositions(rowPos, total, batch[..n]).1;
      var long := SlotPool.Extend(before, batch[n].row + 1);
      assert forall r :: 0 <= r < |before| ==> long[..|before|][r] == long[r];
      forall k | 0 <= k < n ensures before[u + k] == batch[k].pos {
        assert batch[..n][k] == batch[k];
      }
    }
  }

  /** Recording the batch puts its positions on record. */
  lemma RecordedCharted(p: Pool, m: Chart, u: nat, batch: seq<Row>, r: nat)
    requires Charted(p, m, u) && ContinuesAt(batch, u) && u + |batch| <= p.total && r < u + |batch|
    ensures RecordPositions(p.rowPos, p.total, batch).0
    ensures OnRecord(p.(rowPos := RecordPositions(p.rowPos, p.total, batch).1), Plotted(m, u, batch), r)
  {
    if u > 0 {
      assert OnRecord(p, m, u - 1);
    }
    Recorded(p.rowPos, p.total, batch, u);
    PlottedAt(m, u, batch, r);
    if r < u {
      assert OnRecord(p, m, r);
    } else {
      assert RecordPositions(p.rowPos, p.total, batch).1[u + (r - u)] == batch[r - u].pos;
    }
  }

  lemma StoreCharted(p: Pool, m: Chart, u: nat, batch: seq<Row>)
    requires Shaped(p) && Charted(p, m, u) && ContinuesAt(batch, u) && u + |batch| <= p.total
    requires batch != [] && AllMapped(p, batch)
    ensures Charted(Store(p, batch), Plotted(m, u, batch), u + |batch|)
  {
    hide Before, BlockOf, OffsetOf, BlocksFor, RecordPositions, WriteCells, Plotted;
    var q, m', idx := Store(p, batch), Plotted(m, u, batch), FillSlots(p, batch);
    assert idx.Some?;
    forall r: nat | r < u + |batch| ensures OnRecord(q, m', r) {
      RecordedCharted(p, m, u, batch, r);
    }
    forall c | 0 <= c < |q.cells| && q.cells[c].Live? ensures CellCharted(q.cells[c], m', u + |batch|) {
      RecordedCharted(p, m, u, batch, u);
      WrittenCells(p.cells, p.kv, batch, idx.value, c);
      PlottedAt(m, u, batch, q.cells[c].row);
      if q.cells[c] == p.cells[c] {
        assert CellCharted(p.cells[c], m, u);
      }
    }
  }

  lemma UnmappedCharted(p: Pool, m: Chart, u: nat, batch: seq<Row>)
    requires Shaped(p) && Charted(p, m, u) && ContinuesAt(batch, u) && u + |batch| <= p.total
    requires !AllMapped(p, batch)
    ensures Charted(Store(p, batch), m, u)
  {
    hide Before, BlockOf, OffsetOf, BlocksFor, RecordPositions;
    UnmappedStores(p, batch);
    forall r: nat | r < u ensures OnRecord(Store(p, batch), m, r) {
      assert OnRecord(p, m, r);
      RecordedCharted(p, m, u, batch, r);
      PlottedAt(m, u, batch, r);
    }
  }

  lemma ExtendCharted(p: Pool, h: History, m: Chart, batch: seq<Row>, pick: Option<set<nat>>)
    requires Coherent(p, h, p.total) && Allowed(State(p, h, p.total), Act.Extend(batch, pick)) && Charted(p, m, p.total)
    ensures Noted(p, batch) == p
    ensures if Prepare(p, |batch|, pick).0
            then Charted(Decode(p, batch, pick), Plotted(m, p.total, batch), p.total + |batch|)
            else Charted(Decode(p, batch, pick), m, p.total)
  {
    hide Before, BlockOf, OffsetOf, BlocksFor, Prepare, Store, Plotted, Charted;
    PrepareCoherent(p, h, |batch|, pick);
    PrepareDims(p, |batch|, pick);
    var (ok, q) := Prepare(p, |batch|, pick);
    DimmedCharted(p, q, m, p.total);
    if ok {
      RoomIsMapped(p, batch, pick);
      StoreCharted(q, m, p.total, batch);
    }
  }

  lemma RefillCharted(p: Pool, h: History, m: Chart, u: nat, batch: seq<Row>)
    requires Coherent(p, h, u) && Allowed(State(p, h, u), Refill(batch)) && Charted(p, m, u)
    ensures if AllMapped(p, batch) then Charted(Decode(p, batch, None), Plotted(m, u, batch), u + |batch|)
            else Charted(Decode(p, batch, None), m, u)
  {
    hide Before, BlockOf, OffsetOf, BlocksFor, Mapped, Plotted;
    var q := Noted(p, batch);
    DimmedCharted(p, q, m, u);
    MappedStill(p, q, batch);
    assert Decode(p, batch, None) == Store(q, batch);
    if AllMapped(p, batch) {
      StoreCharted(q, m, u, batch);
    } else {
      UnmappedCharted(q, m, u, batch);
    }
  }

  // ----- Retrieval -----

  lemma OneCharted(p: Pool, m: Chart, u: nat, r: nat)
    requires Charted(p, m, u) && r < u
    ensures CellCharted(Live(r, PosOf(p, r)), m, u)
  {
    assert OnRecord(p, m, r);
  }

  lemma LayoutCharted(p: Pool, m: Chart)
    requires Valid(p) && Charted(p, m, p.total)
    ensures Charted(Layout(p), m, p.total)
  {
    hide Before, BlockOf, OffsetOf, BlocksFor, LaidOutBytes, LandsAt, Partition;
    var q, items := Layout(p), Items(p.own);
    if Moves(p) {
      forall r: nat | r < p.total ensures OnRecord(q, m, r) {
        assert OnRecord(p, m, r);
      }
      forall c | 0 <= c < |q.cells| && q.cells[c].Live? ensures CellCharted(q.cells[c], m, p.total) {
        if LandsAt(p, items, c).Some? {
          var i := LandsFrom(p, c);
          LenPositive(p, i);
          OneCharted(p, m, p.total, Before(i, p.bt) + OffsetOf(c, p.bt));
        }
      }
    }
  }

  lemma {:induction false} WriteColdCharted(p: Pool, m: Chart, ids: set<nat>, k: nat)
    requires Valid(p) && Charted(p, m, p.total) && k <= |p.own|
    ensures Charted(WriteCold(p, ids, k), m, p.total)
  {
    hide Before, BlockOf, OffsetOf, BlocksFor, Partition, HeadLive, WriteBlock, Charted;
    if k > 0 {
      WriteColdCharted(p, m, ids, k - 1);
      var q := WriteCold(p, ids, k - 1);
      WriteBlockCharted(q, m, k - 1);
    }
  }

  lemma WriteBlockCharted(p: Pool, m: Chart, i: nat)
    requires Shaped(p) && Charted(p, m, p.total) && i < |p.own|
    ensures Charted(WriteBlock(p, i), m, p.total)
  {
    hide Before, BlockOf, OffsetOf, BlocksFor;
    var q := WriteBlock(p, i);
    LenPositive(p, i);
    BeforeMono(0, i, p.bt);
    forall r: nat | r < p.total ensures OnRecord(q, m, r) {
      assert OnRecord(p, m, r);
    }
    forall c | 0 <= c < |q.cells| && q.cells[c].Live? ensures CellCharted(q.cells[c], m, p.total) {
      if q.cells[c] != p.cells[c] {
        OneCharted(p, m, p.total, Before(i, p.bt) + (c - Before(p.own[i].slot, p.bt)));
      }
    }
  }

  lemma SelectCharted(p: Pool, m: Chart, sel: Selection)
    requires Valid(p) && Charted(p, m, p.total)
    ensures Charted(Select(p, sel), m, p.total)
  {
    hide Before, BlockOf, OffsetOf, BlocksFor, Charted, Layout, WriteCold;
    if sel.epoch == p.epoch && sel.rows == p.total {
      PlanValid(p, Ids(sel.blocks));
      var planned := ApplyPlan(p, Ids(sel.blocks)).(pinned := true);
      DimmedCharted(p, planned, m, p.total);
      LayoutCharted(planned, m);
      WriteColdCharted(planned, m, Incoming(p, Ids(sel.blocks)), |planned.own|);
    }
  }

  // ----- The invariant over serving runs -----

  /** The positions after an act. */
  ghost function Plot(s: State, m: Chart, a: Act): Chart
    requires Valid(s.p)
  {
    match a
    case Extend(batch, pick) => if Prepare(Noted(s.p, batch), |batch|, pick).0 then Plotted(m, s.u, batch) else m
    case Refill(batch) => if AllMapped(s.p, batch) then Plotted(m, s.u, batch) else m
    case Forget => map[]
    case _ => m
  }

  lemma RemovedCharted(p: Pool, m: Chart, u: nat, t: nat)
    requires Valid(p) && Charted(p, m, u) && t <= u
    ensures Charted(Step(p, RemoveRows(t, -1)), m, t)
  {
    hide Before, BlockOf, OffsetOf, BlocksFor, Partition;
    var q := Step(p, RemoveRows(t, -1));
    forall r: nat | r < t ensures OnRecord(q, m, r) {
      assert OnRecord(p, m, r);
    }
  }

  lemma CutCharted(p: Pool, m: Chart, t: nat)
    requires Valid(p) && Charted(p, m, t)
    ensures Charted(Cut(p, t), m, t)
  {
    hide Before, BlockOf, OffsetOf, BlocksFor, Partition;
    forall r: nat | r < t ensures OnRecord(Cut(p, t), m, r) {
      assert OnRecord(p, m, r);
    }
  }

  lemma ActCharted(s: State, m: Chart, a: Act)
    requires Safe(s) && Allowed(s, a) && Charted(s.p, m, s.u)
    ensures Charted(After(s, a).p, Plot(s, m, a), After(s, a).u)
  {
    hide Before, BlockOf, OffsetOf, BlocksFor, Decode, Prepare, TailLive, RoomIsSafe, ContinuesAt, Plotted, Charted,
         Select, Cut, HarvestAll, Found, Sound, Packed;
    match a
    case Extend(batch, pick) =>
      OneBatch(s.p, batch, pick);
      ExtendCharted(s.p, s.h, m, batch, pick);
    case Rollback(t) =>
      TwoSteps(s.p, RemoveRows(t, -1), TruncateCached(t));
      RemovedCharted(s.p, m, s.u, t);
      CutCharted(Step(s.p, RemoveRows(t, -1)), m, t);
    case StartReplay(t) =>
      TwoSteps(s.p, RemoveRows(t, -1), SetReplay(true, t));
      RemovedCharted(s.p, m, s.u, t);
      DimmedCharted(Step(s.p, RemoveRows(t, -1)), After(s, a).p, m, t);
    case Refill(batch) =>
      OneBatch(s.p, batch, None);
      RefillCharted(s.p, s.h, m, s.u, batch);
    case Retrieve(sel) =>
      OneStep(s.p, ApplySelection(sel));
      SelectCharted(s.p, m, sel);
    case Forget =>
      OneStep(s.p, Clear);
      ClearedCharted(s.p);
    case _ =>
      OneStep(s.p, Events(a)[0]);
      DimmedCharted(s.p, After(s, a).p, m, s.u);
  }

  lemma ClearedCharted(p: Pool)
    requires Valid(p)
    ensures Charted(Step(p, Clear), map[], 0)
  {
  }

  ghost function ServePlot(s: State, acts: seq<Act>): Chart
    requires Valid(s.p)
  {
    if acts == [] then map[] else
      Plot(Serve(s, acts[..|acts| - 1]), ServePlot(s, acts[..|acts| - 1]), acts[|acts| - 1])
  }

  lemma {:induction false} ServeCharted(s: State, acts: seq<Act>)
    requires Safe(s) && s.u == 0 && AllAllowed(s, acts)
    ensures Safe(Serve(s, acts)) && Charted(Serve(s, acts).p, ServePlot(s, acts), Serve(s, acts).u)
  {
    hide Plot, After, Charted, Allowed;
    if acts == [] {
      NothingCharted(s);
    } else {
      var front := acts[..|acts| - 1];
      ServeCharted(s, front);
      ActSafe(Serve(s, front), acts[|acts| - 1]);
      ActCharted(Serve(s, front), ServePlot(s, front), acts[|acts| - 1]);
    }
  }

  lemma NothingCharted(s: State)
    requires Safe(s) && s.u == 0
    ensures Charted(s.p, map[], 0)
  {
    forall c | 0 <= c < |s.p.cells| ensures !s.p.cells[c].Live? {
    }
  }

  // ----- When a serving run leaves a valid view -----

  /** With every row computed, the live cells are exact if and only if each resident is live at its head. */
  lemma ChartedExact(p: Pool, h: History, m: Chart)
    requires Coherent(p, h, p.total) && Charted(p, m, p.total)
    ensures Exact(p) <==> forall i :: 0 <= i < |p.own| && Resident(p.own[i]) ==> HeadLive(p, i)
  {
    hide Before, BlockOf, OffsetOf, BlocksFor, Partition, HeadLive, Found, Packed, Charted;
    if Exact(p) {
      forall i | 0 <= i < |p.own| && Resident(p.own[i]) ensures HeadLive(p, i) {
        ExactHead(p, i);
      }
    }
    if forall i :: 0 <= i < |p.own| && Resident(p.own[i]) ==> HeadLive(p, i) {
      forall r: nat | Stored(p, r) ensures InPlace(p, r) {
        StoredInPlace(p, h, m, r);
      }
      forall c | 0 <= c < |p.cells| && p.cells[c].Live?
        ensures Stored(p, p.cells[c].row) && CellOf(p, p.cells[c].row) == c
      {
        assert Sound(p, h, p.total, c);
      }
    }
  }

  lemma ExactHead(p: Pool, i: nat)
    requires Valid(p) && Exact(p) && i < |p.own| && Resident(p.own[i])
    ensures HeadLive(p, i)
  {
    hide BlockOf, OffsetOf, BlocksFor, Partition, Exact;
    ExactComplete(p, i);
    assert RowLive(p, i, 0);
    BeforeMono(0, p.own[i].slot, p.bt);
  }

  lemma StoredInPlace(p: Pool, h: History, m: Chart, r: nat)
    requires Coherent(p, h, p.total) && Charted(p, m, p.total) && Stored(p, r) && HeadLive(p, BlockOf(r, p.bt))
    ensures InPlace(p, r)
  {
    hide Before, BlockOf, OffsetOf, BlocksFor, Partition, HeadLive, Packed;
    var i, o := BlockOf(r, p.bt), OffsetOf(r, p.bt);
    RowInBlock(r, p.bt, p.total);
    LenPositive(p, i);
    CellIsNat(p, r);
    assert Found(p, p.total, i) && OnRecord(p, m, r);
    assert LiveAt(p, i, o);
    assert CellCharted(p.cells[CellOf(p, r)], m, p.total);
  }

  /** Over every serving run from an empty pool of whole slots: the position on record for each computed row is
      the one it was last decoded at, each live cell is live at that position, and, outside a replay, an
      attention view is valid if and only if each resident is live at its head, and in the slot of its rank
      where that is asked for. */
  lemma ViewsOfServing(bt: nat, nSlots: nat, highWater: nat, kv: seq<Bytes>, acts: seq<Act>, canonical: bool)
    requires bt > 0 && |kv| == Before(nSlots, bt)
    requires AllAllowed(State(Fresh(bt, nSlots, |kv|, highWater, kv), map[], 0), acts)
    ensures var s0 := State(Fresh(bt, nSlots, |kv|, highWater, kv), map[], 0);
      var s := Serve(s0, acts);
      && Charted(s.p, ServePlot(s0, acts), s.u) && s.p.bt > 0 && |s.p.cells| == s.p.kvSize
      && (s.u == s.p.total ==>
            (AttentionView(s.p, canonical).valid <==>
               (forall i :: 0 <= i < |s.p.own| && Resident(s.p.own[i]) ==> HeadLive(s.p, i))
               && (canonical ==> SlotsInOrder(s.p.own))))
  {
    hide Charted, Exact, AttentionView;
    var s0 := State(Fresh(bt, nSlots, |kv|, highWater, kv), map[], 0);
    assert Safe(s0);
    ServeCharted(s0, acts);
    var s := Serve(s0, acts);
    ViewValidIff(s.p, canonical);
    if s.u == s.p.total {
      ChartedExact(s.p, s.h, ServePlot(s0, acts));
    }
  }
}
