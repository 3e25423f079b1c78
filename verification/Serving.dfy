/** Serving runs: prefill, decode, rollback, query replay and retrieval as the callers drive them. Over
    every such run no stale byte is attended and no stored row is lost. */
module Serving {
  import opened Arith
  import opened SlotTable
  import opened SlotPool
  import opened Runs
  import opened Admission
  import opened Epoch
  import opened Views
  import opened Coherence
  import opened CoherentRuns

  /** What the callers do, each a short sequence of pool operations. */
  datatype Act =
    | Extend(batch: seq<Row>, pick: Option<set<nat>>)  // decode new rows
    | Rollback(t: nat)                                 // remove rows from t on and truncate
    | StartReplay(t: nat)                              // remove rows from t on and enter replay
    | Refill(batch: seq<Row>)                          // decode removed rows again
    | EndReplay
    | Retrieve(sel: Selection)
    | Pack                                             // pack full resident blocks
    | Forget                                           // clear the whole cache
    | Other(e: Event)                                  // flags and marks only

  function Events(a: Act): seq<Event> {
    match a
    case Extend(batch, pick) => [Batch(batch, pick)]
    case Rollback(t) => [RemoveRows(t, -1), TruncateCached(t)]
    case StartReplay(t) => [RemoveRows(t, -1), SetReplay(true, t)]
    case Refill(batch) => [Batch(batch, None)]
    case EndReplay => [SetReplay(false, 0)]
    case Retrieve(sel) => [ApplySelection(sel)]
    case Pack => [HarvestFull]
    case Forget => [Clear]
    case Other(e) => [e]
  }

  /** A pool with its ghost history: the bytes last computed for each row, and how many of the first
      rows are computed at present. */
  datatype State = State(p: Pool, h: History, u: nat)

  /** Whether making room for n rows runs a pressure plan. */
  predicate PlanRuns(p: Pool, n: nat, pick: Option<set<nat>>)
    requires Shaped(p)
  {
    && n > 0 && !p.replay && pick.Some? && !(p.pinned || p.keep)
    && NeedsOffload(Append(p, n), ResidentRows(Append(p, n), |Append(p, n).own|), n)
  }

  /** Some rows of the last block, but not all, are computed, and they are live. */
  predicate HotTail(p: Pool)
    requires Shaped(p)
  {
    OffsetOf(p.total, p.bt) > 0 && BlockOf(p.total, p.bt) < |p.own| && HeadLive(p, BlockOf(p.total, p.bt))
  }

  /** A plan that runs keeps a live, partly computed tail. */
  predicate RoomIsSafe(p: Pool, n: nat, pick: Option<set<nat>>)
    requires Shaped(p)
  {
    PlanRuns(p, n, pick) && HotTail(p) ==> BlockOf(p.total, p.bt) in pick.value
  }

  /** How the callers use the pool. Rows are decoded in order; a pressure plan does not drop a live, partly
      computed tail; a partial block is appended to only while it is live. */
  ghost predicate Allowed(s: State, a: Act)
    requires Valid(s.p)
  {
    var p, u := s.p, s.u;
    match a
    case Extend(batch, pick) =>
      && !p.replay && u == p.total && batch != [] && ContinuesAt(batch, u) && TailLive(p, u)
      && RoomIsSafe(p, |batch|, pick)
    case Rollback(t) => t <= u
    case StartReplay(t) => !p.replay && u == p.total && t <= u
    case Refill(batch) =>
      p.replay && batch != [] && ContinuesAt(batch, u) && u + |batch| <= p.total && TailLive(p, u)
    case EndReplay => true
    case Retrieve(_) => !p.replay && u == p.total
    case Pack => u == p.total
    case Forget => true
    case Other(e) => e.Pin? || e.KeepSelected? || e.BeginTurn? || e.CommitResident?
  }

  ghost function After(s: State, a: Act): State
    requires Valid(s.p)
  {
    var q := RunFrom(s.p, Events(a));
    match a
    case Extend(batch, pick) =>
      if Prepare(Noted(s.p, batch), |batch|, pick).0 then State(q, Learned(s.h, batch), s.u + |batch|)
      else State(q, s.h, s.u)
    case Rollback(t) => State(q, s.h, t)
    case StartReplay(t) => State(q, s.h, t)
    case Forget => State(q, map[], 0)
    case Refill(batch) =>
      if AllMapped(s.p, batch) then State(q, Learned(s.h, batch), s.u + |batch|) else State(q, s.h, s.u)
    case _ => State(q, s.h, s.u)
  }

  function RunFrom(p: Pool, es: seq<Event>): (q: Pool)
    requires Valid(p)
    ensures Valid(q)
    decreases |es|
  {
    if es == [] then p else
      StepValid(p, es[0]);
      RunFrom(Step(p, es[0]), es[1..])
  }

  ghost predicate Safe(s: State) {
    Coherent(s.p, s.h, s.u)
  }

  // ----- Extending -----

  /** A plan that keeps the live tail moves out only blocks that are cold or computed in full. */
  lemma RoomPackable(p: Pool, n: nat, pick: set<nat>)
    requires Valid(p) && (HotTail(p) ==> BlockOf(p.total, p.bt) in pick)
    ensures var a := Append(p, n); AllPackable(a, p.total, Outgoing(a, pick))
  {
    var a := Append(p, n);
    RowSplit(p.total, p.bt);
    forall i | i in Outgoing(a, pick) && i < |a.own| ensures Packable(a, p.total, i) {
      if HeadLive(a, i) {
        BlocksForCovers(p.total, p.bt, i);
        BeforeMono(i, BlockOf(p.total, p.bt), p.bt);
        BeforeMono(BlockOf(p.total, p.bt), i, p.bt);
      }
    }
  }

  lemma PlacedCoherent(a: Pool, h: History, u: nat, n: nat, pick: Option<set<nat>>)
    requires Coherent(a, h, u)
    requires pick.Some? && !(a.pinned || a.keep) && NeedsOffload(a, ResidentRows(a, |a.own|), n) ==>
               AllPackable(a, u, Outgoing(a, pick.value))
    ensures var r := Placed(a, u, n, pick); r.Some? ==> Coherent(r.value, h, u)
    ensures var r := Placed(a, u, n, pick); r.Some? && TailPlaced(r.value, u) && TailLive(a, u) ==> TailLive(r.value, u)
  {
    hide Before, BlockOf, OffsetOf, BlocksFor, ApplyPlan;
    var r := Placed(a, u, n, pick);
    if pick.Some? && !(a.pinned || a.keep) && NeedsOffload(a, ResidentRows(a, |a.own|), n) {
      PlanCoherent(a, h, u, pick.value);
      PlanTailLive(a, u, pick.value);
    } else {
      AssignCoherent(a, h, u, Touched(a, u));
    }
  }

  lemma AssignCoherent(a: Pool, h: History, u: nat, want: set<nat>)
    requires Coherent(a, h, u)
    ensures var (own', free') := Assign(a.own, a.free, want, 0);
      var q := a.(own := own', free := free');
      Coherent(q, h, u) && (TailLive(a, u) ==> TailLive(q, u))
  {
    hide Before, BlockOf, OffsetOf, BlocksFor;
    AssignPartition(a.own, a.free, a.nSlots, want, 0);
    FreeInRange(a.own, a.free, a.nSlots);
    AssignExtends(a.own, a.free, want, 0);
    var (own', free') := Assign(a.own, a.free, want, 0);
    ReplacedCoherent(a, a.(own := own', free := free'), h, u);
  }

  lemma PlanTailLive(a: Pool, u: nat, sel: set<nat>)
    requires Valid(a) && |ApplyPlan(a, sel).own| == |a.own|
    ensures TailPlaced(ApplyPlan(a, sel), u) && TailLive(a, u) ==> TailLive(ApplyPlan(a, sel), u)
  {
    hide ApplyPlan;
    PlanSwaps(a, sel);
    var i, q := BlockOf(u, a.bt), ApplyPlan(a, sel);
    if i < |a.own| && HeadLive(a, i) && TailPlaced(q, u) {
      assert i !in Outgoing(a, sel);
      RowUnique(i, 0, a.bt);
    }
  }

  /** Making room loses nothing, whether it succeeds or not. */
  lemma PrepareCoherent(p: Pool, h: History, n: nat, pick: Option<set<nat>>)
    requires Coherent(p, h, p.total) && RoomIsSafe(p, n, pick)
    ensures var (ok, q) := Prepare(p, n, pick);
      Coherent(q, h, p.total) && (TailLive(p, p.total) && ok ==> TailLive(q, p.total))
      && (!p.replay ==> q.total == p.total + if ok then n else 0)
  {
    hide Before, BlockOf, OffsetOf, BlocksFor, ApplyPlan, HotTail;
    if n > 0 && !p.replay {
      var a := Append(p, n);
      AppendCoherent(p, n, h, p.total);
      AppendTailLive(p, n);
      if PlanRuns(p, n, pick) {
        RoomPackable(p, n, pick.value);
      }
      PlacedCoherent(a, h, p.total, n, pick);
      var grown := Placed(a, p.total, n, pick);
      TruncateCoherent(if grown.Some? then grown.value else a, h, p.total);
    }
  }

  lemma AppendTailLive(p: Pool, n: nat)
    requires Valid(p)
    ensures TailLive(p, p.total) ==> TailLive(Append(p, n), p.total)
  {
    hide Before, BlockOf, OffsetOf, BlocksFor;
  }

  lemma OneStep(p: Pool, e: Event)
    requires Valid(p)
    ensures RunFrom(p, [e]) == Step(p, e)
  {
    StepValid(p, e);
  }

  lemma OneBatch(p: Pool, batch: seq<Row>, pick: Option<set<nat>>)
    requires Valid(p)
    ensures RunFrom(p, [Batch(batch, pick)]) == Decode(p, batch, pick)
  {
    hide Decode;
    OneStep(p, Batch(batch, pick));
  }

  lemma RoomIsMapped(p: Pool, batch: seq<Row>, pick: Option<set<nat>>)
    requires Valid(p) && !p.replay && p.kvSize == Before(p.nSlots, p.bt) && ContinuesAt(batch, p.total)
    requires Prepare(p, |batch|, pick).0
    ensures AllMapped(Prepare(p, |batch|, pick).1, batch)
  {
    hide Before, BlockOf, OffsetOf, BlocksFor, Mapped, Prepare;
    forall k | 0 <= k < |batch| ensures Mapped(Prepare(p, |batch|, pick).1, batch[k].row) {
      WholeSlotsGiveCells(p, |batch|, pick, batch[k].row);
    }
  }

  /** Decoding new rows: they become coherent if room was made, and otherwise nothing is lost. */
  lemma ExtendSafe(p: Pool, h: History, batch: seq<Row>, pick: Option<set<nat>>)
    requires Coherent(p, h, p.total) && Allowed(State(p, h, p.total), Extend(batch, pick))
    ensures Noted(p, batch) == p
    ensures var ok := Prepare(p, |batch|, pick).0;
      if ok then Coherent(Decode(p, batch, pick), Learned(h, batch), p.total + |batch|)
      else Coherent(Decode(p, batch, pick), h, p.total)
  {
    hide Before, BlockOf, OffsetOf, BlocksFor, Prepare, Store, Learned;
    PrepareCoherent(p, h, |batch|, pick);
    var (ok, q) := Prepare(p, |batch|, pick);
    if ok {
      RoomIsMapped(p, batch, pick);
      StoreCoherent(q, h, p.total, batch);
    }
  }

  lemma MappedStill(p: Pool, q: Pool, batch: seq<Row>)
    requires p.bt > 0 && q == p.(epoch := q.epoch)
    ensures AllMapped(q, batch) <==> AllMapped(p, batch)
  {
    hide Before, BlockOf, OffsetOf, BlocksFor;
    forall k | 0 <= k < |batch| ensures Mapped(q, batch[k].row) <==> Mapped(p, batch[k].row) {
    }
  }

  /** Decoding removed rows again during a replay. */
  lemma RefillSafe(p: Pool, h: History, u: nat, batch: seq<Row>)
    requires Coherent(p, h, u) && Allowed(State(p, h, u), Refill(batch))
    ensures if AllMapped(p, batch) then Coherent(Decode(p, batch, None), Learned(h, batch), u + |batch|)
            else Coherent(Decode(p, batch, None), h, u)
  {
    hide Before, BlockOf, OffsetOf, BlocksFor, Mapped, Learned;
    var q := Noted(p, batch);
    PositionsCoherent(p, q, h, u);
    MappedStill(p, q, batch);
    assert Decode(p, batch, None) == Store(q, batch);
    if AllMapped(p, batch) {
      StoreCoherent(q, h, u, batch);
    } else {
      UnmappedStores(q, batch);
      PositionsCoherent(q, Store(q, batch), h, u);
    }
  }

  lemma UnmappedStores(p: Pool, batch: seq<Row>)
    requires p.bt > 0 && |p.cells| == |p.kv| && !AllMapped(p, batch)
    ensures Store(p, batch) == p.(rowPos := Store(p, batch).rowPos)
  {
    var k :| 0 <= k < |batch| && !Mapped(p, batch[k].row);
    assert FillSlots(p, batch).None?;
  }

  lemma TwoSteps(p: Pool, a: Event, b: Event)
    requires Valid(p)
    ensures Valid(Step(p, a)) && RunFrom(p, [a, b]) == Step(Step(p, a), b)
  {
    StepValid(p, a);
    assert [a, b][1..] == [b] && [b][1..] == [];
    StepValid(Step(p, a), b);
    assert RunFrom(Step(p, a), [b]) == Step(Step(p, a), b);
  }

  lemma CommittedCoherent(p: Pool, h: History, u: nat)
    requires Coherent(p, h, u)
    ensures Coherent(Step(p, CommitResident), h, u)
  {
    StepValid(p, CommitResident);
    ReplacedCoherent(p, Step(p, CommitResident), h, u);
  }

  lemma PackSafe(p: Pool, h: History)
    requires Coherent(p, h, p.total)
    ensures Coherent(Step(p, HarvestFull), h, p.total)
  {
    var ids := FullResidents(p);
    forall i | i in ids && i < |p.own| ensures Done(p, p.total, i) == Len(p, i) {
      ResidentRestorable(p, h, i);
    }
    HarvestAllCoherent(p, h, p.total, ids, |p.own|);
  }

  /** Flags, and leaving a replay, do not touch the cache. */
  lemma FlagsSafe(p: Pool, h: History, u: nat, e: Event)
    requires Coherent(p, h, u)
    requires e == SetReplay(false, 0) || e.Pin? || e.KeepSelected? || e.BeginTurn? || e.CommitResident?
    ensures Coherent(Step(p, e), h, u)
  {
    hide Before, BlockOf, OffsetOf, BlocksFor;
    if e.CommitResident? {
      CommittedCoherent(p, h, u);
    } else {
      PositionsCoherent(p, Step(p, e), h, u);
    }
  }

  lemma ClearedCoherent(p: Pool)
    requires Valid(p) && p.kvSize == Before(p.nSlots, p.bt)
    ensures Coherent(Step(p, Clear), map[], 0)
  {
    RemoveCellsValid(p, {}, true);
  }

  lemma RetrieveSafe(p: Pool, h: History, sel: Selection)
    requires Coherent(p, h, p.total)
    ensures Coherent(Step(p, ApplySelection(sel)), h, p.total)
  {
    hide Select;
    SelectCoherent(p, h, sel);
  }

  /** Every allowed act keeps the pool coherent with its history. */
  lemma ActSafe(s: State, a: Act)
    requires Safe(s) && Allowed(s, a)
    ensures Safe(After(s, a))
  {
    hide Before, BlockOf, OffsetOf, BlocksFor, Step, Decode, Prepare, TailLive, RoomIsSafe, ContinuesAt, Learned;
    match a
    case Extend(batch, pick) =>
      OneBatch(s.p, batch, pick);
      ExtendSafe(s.p, s.h, batch, pick);
    case Rollback(t) =>
      TwoSteps(s.p, RemoveRows(t, -1), TruncateCached(t));
      RollbackCoherent(s.p, s.h, s.u, t);
    case StartReplay(t) =>
      TwoSteps(s.p, RemoveRows(t, -1), SetReplay(true, t));
      ReplayCoherent(s.p, s.h, s.u, t);
    case Refill(batch) =>
      OneBatch(s.p, batch, None);
      RefillSafe(s.p, s.h, s.u, batch);
    case EndReplay =>
      OneStep(s.p, SetReplay(false, 0));
      FlagsSafe(s.p, s.h, s.u, SetReplay(false, 0));
    case Retrieve(sel) =>
      OneStep(s.p, ApplySelection(sel));
      RetrieveSafe(s.p, s.h, sel);
    case Pack =>
      OneStep(s.p, HarvestFull);
      PackSafe(s.p, s.h);
    case Forget =>
      OneStep(s.p, Clear);
      ClearedCoherent(s.p);
    case Other(e) =>
      OneStep(s.p, e);
      FlagsSafe(s.p, s.h, s.u, e);
  }

  ghost function Serve(s: State, acts: seq<Act>): (t: State)
    requires Valid(s.p)
    ensures Valid(t.p)
  {
    if acts == [] then s else After(Serve(s, acts[..|acts| - 1]), acts[|acts| - 1])
  }

  ghost predicate AllAllowed(s: State, acts: seq<Act>)
    requires Valid(s.p)
  {
    acts == [] ||
    (AllAllowed(s, acts[..|acts| - 1]) && Allowed(Serve(s, acts[..|acts| - 1]), acts[|acts| - 1]))
  }

  lemma {:induction false} ServeSafe(s: State, acts: seq<Act>)
    requires Safe(s) && AllAllowed(s, acts)
    ensures Safe(Serve(s, acts))
  {
    if acts != [] {
      ServeSafe(s, acts[..|acts| - 1]);
      ActSafe(Serve(s, acts[..|acts| - 1]), acts[|acts| - 1]);
    }
  }

  // ----- Why a partial block must be live to be appended to -----

  /** The guard of `can_append`: an admitted continuation starts at a live tail. */
  lemma AdmittedTailIsLive(p: Pool, budgetBlocks: nat, end: nat, gen: nat, allHistory: bool)
    requires Valid(p) && CanAppend(p, budgetBlocks, end, gen, allHistory).None?
    ensures TailLive(p, p.total)
  {
    var i := BlockOf(p.total, p.bt);
    if OffsetOf(p.total, p.bt) != 0 {
      assert RowLive(p, i, 0);
      BeforeMono(0, p.own[i].slot, p.bt);
    }
  }

  lemma HeadUntouched(p: Pool, batch: seq<Row>, u: nat)
    requires Shaped(p) && ContinuesAt(batch, u) && AllMapped(p, batch) && batch != []
    requires BlockOf(u, p.bt) < |p.own| && OffsetOf(u, p.bt) > 0 && !HeadLive(p, BlockOf(u, p.bt))
    ensures !HeadLive(Store(p, batch), BlockOf(u, p.bt))
  {
    var i, q := BlockOf(u, p.bt), Store(p, batch);
    RowSplit(u, p.bt);
    if HeadLive(q, i) {
      var c := Before(p.own[i].slot, p.bt);
      var idx := FillSlots(p, batch);
      if idx.Some? {
        WrittenCells(p.cells, p.kv, batch, idx.value, c);
      }
    }
  }

  /** Appending keeps a partial block in one piece exactly when its first row is live: with the block
      cold, the new rows are on the GPU only and the old ones packed only, and neither is whole. */
  lemma AppendNeedsLiveTail(p: Pool, h: History, u: nat, batch: seq<Row>)
    requires Coherent(p, h, u) && batch != [] && ContinuesAt(batch, u) && AllMapped(p, batch) && u + |batch| <= p.total
    ensures BlockOf(u, p.bt) < |p.own|
    ensures Found(Store(p, batch), u + |batch|, BlockOf(u, p.bt)) <==> TailLive(p, u)
  {
    hide Store, Learned;
    var i := BlockOf(u, p.bt);
    assert Mapped(p, batch[0].row);
    if TailLive(p, u) {
      StoreCoherent(p, h, u, batch);
    } else {
      HeadUntouched(p, batch, u);
      SplitDone(p, u, |batch|);
      if i in p.raw {
        assert Packed(p, h, u, i);
      }
    }
  }

  /** Row u adds to the computed rows of its own block. */
  lemma SplitDone(p: Pool, u: nat, n: nat)
    requires p.bt > 0 && n > 0 && u + n <= p.total
    ensures Done(p, u, BlockOf(u, p.bt)) < Done(p, u + n, BlockOf(u, p.bt))
  {
    RowSplit(u, p.bt);
  }

  /** Row r can be found with bytes v: live in its own cell, or packed. */
  ghost predicate Recoverable(p: Pool, r: nat, v: Bytes)
    requires p.bt > 0 && |p.kv| == |p.cells|
  {
    var i, o := BlockOf(r, p.bt), OffsetOf(r, p.bt);
    || (Held(p, r) && p.cells[CellOf(p, r)].Live? && p.cells[CellOf(p, r)].row == r && p.kv[CellOf(p, r)] == v)
    || (i in p.raw && o < |p.raw[i]| && p.raw[i][o] == v)
  }

  /** Over every serving run from an empty pool of whole slots: each live cell is the own cell of a
      stored row and holds the bytes last computed for it, and every computed row is recoverable. */
  lemma NothingStaleNothingLost(bt: nat, nSlots: nat, highWater: nat, kv: seq<Bytes>, acts: seq<Act>)
    requires bt > 0 && |kv| == Before(nSlots, bt)
    requires AllAllowed(State(Fresh(bt, nSlots, |kv|, highWater, kv), map[], 0), acts)
    ensures var s := Serve(State(Fresh(bt, nSlots, |kv|, highWater, kv), map[], 0), acts);
      && (forall c :: 0 <= c < |s.p.cells| && s.p.cells[c].Live? ==> Sound(s.p, s.h, s.u, c))
      && (forall r: nat :: r < s.u ==> r in s.h && Recoverable(s.p, r, s.h[r]))
  {
    var s0 := State(Fresh(bt, nSlots, |kv|, highWater, kv), map[], 0);
    assert Safe(s0);
    ServeSafe(s0, acts);
    var s := Serve(s0, acts);
    forall r: nat | r < s.u ensures r in s.h && Recoverable(s.p, r, s.h[r]) {
      CoherentRecovers(s.p, s.h, s.u, r);
    }
  }

  lemma CoherentRecovers(p: Pool, h: History, u: nat, r: nat)
    requires Coherent(p, h, u) && r < u
    ensures r in h && Recoverable(p, r, h[r])
  {
    hide Before, BlockOf, OffsetOf, BlocksFor;
    var i, o := BlockOf(r, p.bt), OffsetOf(r, p.bt);
    RowInBlock(r, p.bt, p.total);
    LenPositive(p, i);
    assert Found(p, u, i);
    if HeadLive(p, i) {
      HeadBytes(p, h, u, i, o);
      assert LiveAt(p, i, o);
      assert Sound(p, h, u, Before(p.own[i].slot, p.bt) + o);
    } else {
      assert Packed(p, h, u, i);
      assert RowIs(h, Before(i, p.bt) + o, p.raw[i][o]);
    }
  }
}
