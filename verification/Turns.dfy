/** What a turn keeps: plans that change nothing, the exact steps that leave the epoch alone, the residents of
    a pinned window, and what packing and committing the residents leave behind. */
module Turns {
  import opened Arith
  import opened SlotTable
  import opened SlotPool
  import opened Runs
  import opened Epoch
  import opened Views
  import opened Relayout
  import opened Coherence
  import opened CoherentRuns
  import opened Room

  // ----- Plans that change nothing -----

  /** Every GPU block is selected, and every selected block is in the working set. */
  ghost predicate Idle(own: seq<Info>, sel: set<nat>) {
    forall i: nat :: i < |own| ==> (own[i].onGpu ==> i in sel) && (i in sel ==> own[i].inSet)
  }

  lemma {:induction false} NothingFreed(own: seq<Info>, sel: set<nat>)
    requires Idle(own, sel)
    ensures Freed(own, sel) == []
  {
    if own != [] {
      NothingFreed(own[..|own| - 1], sel);
    }
  }

  lemma {:induction false} NothingHarvested(p: Pool, k: nat)
    requires Shaped(p) && k <= |p.own|
    ensures HarvestAll(p, {}, k) == p
  {
    if k > 0 {
      NothingHarvested(p, k - 1);
    }
  }

  /** A plan keeps the epoch if and only if it is idle, and then it changes nothing at all. */
  lemma IdleIff(p: Pool, sel: set<nat>)
    requires Valid(p)
    ensures ApplyPlan(p, sel).epoch == p.epoch <==> Idle(p.own, sel)
    ensures Idle(p.own, sel) ==> ApplyPlan(p, sel) == p
  {
    hide Partition;
    var outs, ins := Outgoing(p, sel), Incoming(p, sel);
    if outs == {} && ins == {} {
      forall i: nat | i < |p.own| ensures (p.own[i].onGpu ==> i in sel) && (i in sel ==> p.own[i].inSet) {
        assert i !in outs && i !in ins;
      }
    }
    if Idle(p.own, sel) {
      assert outs == {} && ins == {};
      NothingFreed(p.own, sel);
      NothingHarvested(p, |p.own|);
      assert Marked(p.own, sel) == p.own && p.free + [] == p.free;
      PassedOver(p.own, p.free, {}, 0, |p.own|);
      assert OnGpu(p.own, {}) == p.own && KillBlocks(p, {}) == p.cells;
    }
  }

  lemma PlanSettles(p: Pool, sel: set<nat>)
    requires Valid(p)
    ensures Idle(ApplyPlan(p, sel).own, sel) && |ApplyPlan(p, sel).own| == |p.own|
  {
    FreeInRange(p.own, p.free, p.nSlots);
    MarkedPartition(p.own, p.free, p.nSlots, sel);
    FreeInRange(Marked(p.own, sel), p.free + Freed(p.own, sel), p.nSlots);
    AssignExtends(Marked(p.own, sel), p.free + Freed(p.own, sel), Incoming(p, sel), 0);
  }

  lemma PackedInOrder(own: seq<Info>)
    ensures SlotsInOrder(PackedOwn(own))
  {
    forall i | 0 <= i < |own| && Resident(own[i]) ensures RankOf(PackedOwn(own), i) == RankOf(own, i) {
      PackedPrefix(own, i);
      SameResidents(PackedOwn(own[..i]), own[..i]);
    }
  }

  lemma {:induction false} SameResidents(a: seq<Info>, b: seq<Info>)
    requires |a| == |b| && forall i :: 0 <= i < |a| ==> (Resident(a[i]) <==> Resident(b[i]))
    ensures Residents(a) == Residents(b)
  {
    if a != [] {
      SameResidents(a[..|a| - 1], b[..|b| - 1]);
    }
  }

  /** Selecting the same blocks again, for the epoch the first selection left, changes nothing. */
  lemma SelectTwice(p: Pool, sel: Selection)
    requires Valid(p) && sel.epoch == p.epoch && sel.rows == p.total
    ensures var q := Select(p, sel);
      Valid(q) && Select(q, Selection(q.epoch, q.total, sel.blocks)) == q
  {
    hide Partition, Before, BlockOf, OffsetOf, BlocksFor, HeadLive, ApplyPlan, Idle;
    var ids, q := Ids(sel.blocks), Select(p, sel);
    SelectValid(p, sel);
    PlanValid(p, ids);
    PlanSettles(p, ids);
    var planned := ApplyPlan(p, ids).(pinned := true);
    if Moves(planned) {
      PackedInOrder(planned.own);
    }
    SettledOwn(planned, q, ids);
    IdleIff(q, ids);
    NothingIncoming(q, ids);
    WriteNothing(q, |q.own|);
  }

  lemma SettledOwn(p: Pool, q: Pool, ids: set<nat>)
    requires Idle(p.own, ids) && (q.own == p.own || q.own == PackedOwn(p.own))
    requires forall i :: 0 <= i < |p.own| && Resident(p.own[i]) ==> p.own[i].onGpu
    ensures Idle(q.own, ids)
  {
  }

  lemma NothingIncoming(p: Pool, ids: set<nat>)
    requires Idle(p.own, ids)
    ensures Incoming(p, ids) == {}
  {
  }

  // ----- Exactly when the epoch stands -----

  /** The step moves and rewrites nothing that was stored. */
  ghost predicate Quiet(p: Pool, e: Event)
    requires Valid(p)
  {
    match e
    case Batch(batch, pick) =>
      && (forall k :: 0 <= k < |batch| ==> !(0 <= batch[k].row < p.total))
      && (batch != [] && !p.replay && pick.Some? && PlanDue(p, |batch|) ==> Idle(Append(p, |batch|).own, pick.value))
    case TruncateCached(t) => t >= p.total
    case RemoveRows(_, _) => false
    case SetReplay(on, _) => on ==> p.replay
    case ApplySelection(sel) =>
      sel.epoch == p.epoch && sel.rows == p.total ==> Idle(p.own, Ids(sel.blocks)) && SlotsInOrder(p.own)
    case SeqRm(_, _) => false
    case Clear => false
    case _ => true
  }

  lemma BatchQuietIff(p: Pool, batch: seq<Row>, pick: Option<set<nat>>)
    requires Valid(p)
    ensures Decode(p, batch, pick).epoch == p.epoch <==> Quiet(p, Batch(batch, pick))
  {
    hide Partition, Before, BlockOf, OffsetOf, BlocksFor, Idle, ApplyPlan, Prepare, Store, PlanDue;
    PrepareUnchanged(Noted(p, batch), |batch|, pick);
    PrepareQuiet(p, |batch|, pick);
  }

  lemma PrepareQuiet(p: Pool, n: nat, pick: Option<set<nat>>)
    requires Valid(p)
    ensures Prepare(p, n, pick).1.epoch == p.epoch <==>
              (n > 0 && !p.replay && pick.Some? && PlanDue(p, n) ==> Idle(Append(p, n).own, pick.value))
  {
    hide Partition, Before, BlockOf, OffsetOf, BlocksFor, Idle, ApplyPlan, Assign;
    AppendValid(p, n);
    if n > 0 && !p.replay && pick.Some? {
      IdleIff(Append(p, n), pick.value);
    }
  }

  lemma {:induction false} SameRows(p: Pool, q: Pool, k: nat)
    requires k <= |p.own| && p.own == q.own && p.total == q.total && p.bt == q.bt
    ensures ResidentRows(p, k) == ResidentRows(q, k)
  {
    if k > 0 {
      SameRows(p, q, k - 1);
    }
  }

  lemma SelectQuietIff(p: Pool, sel: Selection)
    requires Valid(p)
    ensures Select(p, sel).epoch == p.epoch <==> Quiet(p, ApplySelection(sel))
  {
    hide Partition, Before, BlockOf, OffsetOf, BlocksFor, HeadLive, ApplyPlan, Idle;
    var ids := Ids(sel.blocks);
    if sel.epoch == p.epoch && sel.rows == p.total {
      PlanValid(p, ids);
      IdleIff(p, ids);
      SelectUnchanged(p, sel);
      var planned := ApplyPlan(p, ids).(pinned := true);
      if Idle(p.own, ids) {
        NothingIncoming(p, ids);
        WriteNothing(planned, |planned.own|);
        if Items(p.own) == [] {
          NoResidents(p.own);
        }
      } else {
        PlanEpoch(p, ids);
        WriteColdEpoch(planned, Incoming(p, ids), |planned.own|);
      }
    }
  }

  lemma PlanEpoch(p: Pool, sel: set<nat>)
    requires Shaped(p)
    ensures ApplyPlan(p, sel).epoch >= p.epoch
  {
  }

  lemma NoResidents(own: seq<Info>)
    requires Residents(own) == []
    ensures SlotsInOrder(own)
  {
    ResidentsAre(own);
  }

  /** A step keeps the epoch if and only if it is quiet. */
  lemma QuietIff(p: Pool, e: Event)
    requires Valid(p)
    ensures Step(p, e).epoch == p.epoch <==> Quiet(p, e)
  {
    hide Partition, Before, BlockOf, OffsetOf, BlocksFor, Idle, Decode, Select;
    match e
    case Batch(batch, pick) => BatchQuietIff(p, batch, pick);
    case ApplySelection(sel) => SelectQuietIff(p, sel);
    case _ =>
  }

  ghost predicate AllQuiet(p: Pool, es: seq<Event>)
    requires Valid(p)
  {
    es == [] || (AllQuiet(p, es[..|es| - 1]) && Quiet(Run(p, es[..|es| - 1]), es[|es| - 1]))
  }

  /** A run keeps the epoch if and only if each of its steps is quiet. */
  lemma {:induction false} RunQuietIff(p: Pool, es: seq<Event>)
    requires Valid(p)
    ensures Run(p, es).epoch == p.epoch <==> AllQuiet(p, es)
  {
    hide Step, Quiet, Valid, Unchanged;
    if es != [] {
      var q := Run(p, es[..|es| - 1]);
      RunQuietIff(p, es[..|es| - 1]);
      EpochProves(p, es[..|es| - 1]);
      StepUnchanged(q, es[|es| - 1]);
      QuietIff(q, es[|es| - 1]);
    }
  }

  /** Over any run from a probe with a valid view, the residents can be kept without a replay if and only if
      each step was quiet and the view is valid now. */
  lemma SkipIffQuiet(p: Pool, es: seq<Event>)
    requires Valid(p) && AttentionView(p, true).valid
    ensures var q := Run(p, es);
      CommitUnchanged(q, AttentionView(p, true), Selection(q.epoch, q.total, Items(q.own))) <==>
        AllQuiet(p, es) && AttentionView(q, true).valid
  {
    hide Exact, SlotsInOrder, AttentionView, CommitUnchanged;
    RunQuietIff(p, es);
    CommitUnchangedIff(p, es, Selection(Run(p, es).epoch, Run(p, es).total, Items(Run(p, es).own)));
    ViewValidIff(p, true);
    ViewValidIff(Run(p, es), true);
  }

  // ----- A pinned or kept window -----

  /** What happens inside a window: batches, removals of cells, flags, packing and marking. */
  predicate InWindow(e: Event) {
    e.Batch? || e.RemoveRows? || e.SetReplay? || e.HarvestFull? || e.CommitResident? || e.Pin? || e.KeepSelected?
  }

  lemma WindowStep(p: Pool, e: Event)
    requires Valid(p) && (p.pinned || p.keep) && InWindow(e)
    ensures var q := Step(p, e); (q.pinned || q.keep) && SlotsStay(p.own, q.own)
  {
    hide Partition, Before, BlockOf, OffsetOf, BlocksFor, Prepare, Store;
    if e.Batch? {
      WindowPrepare(Noted(p, e.batch), |e.batch|, e.pick);
    }
  }

  lemma WindowPrepare(p: Pool, n: nat, pick: Option<set<nat>>)
    requires Valid(p) && (p.pinned || p.keep)
    ensures var q := Prepare(p, n, pick).1; (q.pinned || q.keep) && SlotsStay(p.own, q.own)
  {
    hide Partition, Before, BlockOf, OffsetOf, BlocksFor, Assign;
    FreeInRange(p.own, p.free, p.nSlots);
    var a := Append(p, n);
    AssignExtends(a.own, a.free, Touched(a, p.total), 0);
  }

  lemma {:induction false} WindowRun(p: Pool, es: seq<Event>)
    requires Valid(p) && (p.pinned || p.keep) && forall e :: e in es ==> InWindow(e)
    ensures var q := Run(p, es); (q.pinned || q.keep) && SlotsStay(p.own, q.own)
  {
    hide Step, Valid, Partition, InWindow;
    if es != [] {
      WindowRun(p, es[..|es| - 1]);
      WindowStep(Run(p, es[..|es| - 1]), es[|es| - 1]);
    }
  }

  /** Pinning, or keeping the selected blocks, keeps each resident in its slot until the turn ends. */
  lemma ResidentsStay(p: Pool, es: seq<Event>)
    requires Valid(p) && forall e :: e in es ==> InWindow(e)
    ensures Valid(Step(p, Pin)) && SlotsStay(p.own, Run(Step(p, Pin), es).own)
    ensures Valid(Step(p, KeepSelected)) && SlotsStay(p.own, Run(Step(p, KeepSelected), es).own)
  {
    WindowRun(Step(p, Pin), es);
    WindowRun(Step(p, KeepSelected), es);
  }

  /** So does a selection, for the blocks it leaves resident. */
  lemma SelectedStay(p: Pool, sel: Selection, es: seq<Event>)
    requires Valid(p) && sel.epoch == p.epoch && sel.rows == p.total && forall e :: e in es ==> InWindow(e)
    ensures Valid(Select(p, sel)) && SlotsStay(Select(p, sel).own, Run(Select(p, sel), es).own)
  {
    hide ApplyPlan, Partition;
    SelectValid(p, sel);
    WindowRun(Select(p, sel), es);
  }

  /** Once a turn begins, a plan that is due takes every other block off the GPU. */
  lemma TurnFreesResidents(p: Pool, n: nat, pick: set<nat>)
    requires Valid(p) && !p.replay
    requires NeedsOffload(Append(p, n), ResidentRows(Append(p, n), |Append(p, n).own|), n)
    ensures Valid(Step(p, BeginTurn))
    ensures var q := Prepare(Step(p, BeginTurn), n, Some(pick)).1;
      forall i: nat :: i < |q.own| && Resident(q.own[i]) ==> i in pick
  {
    hide Before, BlockOf, OffsetOf, BlocksFor, Partition, ApplyPlan, Assign;
    var b := Step(p, BeginTurn);
    var a := Append(b, n);
    AppendValid(b, n);
    SameRows(a, Append(p, n), |a.own|);
    PlanLeaves(a, pick);
  }

  lemma PlanLeaves(p: Pool, sel: set<nat>)
    requires Valid(p)
    ensures forall i: nat :: i < |ApplyPlan(p, sel).own| && Resident(ApplyPlan(p, sel).own[i]) ==> i in sel
  {
    hide Partition;
    ReplaceFacts(p.own, p.free, p.nSlots, sel, Incoming(p, sel));
  }

  // ----- Committing and packing the residents -----

  /** After the residents are committed a plan changes nothing exactly when it selects residents only, and
      every block on the GPU. */
  lemma CommittedIff(p: Pool, sel: set<nat>)
    requires Valid(p)
    ensures var q := Step(p, CommitResident);
      && Valid(q) && q.epoch == p.epoch
      && (ApplyPlan(q, sel) == q <==>
            forall i: nat :: i < |p.own| ==> (p.own[i].onGpu ==> i in sel) && (i in sel ==> Resident(p.own[i])))
  {
    hide Partition, ApplyPlan;
    StepValid(p, CommitResident);
    var q := Step(p, CommitResident);
    IdleIff(q, sel);
  }

  /** Packing saves each full resident block as a whole, with the bytes last computed for its rows, and
      changes no other block's packed rows; in a pinned window or a replay it does nothing. */
  lemma PackedWhole(p: Pool, h: History, i: nat)
    requires Coherent(p, h, p.total) && i < |p.own|
    ensures var q := Step(p, HarvestFull);
      && (p.pinned || p.replay ==> q == p)
      && (!p.pinned && !p.replay && Resident(p.own[i]) && Len(p, i) == p.bt ==>
            Saved(q, i, p.bt) && |q.raw[i]| == p.bt
            && (forall o :: 0 <= o < p.bt ==> RowIs(h, Before(i, p.bt) + o, q.raw[i][o])))
      && (!(Resident(p.own[i]) && Len(p, i) == p.bt) ==>
            (i in q.raw <==> i in p.raw) && (i in p.raw ==> q.raw[i] == p.raw[i]))
  {
    hide Before, BlockOf, OffsetOf, BlocksFor, Partition, Found, Sound;
    var ids := FullResidents(p);
    if !p.pinned && !p.replay {
      forall j | j in ids && j < |p.own| ensures Done(p, p.total, j) == Len(p, j) {
        ResidentRestorable(p, h, j);
      }
      HarvestAllCoherent(p, h, p.total, ids, |p.own|);
      HarvestAllKeepsRaw(p, ids, |p.own|);
      if i in ids {
        ResidentRestorable(p, h, i);
        if HeadLive(p, i) {
          HarvestAllSaves(p, h, p.total, ids, |p.own|, i);
        }
        assert Packed(HarvestAll(p, ids, |p.own|), h, p.total, i);
      } else {
        HarvestAllElsewhere(p, ids, |p.own|, i);
      }
    }
  }

  lemma {:induction false} HarvestAllElsewhere(p: Pool, ids: set<nat>, k: nat, i: nat)
    requires Shaped(p) && k <= |p.own| && i !in ids
    ensures var q := HarvestAll(p, ids, k); (i in q.raw <==> i in p.raw) && (i in p.raw ==> q.raw[i] == p.raw[i])
  {
    hide Before, BlockOf, OffsetOf, BlocksFor, Partition;
    if k > 0 {
      HarvestAllElsewhere(p, ids, k - 1, i);
    }
  }
}
