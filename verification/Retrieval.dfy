/** What is on the GPU after a retrieval: which selected blocks are whole, and with which bytes. */
module Retrieval {
  import opened Arith
  import opened SlotTable
  import opened SlotPool
  import opened Runs
  import opened Coherence
  import opened Relayout
  import opened CoherentRuns
  import opened Lockstep

  /** Restoring cold blocks makes exactly the asked-for residents live, and leaves the others. */
  lemma {:induction false} WriteColdHeads(p: Pool, h: History, ids: set<nat>, k: nat, i: nat)
    requires Coherent(p, h, p.total) && k <= |p.own| && i < |p.own| && Resident(p.own[i])
    ensures HeadLive(WriteCold(p, ids, k), i) <==> HeadLive(p, i) || (i < k && i in ids)
  {
    hide Before, BlockOf, OffsetOf, BlocksFor, WriteBlock, HeadLive, Found, Packed, Sound;
    if k > 0 {
      WriteColdHeads(p, h, ids, k - 1, i);
      WriteColdCoherent(p, h, ids, k - 1);
      var q := WriteCold(p, ids, k - 1);
      if k - 1 in ids && !HeadLive(q, k - 1) {
        OneHead(q, h, k - 1, i);
      }
    }
  }

  lemma OneHead(p: Pool, h: History, j: nat, i: nat)
    requires Coherent(p, h, p.total) && j < |p.own| && !HeadLive(p, j) && i < |p.own| && Resident(p.own[i])
    ensures HeadLive(WriteBlock(p, j), i) <==> HeadLive(p, i) || i == j
  {
    hide Before, BlockOf, OffsetOf, BlocksFor;
    ResidentRestorable(p, h, j);
    if Resident(p.own[j]) {
      if i == j {
        WrittenHere(p, j, 0);
        LiveHead(WriteBlock(p, j), j);
      } else {
        WrittenElsewhere(p, j, i, 0);
      }
    }
  }

  /** The pool after the plan of a selection, before any block is moved or restored. */
  function Planned(p: Pool, sel: Selection): Pool
    requires Shaped(p)
  {
    ApplyPlan(p, Ids(sel.blocks)).(pinned := true)
  }

  lemma PlannedCoherent(p: Pool, h: History, sel: Selection)
    requires Coherent(p, h, p.total)
    ensures Coherent(Planned(p, sel), h, Planned(p, sel).total) && Planned(p, sel).total == p.total
    ensures |Planned(p, sel).own| == |p.own|
  {
    hide Before, BlockOf, OffsetOf, BlocksFor;
    var ids := Ids(sel.blocks);
    forall i | i in Outgoing(p, ids) ensures Packable(p, p.total, i) {
      ResidentRestorable(p, h, i);
    }
    PlanCoherent(p, h, p.total, ids);
    PlanSwaps(p, ids);
    PositionsCoherent(ApplyPlan(p, ids), Planned(p, sel), h, p.total);
  }

  /** A resident of the plan is live after the retrieval if and only if the residents were re-packed, or it
      was live already, or it was incoming. A block that an earlier pressure plan gave a slot, and that is
      in its proper slot, is none of these and stays cold. */
  lemma RetrievedIsWhole(p: Pool, h: History, sel: Selection, i: nat)
    requires Coherent(p, h, p.total) && sel.epoch == p.epoch && sel.rows == p.total
    requires i < |p.own| && |Planned(p, sel).own| == |p.own| && Resident(Planned(p, sel).own[i])
    ensures Valid(Planned(p, sel)) && |Select(p, sel).own| == |p.own|
    ensures HeadLive(Select(p, sel), i) <==>
              Moves(Planned(p, sel)) || HeadLive(Planned(p, sel), i) || i in Incoming(p, Ids(sel.blocks))
  {
    hide Before, BlockOf, OffsetOf, BlocksFor, HeadLive, Found, Packed, Sound, ApplyPlan, Layout, WriteCold;
    var a := Planned(p, sel);
    PlannedCoherent(p, h, sel);
    if Moves(a) {
      MovedIsWhole(a, h, i);
    } else {
      WriteColdHeads(a, h, Incoming(p, Ids(sel.blocks)), |a.own|, i);
    }
  }

  lemma MovedIsWhole(a: Pool, h: History, i: nat)
    requires Coherent(a, h, a.total) && Moves(a) && i < |a.own| && Resident(a.own[i])
    ensures |Layout(a).own| == |a.own| && HeadLive(Layout(a), i)
  {
    hide Before, BlockOf, OffsetOf, BlocksFor, LaidOutCell, LaidOutBytes, IsLayout;
    LayoutIs(a);
    LayoutValid(a);
    LayoutFrame(a, Layout(a));
    LenPositive(a, i);
    LaidOutIsHistory(a, Layout(a), h, i, 0);
    LiveHead(Layout(a), i);
  }

  /** Every row of a live selected block is in its own cell with the bytes last computed for it. */
  lemma RetrievedBytes(p: Pool, h: History, sel: Selection, i: nat, o: nat)
    requires Coherent(p, h, p.total) && sel.epoch == p.epoch && sel.rows == p.total
    requires i < |Select(p, sel).own| && HeadLive(Select(p, sel), i) && o < Len(Select(p, sel), i)
    ensures Mirrored(Select(p, sel), h, i, o)
  {
    hide Before, BlockOf, OffsetOf, BlocksFor;
    SelectCoherent(p, h, sel);
    PlannedCoherent(p, h, sel);
    HeadMirrors(Select(p, sel), h, i, o);
  }
}
