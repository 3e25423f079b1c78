/** The draft cache through a retrieval: it mirrors the target's slots, so that every resident block sits
    in the same slot and rows in both caches, with the draft's own bytes. */
module Lockstep {
  import opened Arith
  import opened SlotTable
  import opened SlotPool
  import opened Runs
  import opened Coherence
  import opened Relayout
  import opened CoherentRuns

  /** The draft as a pool of its own cells, bytes and packed rows over the target's block table. */
  ghost predicate Paired(p: Pool, d: Pool) {
    d == p.(cells := d.cells, kv := d.kv, raw := d.raw, epoch := d.epoch)
  }

  function ResidentSet(own: seq<Info>): set<nat> {
    set i: nat | i < |own| && Resident(own[i])
  }

  /** layout_d2d: a block moves with the target's if both caches hold it. */
  predicate Moved(p: Pool, d: Pool, i: nat)
    requires i < |p.own| && i < |d.own| && |p.cells| == p.kvSize && |d.cells| == d.kvSize
  {
    HeadLive(p, i) && HeadLive(d, i)
  }

  function MovedCell(p: Pool, d: Pool, items: seq<nat>, c: nat): Cell
    requires Shaped(p) && Shaped(d) && |p.own| == |d.own| && c < |d.cells|
    requires forall k :: 0 <= k < |items| ==> items[k] < |d.own|
  {
    var at := LandsAt(d, items, c);
    if at.Some? && Moved(p, d, at.value) then
      Live(Before(at.value, d.bt) + OffsetOf(c, d.bt), PosOf(d, Before(at.value, d.bt) + OffsetOf(c, d.bt)))
    else KillBlocks(d, set i | i in items)[c]
  }

  function MovedBytes(p: Pool, d: Pool, items: seq<nat>, c: nat): Bytes
    requires Shaped(p) && Shaped(d) && |p.own| == |d.own| && c < |d.kv|
    requires forall k :: 0 <= k < |items| ==> items[k] < |d.own|
  {
    var at := LandsAt(d, items, c);
    if at.Some? && Moved(p, d, at.value) then
      var src := Before(d.own[at.value].slot, d.bt) + OffsetOf(c, d.bt);
      if 0 <= src < |d.kv| then d.kv[src] else d.kv[c]
    else d.kv[c]
  }

  /** The draft's side of a re-layout: blocks held by both caches move, all others are cleared. */
  function MoveDraft(p: Pool, d: Pool): (e: Pool)
    requires Shaped(p) && Shaped(d) && |p.own| == |d.own|
    ensures e == d.(own := e.own, free := e.free, cells := e.cells, kv := e.kv)
    ensures e.own == PackedOwn(d.own) && |e.cells| == |d.cells| && |e.kv| == |d.kv|
    ensures forall c :: 0 <= c < |e.cells| ==> e.cells[c] == MovedCell(p, d, Items(d.own), c)
    ensures forall c :: 0 <= c < |e.kv| ==> e.kv[c] == MovedBytes(p, d, Items(d.own), c)
  {
    d.(own := PackedOwn(d.own), free := DownTo(d.nSlots, |Items(d.own)|),
       cells := seq(|d.cells|, c requires 0 <= c < |d.cells| => MovedCell(p, d, Items(d.own), c)),
       kv := seq(|d.kv|, c requires 0 <= c < |d.kv| => MovedBytes(p, d, Items(d.own), c)))
  }

  /** follow_retrieval on one block: keep it if its slot holds it, else occupy its cells and copy its
      packed rows, if enough of them are packed. One packed row is enough to try. */
  function FollowBlock(d: Pool, i: nat): (e: Pool)
    requires Shaped(d) && i < |d.own|
    ensures Shaped(e) && e == d.(epoch := e.epoch, cells := e.cells, kv := e.kv)
  {
    if !Resident(d.own[i]) || HeadLive(d, i) then d else
      var base := Before(d.own[i].slot, d.bt);
      d.(epoch := if i in d.raw && |d.raw[i]| >= 1 then d.epoch + 1 else d.epoch,
         cells := seq(|d.cells|, c requires 0 <= c < |d.cells| =>
           if base <= c < base + Len(d, i)
           then Live(Before(i, d.bt) + (c - base), PosOf(d, Before(i, d.bt) + (c - base))) else d.cells[c]),
         kv := seq(|d.kv|, c requires 0 <= c < |d.kv| =>
           if i in d.raw && |d.raw[i]| >= Len(d, i) && base <= c < base + Len(d, i)
           then d.raw[i][c - base] else d.kv[c]))
  }

  function FollowAll(d: Pool, k: nat): (e: Pool)
    requires Shaped(d) && k <= |d.own|
    ensures Shaped(e) && e == d.(epoch := e.epoch, cells := e.cells, kv := e.kv)
  {
    if k == 0 then d else FollowBlock(FollowAll(d, k - 1), k - 1)
  }

  /** The draft through apply_selection: outgoing blocks are packed and cleared, held residents are packed
      too, the re-layout moves them, and the rest is restored. */
  function FollowSelection(p: Pool, d: Pool, sel: set<nat>): Pool
    requires Valid(p) && Valid(d) && |p.own| == |d.own|
  {
    PlanValid(p, sel);
    PlanValid(d, sel);
    var planned, mirrored := ApplyPlan(p, sel), ApplyPlan(d, sel);
    var packed := HarvestAll(mirrored, ResidentSet(mirrored.own), |mirrored.own|);
    if Moves(packed) then MovedValid(planned, packed); FollowAll(MoveDraft(planned, packed), |packed.own|)
    else FollowAll(packed, |packed.own|)
  }

  lemma MovedValid(p: Pool, d: Pool)
    requires Shaped(p) && Valid(d) && |p.own| == |d.own|
    ensures Valid(MoveDraft(p, d))
  {
    PackedPartition(d.own, d.free, d.nSlots);
  }

  // ----- Moving -----

  /** The cells of a moved block hold its rows with their old bytes. */
  lemma MovedLands(p: Pool, d: Pool, i: nat, o: nat)
    requires Shaped(p) && Valid(d) && |p.own| == |d.own| && d.kvSize == Before(d.nSlots, d.bt)
    requires i < |d.own| && Resident(d.own[i]) && o < Len(d, i) && Moved(p, d, i)
    ensures var e, c, src := MoveDraft(p, d), Before(RankOf(d.own, i), d.bt) + o, Before(d.own[i].slot, d.bt) + o;
      && 0 <= c < |e.cells| && src < |d.kv| && e.own[i].slot == RankOf(d.own, i) && Resident(e.own[i])
      && e.cells[c] == Live(Before(i, d.bt) + o, PosOf(d, Before(i, d.bt) + o)) && e.kv[c] == d.kv[src]
  {
    hide Before, BlockOf, OffsetOf, BlocksFor, LandsAt, Moved, MovedCell, MovedBytes, Partition;
    LandsWhere(d, i, o);
    LandsInside(d, i, o);
    BeforeMono(0, RankOf(d.own, i), d.bt);
    BeforeMono(0, d.own[i].slot, d.bt);
    MovedContents(p, d, Before(RankOf(d.own, i), d.bt) + o, i, o);
  }

  lemma MovedContents(p: Pool, d: Pool, c: nat, i: nat, o: nat)
    requires Shaped(p) && Shaped(d) && |p.own| == |d.own| && c < |d.cells| && i < |d.own| && Moved(p, d, i)
    requires LandsAt(d, Items(d.own), c) == Some(i) && OffsetOf(c, d.bt) == o
    requires 0 <= Before(d.own[i].slot, d.bt) + o < |d.kv|
    ensures MovedCell(p, d, Items(d.own), c) == Live(Before(i, d.bt) + o, PosOf(d, Before(i, d.bt) + o))
    ensures MovedBytes(p, d, Items(d.own), c) == d.kv[Before(d.own[i].slot, d.bt) + o]
  {
    hide Before, BlockOf, OffsetOf, BlocksFor, LandsAt, Moved;
  }

  /** A cell live after the move belongs to a moved block. */
  lemma MovedFrom(p: Pool, d: Pool, hd: History, c: nat) returns (i: nat, o: nat)
    requires Shaped(p) && Coherent(d, hd, d.total) && |p.own| == |d.own|
    requires c < |MoveDraft(p, d).cells| && MoveDraft(p, d).cells[c].Live?
    ensures i < |d.own| && Resident(d.own[i]) && o < Len(d, i) && Moved(p, d, i)
    ensures c == Before(RankOf(d.own, i), d.bt) + o
  {
    hide Before, BlockOf, OffsetOf, BlocksFor, LandsAt, KillBlocks, Found, Packed, Sound;
    var items := Items(d.own);
    NotKilled(d, hd, items, c);
    i := LandsFrom(d, c);
    o := OffsetOf(c, d.bt);
  }

  lemma MovedSound(p: Pool, d: Pool, hd: History, c: nat)
    requires Shaped(p) && Coherent(d, hd, d.total) && |p.own| == |d.own|
    requires c < |MoveDraft(p, d).cells| && MoveDraft(p, d).cells[c].Live?
    ensures Sound(MoveDraft(p, d), hd, d.total, c)
  {
    hide Before, BlockOf, OffsetOf, BlocksFor, Found, Packed, MovedCell, MovedBytes;
    var i, o := MovedFrom(p, d, hd, c);
    MovedLands(p, d, i, o);
    LenPositive(d, i);
    ResidentRestorable(d, hd, i);
    HeadBytes(d, hd, d.total, i, o);
    RowUnique(i, o, d.bt);
  }

  lemma MovedFound(p: Pool, d: Pool, hd: History, i: nat)
    requires Shaped(p) && Coherent(d, hd, d.total) && |p.own| == |d.own| && i < |d.own|
    requires Resident(d.own[i]) && !Moved(p, d, i) ==> Saved(d, i, Len(d, i))
    ensures Found(MoveDraft(p, d), d.total, i)
  {
    hide Before, BlockOf, OffsetOf, BlocksFor, MovedCell, MovedBytes, KillBlocks;
    var e := MoveDraft(p, d);
    ResidentRestorable(d, hd, i);
    assert e.own[i] == PackedOwn(d.own)[i];
    if Resident(d.own[i]) && Moved(p, d, i) {
      forall o | 0 <= o < Len(d, i) ensures LiveAt(e, i, o) {
        MovedLands(p, d, i, o);
      }
      assert LiveAt(e, i, 0);
    } else if Resident(d.own[i]) {
      UnmovedCold(p, d, hd, i);
    }
  }

  /** A block that did not move has an empty head cell afterwards. */
  lemma UnmovedCold(p: Pool, d: Pool, hd: History, i: nat)
    requires Shaped(p) && Coherent(d, hd, d.total) && |p.own| == |d.own| && i < |d.own|
    requires Resident(d.own[i]) && !Moved(p, d, i)
    ensures !HeadLive(MoveDraft(p, d), i)
  {
    hide Before, BlockOf, OffsetOf, BlocksFor, Found, Packed, Sound, MovedCell, MovedBytes;
    var e := MoveDraft(p, d);
    if HeadLive(e, i) {
      var c := Before(e.own[i].slot, e.bt);
      var j, o := MovedFrom(p, d, hd, c);
      MovedLands(p, d, j, o);
      CellInjective(RankOf(d.own, i), 0, RankOf(d.own, j), o, d.bt);
      IndexRank(d.own, i);
      IndexRank(d.own, j);
    }
  }

  /** Moving keeps the draft coherent, as long as what does not move is packed. */
  lemma MovedCoherent(p: Pool, d: Pool, hd: History)
    requires Shaped(p) && Coherent(d, hd, d.total) && |p.own| == |d.own|
    requires forall i :: 0 <= i < |d.own| && Resident(d.own[i]) && !Moved(p, d, i) ==> Saved(d, i, Len(d, i))
    ensures Coherent(MoveDraft(p, d), hd, d.total)
  {
    hide Before, BlockOf, OffsetOf, BlocksFor, MovedCell, MovedBytes, KillBlocks, Sound, Found;
    var e := MoveDraft(p, d);
    MovedValid(p, d);
    forall c | 0 <= c < |e.cells| && e.cells[c].Live? ensures Sound(e, hd, e.total, c) {
      MovedSound(p, d, hd, c);
    }
    forall i | 0 <= i < |e.own| ensures Found(e, e.total, i) {
      MovedFound(p, d, hd, i);
    }
    forall i | i in e.raw ensures Packed(e, hd, e.total, i) {
      assert Packed(d, hd, d.total, i);
    }
  }

  // ----- Following -----

  /** While the draft is coherent, following a block is restoring it if it is cold. */
  lemma FollowIsWrite(d: Pool, hd: History, i: nat)
    requires Coherent(d, hd, d.total) && i < |d.own|
    ensures FollowBlock(d, i) == if Resident(d.own[i]) && !HeadLive(d, i) then WriteBlock(d, i) else d
  {
    hide Before, BlockOf, OffsetOf, BlocksFor;
    ResidentRestorable(d, hd, i);
  }

  lemma FollowBlockCoherent(d: Pool, hd: History, i: nat)
    requires Coherent(d, hd, d.total) && i < |d.own|
    ensures Coherent(FollowBlock(d, i), hd, d.total)
    ensures Resident(d.own[i]) ==> HeadLive(FollowBlock(d, i), i)
    ensures forall j :: 0 <= j < |d.own| && HeadLive(d, j) ==> HeadLive(FollowBlock(d, i), j)
  {
    hide Before, BlockOf, OffsetOf, BlocksFor, FollowBlock, WriteBlock;
    FollowIsWrite(d, hd, i);
    if Resident(d.own[i]) && !HeadLive(d, i) {
      ResidentRestorable(d, hd, i);
      WriteBlockCoherent(d, hd, i);
      WrittenHere(d, i, 0);
      LiveHead(WriteBlock(d, i), i);
      forall j | 0 <= j < |d.own| && HeadLive(d, j) ensures HeadLive(WriteBlock(d, i), j) {
        WrittenElsewhere(d, i, j, 0);
      }
    }
  }

  lemma LiveHead(d: Pool, i: nat)
    requires Shaped(d) && i < |d.own| && Resident(d.own[i]) && LiveAt(d, i, 0)
    ensures HeadLive(d, i)
  {
    BeforeMono(0, d.own[i].slot, d.bt);
  }

  lemma {:induction false} FollowAllCoherent(d: Pool, hd: History, k: nat)
    requires Coherent(d, hd, d.total) && k <= |d.own|
    ensures Coherent(FollowAll(d, k), hd, d.total)
    ensures forall i :: 0 <= i < |d.own| && Resident(d.own[i]) && (i < k || HeadLive(d, i)) ==>
              HeadLive(FollowAll(d, k), i)
  {
    hide Before, BlockOf, OffsetOf, BlocksFor, FollowBlock, HeadLive, Found, Packed, Sound;
    if k > 0 {
      FollowAllCoherent(d, hd, k - 1);
      FollowBlockCoherent(FollowAll(d, k - 1), hd, k - 1);
    }
  }

  // ----- Retrieval -----

  /** Row o of block i is in the draft's cell for it, with the draft's bytes. */
  ghost predicate Mirrored(e: Pool, hd: History, i: nat, o: nat)
    requires i < |e.own|
  {
    var c := Before(e.own[i].slot, e.bt) + o;
    LiveAt(e, i, o) && 0 <= c < |e.kv| && RowIs(hd, Before(i, e.bt) + o, e.kv[c])
  }

  lemma HeadMirrors(e: Pool, hd: History, i: nat, o: nat)
    requires Coherent(e, hd, e.total) && i < |e.own| && HeadLive(e, i) && o < Len(e, i)
    ensures Mirrored(e, hd, i, o)
  {
    hide Before, BlockOf, OffsetOf, BlocksFor;
    ResidentRestorable(e, hd, i);
    assert Found(e, e.total, i);
    HeadBytes(e, hd, e.total, i, o);
    BeforeMono(0, e.own[i].slot, e.bt);
  }

  lemma PackedResidents(d: Pool, hd: History)
    requires Coherent(d, hd, d.total)
    ensures var e := HarvestAll(d, ResidentSet(d.own), |d.own|);
      && Coherent(e, hd, d.total) && e == d.(raw := e.raw)
      && (forall i :: 0 <= i < |d.own| && Resident(d.own[i]) ==> Saved(e, i, Len(d, i)))
  {
    hide Before, BlockOf, OffsetOf, BlocksFor, Harvest;
    var e := HarvestAll(d, ResidentSet(d.own), |d.own|);
    forall i | 0 <= i < |d.own| ensures Done(d, d.total, i) == Len(d, i) {
      ResidentRestorable(d, hd, i);
    }
    HarvestAllCoherent(d, hd, d.total, ResidentSet(d.own), |d.own|);
    HarvestAllKeepsRaw(d, ResidentSet(d.own), |d.own|);
    forall i | 0 <= i < |d.own| && Resident(d.own[i]) ensures Saved(e, i, Len(d, i)) {
      ResidentRestorable(d, hd, i);
      if HeadLive(d, i) {
        HarvestAllSaves(d, hd, d.total, ResidentSet(d.own), |d.own|, i);
      }
    }
  }

  /** Lockstep: when a retrieval finishes, target and draft agree on every block's slot, and each row of a
      resident block is in its cell of the draft with the bytes the draft last computed for it. Nothing
      the draft knew is lost, so the same holds after the next retrieval. */
  lemma LockstepAfterRetrieval(p: Pool, d: Pool, h: History, hd: History, sel: Selection)
    requires Coherent(p, h, p.total) && Coherent(d, hd, d.total) && Paired(p, d)
    requires sel.epoch == p.epoch && sel.rows == p.total
    ensures var q, e := Select(p, sel), FollowSelection(p, d, Ids(sel.blocks));
      && Coherent(e, hd, e.total) && e.own == q.own && e.free == q.free && e.bt == q.bt && e.total == q.total
      && (forall i, o :: 0 <= i < |e.own| && Resident(e.own[i]) && 0 <= o < Len(e, i) ==> Mirrored(e, hd, i, o))
  {
    hide Before, BlockOf, OffsetOf, BlocksFor;
    var ids := Ids(sel.blocks);
    var planned, mirrored := ApplyPlan(p, ids), ApplyPlan(d, ids);
    PlanValid(p, ids);
    PlanValid(d, ids);
    forall i | i in Outgoing(d, ids) ensures Packable(d, d.total, i) {
      ResidentRestorable(d, hd, i);
    }
    PlanCoherent(d, hd, d.total, ids);
    PackedResidents(mirrored, hd);
    var packed := HarvestAll(mirrored, ResidentSet(mirrored.own), |mirrored.own|);
    Settles(planned, packed, hd);
  }

  /** From the packed draft to the mirrored one. */
  ghost function Settled(p: Pool, d: Pool): Pool
    requires Shaped(p) && Valid(d) && |p.own| == |d.own|
  {
    if Moves(d) then MovedValid(p, d); FollowAll(MoveDraft(p, d), |d.own|) else FollowAll(d, |d.own|)
  }

  lemma Settles(p: Pool, d: Pool, hd: History)
    requires Shaped(p) && Coherent(d, hd, d.total) && |p.own| == |d.own|
    requires forall i :: 0 <= i < |d.own| && Resident(d.own[i]) ==> Saved(d, i, Len(d, i))
    ensures var e := Settled(p, d);
      && Coherent(e, hd, d.total) && e.own == (if Moves(d) then PackedOwn(d.own) else d.own)
      && (forall i, o :: 0 <= i < |e.own| && Resident(e.own[i]) && 0 <= o < Len(e, i) ==> Mirrored(e, hd, i, o))
  {
    hide Before, BlockOf, OffsetOf, BlocksFor, Found, Packed, Sound;
    var moved := d;
    if Moves(d) {
      MovedCoherent(p, d, hd);
      moved := MoveDraft(p, d);
    }
    FollowAllCoherent(moved, hd, |d.own|);
    var e := FollowAll(moved, |d.own|);
    forall i, o | 0 <= i < |e.own| && Resident(e.own[i]) && 0 <= o < Len(e, i) ensures Mirrored(e, hd, i, o) {
      HeadMirrors(e, hd, i, o);
    }
  }

  // ----- Too few packed rows -----

  /** What counts as found when following: one packed row is enough to try. */
  predicate CountsAsHost(d: Pool, i: nat) {
    i in d.raw && |d.raw[i]| >= 1
  }

  /** A cold block that counts as found goes live in any case. A packed row of it has the bytes last
      computed for it if and only if all rows of the block are packed, or its cell held those bytes
      already. */
  lemma RestoredIffWhole(d: Pool, hd: History, i: nat, o: nat)
    requires Valid(d) && d.kvSize == Before(d.nSlots, d.bt) && i < |d.own| && Resident(d.own[i]) && !HeadLive(d, i)
    requires CountsAsHost(d, i) && o < Len(d, i) && o < |d.raw[i]| && RowIs(hd, Before(i, d.bt) + o, d.raw[i][o])
    ensures LiveAt(FollowBlock(d, i), i, o)
    ensures var c := Before(d.own[i].slot, d.bt) + o;
      0 <= c < |d.kv| &&
      (Mirrored(FollowBlock(d, i), hd, i, o) <==> |d.raw[i]| >= Len(d, i) || RowIs(hd, Before(i, d.bt) + o, d.kv[c]))
  {
    hide BlockOf, OffsetOf, BlocksFor, Before, HeadLive;
    OwnedOnce(d.own, d.free, d.nSlots, i, i);
    BeforeMono(d.own[i].slot, d.nSlots, d.bt);
    BeforeMono(0, d.own[i].slot, d.bt);
    BeforeMono(0, i, d.bt);
    FollowedRow(d, i, o);
  }

  lemma FollowedRow(d: Pool, i: nat, o: nat)
    requires Shaped(d) && i < |d.own| && Resident(d.own[i]) && !HeadLive(d, i) && i in d.raw
    requires o < Len(d, i) && o < |d.raw[i]|
    requires 0 <= Before(d.own[i].slot, d.bt) && Before(d.own[i].slot, d.bt) + o < |d.kv| && Before(i, d.bt) >= 0
    ensures var e, c := FollowBlock(d, i), Before(d.own[i].slot, d.bt) + o;
      && e.own == d.own && e.bt == d.bt
      && e.cells[c] == Live(Before(i, d.bt) + o, PosOf(d, Before(i, d.bt) + o))
      && e.kv[c] == if |d.raw[i]| >= Len(d, i) then d.raw[i][o] else d.kv[c]
  {
    hide BlockOf, OffsetOf, BlocksFor, Before;
  }

  /** While the draft is coherent this does not matter: a cold resident block is packed as a whole. */
  lemma ColdIsWhole(d: Pool, hd: History, i: nat)
    requires Coherent(d, hd, d.total) && i < |d.own| && Resident(d.own[i]) && !HeadLive(d, i)
    ensures i in d.raw && |d.raw[i]| == Len(d, i)
  {
    ResidentRestorable(d, hd, i);
    assert Packed(d, hd, d.total, i);
  }
}
