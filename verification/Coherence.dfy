/** Coherence of the cache over whole runs: every live cell holds the bytes last computed for its
    row, and the bytes of every stored row can always be found again, on the GPU or packed. */
module Coherence {
  import opened Arith
  import opened SlotTable
  import opened SlotPool
  import opened Runs
  import opened Epoch

  /** For each row, the bytes last computed for it. */
  type History = map<nat, Bytes>

  /** Rows of block i among the first u rows. */
  function Done(p: Pool, u: nat, i: nat): nat {
    var left := u - Before(i, p.bt);
    if left <= 0 then 0 else if left < Len(p, i) then left else Len(p, i)
  }

  /** Cell c is live for a computed row, is that row's own cell, and holds its bytes. */
  ghost predicate Sound(p: Pool, h: History, u: nat, c: nat)
    requires c < |p.cells| == |p.kv| && p.cells[c].Live?
  {
    var r := p.cells[c].row;
    r < u && Held(p, r) && CellOf(p, r) == c && r in h && p.kv[c] == h[r]
  }

  ghost predicate LiveAt(p: Pool, i: nat, o: nat)
    requires i < |p.own|
  {
    var c := Before(p.own[i].slot, p.bt) + o;
    c < |p.cells| && p.cells[c].Live? && p.cells[c].row == Before(i, p.bt) + o
  }

  ghost predicate Saved(p: Pool, i: nat, n: nat) {
    i in p.raw && |p.raw[i]| >= n
  }

  /** Block i is on the GPU with all its computed rows or with none, and in the latter case its
      computed rows are packed. */
  ghost predicate Found(p: Pool, u: nat, i: nat)
    requires i < |p.own| && |p.cells| == p.kvSize
  {
    && (HeadLive(p, i) ==> forall o :: 0 <= o < Done(p, u, i) ==> LiveAt(p, i, o))
    && (Done(p, u, i) > 0 ==> HeadLive(p, i) || Saved(p, i, Done(p, u, i)))
  }

  /** Packed rows are computed rows, with their bytes. */
  ghost predicate Packed(p: Pool, h: History, u: nat, i: nat)
    requires i in p.raw
  {
    && |p.raw[i]| <= Done(p, u, i)
    && (forall o :: 0 <= o < |p.raw[i]| ==> RowIs(h, Before(i, p.bt) + o, p.raw[i][o]))
  }

  predicate RowIs(h: History, r: nat, v: Bytes) {
    r in h && h[r] == v
  }

  /** The invariant, for the first u rows computed. */
  ghost predicate Coherent(p: Pool, h: History, u: nat) {
    && Valid(p) && p.kvSize == Before(p.nSlots, p.bt) && u <= p.total
    && (forall c :: 0 <= c < |p.cells| && p.cells[c].Live? ==> Sound(p, h, u, c))
    && (forall i :: 0 <= i < |p.own| ==> Found(p, u, i))
    && (forall i :: i in p.raw ==> Packed(p, h, u, i))
  }

  // ----- Growing and shrinking the block table -----

  lemma DoneSame(p: Pool, q: Pool, u: nat, i: nat)
    requires q.bt == p.bt && u <= p.total && u <= q.total
    ensures Done(q, u, i) == Done(p, u, i)
  {
  }

  /** Residents keep their slots; blocks that gain one had none. */
  ghost predicate Replaced(p: Pool, q: Pool) {
    && q.bt == p.bt && q.nSlots == p.nSlots && q.kvSize == p.kvSize
    && q.cells == p.cells && q.kv == p.kv && q.raw == p.raw
    && (forall i :: 0 <= i < |p.own| && i < |q.own| && Resident(p.own[i]) ==> q.own[i].slot == p.own[i].slot)
  }

  /** A block without a slot has no live head, whatever slot it is given. */
  lemma HeadLiveBefore(p: Pool, q: Pool, h: History, u: nat, i: nat)
    requires Coherent(p, h, u) && Valid(q) && Replaced(p, q) && i < |q.own| && HeadLive(q, i)
    ensures i < |p.own| && Resident(p.own[i]) && HeadLive(p, i) && q.own[i].slot == p.own[i].slot
  {
    var c := Before(q.own[i].slot, q.bt);
    assert Sound(p, h, u, c);
    RowUnique(i, 0, p.bt);
  }

  lemma ReplacedFound(p: Pool, q: Pool, h: History, u: nat, i: nat)
    requires Coherent(p, h, u) && Valid(q) && Replaced(p, q) && u <= q.total && i < |q.own|
    ensures Found(q, u, i)
  {
    DoneSame(p, q, u, i);
    if HeadLive(q, i) {
      HeadLiveBefore(p, q, h, u, i);
      assert Found(p, u, i);
      forall o | 0 <= o < Done(q, u, i) ensures LiveAt(q, i, o) {
        assert LiveAt(p, i, o);
      }
    } else if Done(q, u, i) > 0 {
      BlocksForCovers(p.total, p.bt, i);
      assert Found(p, u, i);
    }
  }

  lemma ReplacedCoherent(p: Pool, q: Pool, h: History, u: nat)
    requires Coherent(p, h, u) && Valid(q) && Replaced(p, q)
    requires u <= q.total && forall i :: 0 <= i < |p.own| && Before(i, p.bt) < u ==> i < |q.own|
    ensures Coherent(q, h, u)
  {
    hide Before, BlockOf, OffsetOf, BlocksFor;
    forall c | 0 <= c < |q.cells| && q.cells[c].Live? ensures Sound(q, h, u, c) {
      assert Sound(p, h, u, c);
      RowInBlock(q.cells[c].row, p.bt, u);
    }
    forall i | 0 <= i < |q.own| ensures Found(q, u, i) {
      ReplacedFound(p, q, h, u, i);
    }
    forall i | i in q.raw ensures Packed(q, h, u, i) {
      assert Packed(p, h, u, i);
      DoneSame(p, q, u, i);
    }
  }

  lemma AppendCoherent(p: Pool, n: nat, h: History, u: nat)
    requires Coherent(p, h, u)
    ensures Coherent(Append(p, n), h, u)
  {
    AppendValid(p, n);
    ReplacedCoherent(p, Append(p, n), h, u);
  }

  lemma TruncateCoherent(p: Pool, h: History, u: nat)
    requires Coherent(p, h, u)
    ensures Coherent(Truncate(p, u), h, u)
  {
    TruncateValid(p, u);
    forall i | 0 <= i < |p.own| && Before(i, p.bt) < u ensures i < |Truncate(p, u).own| {
      BlocksForCovers(u, p.bt, i);
    }
    ReplacedCoherent(p, Truncate(p, u), h, u);
  }

  // ----- Packing blocks -----

  /** The bytes of a live cell are the history of its row. */
  lemma CellBytes(p: Pool, h: History, u: nat, c: nat)
    requires Coherent(p, h, u) && c < |p.cells| && p.cells[c].Live?
    ensures c < |p.kv| && RowIs(h, p.cells[c].row, p.kv[c])
  {
    hide BlockOf, OffsetOf, BlocksFor, Before, Packed, Found, Partition;
    assert Sound(p, h, u, c);
  }

  /** The bytes of a live head block are its history. */
  lemma HeadBytes(p: Pool, h: History, u: nat, i: nat, o: nat)
    requires Coherent(p, h, u) && i < |p.own| && HeadLive(p, i) && o < Done(p, u, i)
    ensures var c := Before(p.own[i].slot, p.bt) + o; c < |p.kv| && RowIs(h, Before(i, p.bt) + o, p.kv[c])
  {
    hide BlockOf, OffsetOf, BlocksFor, Before, Packed, Sound, Partition, Done;
    assert Found(p, u, i);
    assert LiveAt(p, i, o);
    CellBytes(p, h, u, Before(p.own[i].slot, p.bt) + o);
  }

  /** The block has no live rows that were never computed. */
  ghost predicate Packable(p: Pool, u: nat, i: nat)
    requires i < |p.own| && |p.cells| == p.kvSize
  {
    HeadLive(p, i) ==> Done(p, u, i) == Len(p, i)
  }

  ghost predicate AllPackable(p: Pool, u: nat, ids: set<nat>)
    requires |p.cells| == p.kvSize
  {
    forall i :: i in ids && i < |p.own| ==> Packable(p, u, i)
  }

  /** Packing a block that is cold or computed in full keeps the invariant, and packs it if it is live. */
  lemma HarvestCoherent(p: Pool, h: History, u: nat, i: nat)
    requires Coherent(p, h, u) && i < |p.own| && Packable(p, u, i)
    ensures Coherent(Harvest(p, i), h, u)
    ensures HeadLive(p, i) ==> Saved(Harvest(p, i), i, Len(p, i))
  {
    hide Before, BlockOf, OffsetOf, BlocksFor;
    var q, s := Harvest(p, i), p.own[i].slot;
    if s >= 0 {
      OwnedOnce(p.own, p.free, p.nSlots, i, i);
      BeforeMono(s, p.nSlots, p.bt);
      LenPositive(p, i);
      if p.cells[Before(s, p.bt)].Live? {
        HeadOfSlot(p, h, u, i);
      }
      if q.raw != p.raw {
        HarvestedPacked(p, h, u, i);
        PackedAlso(p, q, h, u, i);
      }
    }
  }

  lemma HarvestedPacked(p: Pool, h: History, u: nat, i: nat)
    requires Coherent(p, h, u) && i < |p.own| && Done(p, u, i) == Len(p, i) && HeadLive(p, i)
    requires i in Harvest(p, i).raw && |Harvest(p, i).raw[i]| == Len(p, i)
    requires Before(p.own[i].slot, p.bt) + Len(p, i) <= |p.kv|
    requires Harvest(p, i).raw[i] == p.kv[Before(p.own[i].slot, p.bt)..Before(p.own[i].slot, p.bt) + Len(p, i)]
    ensures Packed(Harvest(p, i), h, u, i)
  {
    hide Before, BlockOf, OffsetOf, BlocksFor;
    forall o | 0 <= o < Len(p, i) ensures RowIs(h, Before(i, p.bt) + o, Harvest(p, i).raw[i][o]) {
      HeadBytes(p, h, u, i, o);
    }
  }

  /** A live first cell of an owned slot is live for its owner's first row. */
  lemma HeadOfSlot(p: Pool, h: History, u: nat, i: nat)
    requires Coherent(p, h, u) && i < |p.own| && Resident(p.own[i])
    requires var c := Before(p.own[i].slot, p.bt); c < p.kvSize && p.cells[c].Live?
    ensures HeadLive(p, i)
  {
    var c := Before(p.own[i].slot, p.bt);
    assert Sound(p, h, u, c);
    var r := p.cells[c].row;
    var j := BlockOf(r, p.bt);
    CellInjective(p.own[j].slot, OffsetOf(r, p.bt), p.own[i].slot, 0, p.bt);
    OwnedOnce(p.own, p.free, p.nSlots, i, j);
    RowSplit(r, p.bt);
  }

  /** More packed rows only help. */
  lemma FoundStill(p: Pool, q: Pool, u: nat, i: nat)
    requires i < |p.own| && |p.cells| == p.kvSize && q == p.(raw := q.raw) && Found(p, u, i)
    requires i in p.raw ==> Saved(q, i, |p.raw[i]|)
    ensures Found(q, u, i)
  {
    forall o | 0 <= o < Done(q, u, i) && HeadLive(q, i) ensures LiveAt(q, i, o) {
      assert LiveAt(p, i, o);
    }
  }

  lemma PackedAlso(p: Pool, q: Pool, h: History, u: nat, i: nat)
    requires Coherent(p, h, u) && i in q.raw && q == p.(raw := p.raw[i := q.raw[i]])
    requires Packed(q, h, u, i) && (i in p.raw ==> |p.raw[i]| <= |q.raw[i]|)
    ensures Coherent(q, h, u)
  {
    forall j | 0 <= j < |q.own| ensures Found(q, u, j) {
      FoundStill(p, q, u, j);
    }
    forall j | j in q.raw ensures Packed(q, h, u, j) {
      if j != i {
        assert Packed(p, h, u, j);
      }
    }
    forall c | 0 <= c < |q.cells| && q.cells[c].Live? ensures Sound(q, h, u, c) {
      assert Sound(p, h, u, c);
    }
  }

  /** Packing never forgets a packed row. */
  ghost predicate KeepsRaw(p: Pool, q: Pool) {
    forall i :: i in p.raw ==> Saved(q, i, |p.raw[i]|)
  }

  lemma {:induction false} HarvestAllKeepsRaw(p: Pool, ids: set<nat>, k: nat)
    requires Shaped(p) && k <= |p.own|
    ensures KeepsRaw(p, HarvestAll(p, ids, k))
  {
    if k > 0 {
      HarvestAllKeepsRaw(p, ids, k - 1);
    }
  }

  lemma {:induction false} HarvestAllCoherent(p: Pool, h: History, u: nat, ids: set<nat>, k: nat)
    requires Coherent(p, h, u) && k <= |p.own| && AllPackable(p, u, ids)
    ensures Coherent(HarvestAll(p, ids, k), h, u)
  {
    hide Before, BlockOf, OffsetOf, BlocksFor, Found, Packed, Sound, Harvest;
    if k > 0 {
      HarvestAllCoherent(p, h, u, ids, k - 1);
      if k - 1 in ids {
        assert Packable(p, u, k - 1);
        HarvestCoherent(HarvestAll(p, ids, k - 1), h, u, k - 1);
      }
    }
  }

  /** Packing a set of blocks packs every live one among them. */
  lemma {:induction false} HarvestAllSaves(p: Pool, h: History, u: nat, ids: set<nat>, k: nat, i: nat)
    requires Coherent(p, h, u) && k <= |p.own| && AllPackable(p, u, ids)
    requires i in ids && i < k && HeadLive(p, i)
    ensures Saved(HarvestAll(p, ids, k), i, Len(p, i))
  {
    hide Before, BlockOf, OffsetOf, BlocksFor;
    var q := HarvestAll(p, ids, k - 1);
    HarvestAllCoherent(p, h, u, ids, k - 1);
    assert Packable(p, u, i);
    if i == k - 1 {
      HarvestCoherent(q, h, u, i);
    } else {
      HarvestAllSaves(p, h, u, ids, k - 1, i);
    }
  }
}
