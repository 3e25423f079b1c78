/** Harvesting without the worker thread: the caller itself packs the other slot before it fills one,
    so at most one batch is ever in flight and order never depends on timing. */
module SyncHarvest {
  import opened Harvest

  class Pipe {
    var slot0: Slot
    var slot1: Slot
    var next: nat
    var packed: seq<Entry>

    function At(i: nat): Slot
      reads this
    {
      if i == 0 then slot0 else slot1
    }

    ghost predicate Valid()
      reads this
    {
      next < 2 && !At(next).inflight && At(1 - next).pos == At(1 - next).items
    }

    /** Everything harvested so far: what is packed, then the batch in flight. */
    ghost function Contents(): seq<Batch>
      reads this
    {
      Packings(packed) + if next < 2 && At(1 - next).inflight then [At(1 - next).items] else []
    }

    constructor ()
      ensures Valid() && Contents() == [] && packed == []
    {
      slot0, slot1, next, packed := Slot(false, 0, 0), Slot(false, 0, 0), 0, [];
    }

    /** Pack a slot in flight; an idle slot is left alone. */
    method CommitSlot(i: nat)
      requires i < 2
      modifies this
      ensures next == old(next) && At(1 - i) == old(At(1 - i)) && At(i) == old(At(i)).(inflight := false)
      ensures packed == old(packed) + if old(At(i)).inflight then [Entry(old(At(i)).items, old(At(i)).pos, false)]
          else []
    {
      if !At(i).inflight {
        return;
      }
      packed := packed + [Entry(At(i).items, At(i).pos, false)];
      if i == 0 {
        slot0 := slot0.(inflight := false);
      } else {
        slot1 := slot1.(inflight := false);
      }
    }

    /** Harvest one captured batch: pack the previous one, then stage this one, or pack it directly if
        staging fails. Batches stay in order either way, under their own positions. */
    method HarvestBatch(b: Batch, staged: bool)
      requires Valid()
      modifies this
      ensures Valid() && Contents() == old(Contents()) + [b]
      ensures Packings(packed) == if staged then old(Contents()) else old(Contents()) + [b]
      ensures old(RightPositions(packed)) ==> RightPositions(packed)
    {
      hide Packings;
      CommitSlot(1 - next);
      PackingsMore(old(packed), Entry(old(At(1 - next)).items, old(At(1 - next)).pos, false));
      if !staged {
        PackingsMore(packed, Entry(b, b, true));
        packed := packed + [Entry(b, b, true)];
        return;
      }
      if next == 0 {
        slot0 := Slot(true, b, b);
      } else {
        slot1 := Slot(true, b, b);
      }
      next := 1 - next;
    }

    /** After a flush everything harvested is packed, in order. */
    method FlushAll()
      requires Valid()
      modifies this
      ensures Valid() && Contents() == old(Contents()) == Packings(packed)
      ensures old(RightPositions(packed)) ==> RightPositions(packed)
    {
      hide Packings;
      ghost var e := Entry(At(1 - next).items, At(1 - next).pos, false);
      PackingsMore(packed, e);
      CommitSlot(1 - next);
      PackingsMore(packed, e);
      CommitSlot(next);
    }
  }

  /** The batches packed, by whichever thread. */
  ghost function Packings(packed: seq<Entry>): seq<Batch> {
    if packed == [] then [] else Packings(packed[..|packed| - 1]) + [packed[|packed| - 1].items]
  }

  lemma PackingsMore(packed: seq<Entry>, e: Entry)
    ensures Packings(packed + [e]) == Packings(packed) + [e.items] && packed + [] == packed
  {
    assert (packed + [e])[..|packed|] == packed;
  }
}
