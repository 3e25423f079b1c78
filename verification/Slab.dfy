/** Write-back of GPU rows through a pinned slab: copy jobs gather in the slab, a full slab is submitted
    to one of two pinned buffers, and a submitted batch is written to the store once its copy is done. */
module Slab {

  /** What a job writes: a block's K or V rows of one layer, and the bytes it read for them. */
  type Key(==, 0, !new)
  type Bytes(==, 0, !new)
  type Entry = (Key, Bytes)

  /** A job and its place in the slab. `bytes` is what its GPU source holds until the job is written. */
  datatype Job = Job(key: Key, bytes: Bytes, off: nat)

  /** A copy of `size` bytes to offset `off` of the buffer that is filled next. */
  datatype Out = Out(off: nat, size: nat, bytes: Bytes)

  /** How the device behaves during a call: whether the slab accepts jobs at the first and the second
      try, and whether waiting and submitting succeed. A failed submit leaves `scribble` behind. */
  datatype Device = Device(first: bool, second: bool, waits: bool, submits: bool, scribble: map<nat, Bytes>)

  // ----- Counting entries -----

  ghost function Tally(s: seq<Entry>, x: Entry): nat {
    if s == [] then 0 else Tally(s[..|s| - 1], x) + if s[|s| - 1] == x then 1 else 0
  }

  lemma {:induction false} TallyConcat(a: seq<Entry>, b: seq<Entry>, x: Entry)
    ensures Tally(a + b, x) == Tally(a, x) + Tally(b, x)
  {
    if b == [] {
      assert a + b == a;
    } else {
      TallyConcat(a, b[..|b| - 1], x);
      assert (a + b)[..|a + b| - 1] == a + b[..|b| - 1];
    }
  }

  /** One more entry, wherever it goes. */
  lemma TallyInsert(a: seq<Entry>, b: seq<Entry>, e: Entry, x: Entry)
    ensures Tally(a + [e] + b, x) == Tally(a + b, x) + if e == x then 1 else 0
  {
    TallyConcat(a, b, x);
    TallyConcat(a + [e], b, x);
    assert (a + [e])[..|a|] == a;
  }

  function Entries(jobs: seq<Job>): (es: seq<Entry>)
    ensures |es| == |jobs| && forall k :: 0 <= k < |jobs| ==> es[k] == (jobs[k].key, jobs[k].bytes)
  {
    seq(|jobs|, k requires 0 <= k < |jobs| => (jobs[k].key, jobs[k].bytes))
  }

  // ----- The slab -----

  /** Copies lie one after another below `used`, so none overwrites another. */
  ghost predicate Apart(outs: seq<Out>, used: nat) {
    && (forall k :: 0 <= k < |outs| ==> outs[k].size > 0 && outs[k].off + outs[k].size <= used)
    && (forall j, k :: 0 <= j < k < |outs| ==> outs[j].off + outs[j].size <= outs[k].off)
  }

  /** A buffer after all copies have landed. */
  function Landed(outs: seq<Out>): map<nat, Bytes> {
    if outs == [] then map[] else Landed(outs[..|outs| - 1])[outs[|outs| - 1].off := outs[|outs| - 1].bytes]
  }

  ghost predicate Holds(pin: map<nat, Bytes>, off: nat, bytes: Bytes) {
    off in pin && pin[off] == bytes
  }

  lemma {:induction false} LandedHolds(outs: seq<Out>, used: nat, k: nat)
    requires Apart(outs, used) && k < |outs|
    ensures Holds(Landed(outs), outs[k].off, outs[k].bytes)
  {
    var n := |outs| - 1;
    if k < n {
      LandedHolds(outs[..n], used, k);
      assert outs[k].off + outs[k].size <= outs[n].off;
    }
  }

  /** Job j has its copy among the outs. */
  ghost predicate Staged(outs: seq<Out>, j: Job) {
    exists k :: 0 <= k < |outs| && outs[k].off == j.off && outs[k].bytes == j.bytes
  }

  lemma StagedHolds(outs: seq<Out>, used: nat, j: Job)
    requires Apart(outs, used) && Staged(outs, j)
    ensures Holds(Landed(outs), j.off, j.bytes)
  {
    var k :| 0 <= k < |outs| && outs[k].off == j.off && outs[k].bytes == j.bytes;
    LandedHolds(outs, used, k);
  }

  lemma StagedMore(outs: seq<Out>, more: seq<Out>, j: Job)
    requires Staged(outs, j) && outs <= more
    ensures Staged(more, j)
  {
    var k :| 0 <= k < |outs| && outs[k].off == j.off && outs[k].bytes == j.bytes;
    assert more[k] == outs[k];
  }

  class WriteBack {
    const cap: nat
    var jobs: seq<Job>
    var pendingSlot: int
    var pending: seq<Job>
    var outs: seq<Out>
    var used: nat
    var cur: nat
    var pins: seq<map<nat, Bytes>>
    var written: seq<Entry>

    /** Each gathered job has its copy among the outs, which fit the slab. */
    ghost predicate Gathered()
      reads this
    {
      && |pins| == 2 && cur < 2 && used <= cap && Apart(outs, used)
      && (forall k :: 0 <= k < |jobs| ==> Staged(outs, jobs[k]))
    }

    /** The submitted slot, if any, holds the pending bytes. */
    ghost predicate Intact()
      reads this
    {
      pendingSlot < |pins| &&
      (pendingSlot >= 0 ==> forall k :: 0 <= k < |pending| ==>
       Holds(pins[pendingSlot], pending[k].off, pending[k].bytes))
    }

    /** The submitted slot is not the one filled next, and the key invariant: without a submitted slot
        there are no pending jobs. */
    ghost predicate Valid()
      reads this
    {
      Gathered() && Intact() && pendingSlot != cur && (pendingSlot < 0 ==> pending == [])
    }

    /** Every entry that was taken on: written, submitted, or gathered. */
    ghost function Taken(): seq<Entry>
      reads this
    {
      written + Entries(pending) + Entries(jobs)
    }

    constructor (cap: nat)
      ensures Valid() && Taken() == [] && this.cap == cap
    {
      this.cap := cap;
      jobs, pending, outs, written := [], [], [], [];
      pendingSlot, used, cur, pins := -1, 0, 0, [map[], map[]];
    }

    /** Reserve room for a copy in the slab. */
    method StageOut(bytes: Bytes, size: nat, accepts: bool) returns (ok: bool)
      requires Valid()
      modifies this`outs, this`used
      ensures Valid() && ok == (accepts && 0 < size && old(used) + size <= cap)
      ensures outs == old(outs) + (if ok then [Out(old(used), size, bytes)] else []) && old(used) <= used
    {
      ok := accepts && 0 < size && used + size <= cap;
      if ok {
        outs, used := outs + [Out(used, size, bytes)], used + size;
        forall k | 0 <= k < |jobs| ensures Staged(outs, jobs[k]) {
          StagedMore(old(outs), outs, jobs[k]);
        }
      } else {
        assert outs == old(outs) + [];
      }
    }

    /** Copy the slab to the buffer filled next. A failed submit keeps the outs, which do no harm later,
        and may leave anything in that buffer. */
    method Submit(d: Device) returns (slot: int)
      requires Gathered() && jobs != []
      modifies this`outs, this`used, this`cur, this`pins
      ensures |pins| == 2 && used <= cap && Apart(outs, used)
      ensures slot < 0 ==> outs == old(outs) && used == old(used) && cur == old(cur)
      ensures slot >= 0 ==> slot == old(cur) && cur == 1 - slot && outs == []
      ensures slot >= 0 ==> forall k :: 0 <= k < |jobs| ==> Holds(pins[slot], jobs[k].off, jobs[k].bytes)
      ensures forall i :: 0 <= i < 2 && i != old(cur) ==> pins[i] == old(pins)[i]
    {
      if !d.submits {
        pins := pins[cur := d.scribble];
        return -1;
      }
      slot := cur;
      pins := pins[cur := Landed(outs)];
      forall k | 0 <= k < |jobs| ensures Holds(pins[slot], jobs[k].off, jobs[k].bytes) {
        StagedHolds(outs, used, jobs[k]);
      }
      outs, used, cur := [], 0, 1 - slot;
    }

    /** Write the pending jobs from their buffer, or straight from the GPU when the copy was lost. */
    method WriteBatch()
      requires Intact()
      modifies this`pending, this`pendingSlot, this`written
      ensures written == old(written) + Entries(old(pending)) && pending == [] && pendingSlot == -1
    {
      for k := 0 to |pending|
        invariant pending == old(pending) && pendingSlot == old(pendingSlot)
        invariant written == old(written) + Entries(pending)[..k]
      {
        var j := pending[k];
        assert pendingSlot >= 0 ==> Holds(pins[pendingSlot], j.off, j.bytes);
        var bytes := if pendingSlot >= 0 then pins[pendingSlot][j.off] else j.bytes;
        written := written + [(j.key, bytes)];
        assert Entries(pending)[..k + 1] == Entries(pending)[..k] + [(j.key, j.bytes)];
      }
      assert Entries(pending)[..|pending|] == Entries(pending);
      pending, pendingSlot := [], -1;
    }

    /** Submit the gathered jobs, then write the batch submitted before them. The new copy goes to the
        other buffer, so the old batch is still intact when it is written. */
    method SubmitBehind(d: Device)
      requires Valid() && jobs != [] && pendingSlot >= 0
      modifies this
      ensures Gathered() && Intact() && pendingSlot != cur && jobs == [] && pending == old(jobs)
      ensures written == old(written) + Entries(old(pending))
    {
      if !d.waits {
        pendingSlot := -1;
      }
      var slot := Submit(d);
      var next := jobs;
      jobs := [];
      WriteBatch();
      pending, pendingSlot := next, slot;
    }

    method FlushSlab(d: Device)
      requires Valid()
      modifies this
      ensures Valid() && jobs == [] && Taken() == old(Taken())
    {
      if jobs == [] {
        return;
      }
      if pendingSlot >= 0 {
        SubmitBehind(d);
      } else {
        var slot := Submit(d);
        pending, pendingSlot := jobs, slot;
        jobs := [];
      }
      assert Taken() == old(Taken());
      if pendingSlot < 0 {
        WriteBatch();
        assert Taken() == written;
      }
    }

    /** Everything taken on is written. */
    method Commit(d: Device, e: Device)
      requires Valid()
      modifies this
      ensures Valid() && jobs == [] && pending == [] && written == old(Taken())
    {
      FlushSlab(d);
      if pendingSlot >= 0 {
        if !e.waits {
          pendingSlot := -1;
        }
        WriteBatch();
      }
      outs, used := [], 0;
      assert written == Taken();
    }

    /** Take on one copy: into the slab, into the slab after a flush, or written directly. */
    method Harvest(key: Key, bytes: Bytes, size: nat, onGpu: bool, d: Device)
      requires Valid()
      modifies this
      ensures Valid()
      ensures forall x :: Tally(Taken(), x) == Tally(old(Taken()), x) + if x == (key, bytes) then 1 else 0
      ensures onGpu && d.first && 0 < size && old(used) + size <= cap ==>
                && written == old(written) && pending == old(pending)
                && Entries(jobs) == Entries(old(jobs)) + [(key, bytes)]
      ensures !onGpu ==> written == old(written) + [(key, bytes)] && pending == old(pending) && jobs == old(jobs)
    {
      if onGpu {
        var ok := TryGather(key, bytes, size, d.first);
        if !ok && (jobs != [] || pendingSlot >= 0) {
          FlushSlab(d);
          ok := TryGather(key, bytes, size, d.second);
        }
        if ok {
          forall x
            ensures Tally(old(Taken()) + [(key, bytes)], x) ==
                    Tally(old(Taken()), x) + if x == (key, bytes) then 1 else 0 {
            TallyInsert(old(Taken()), [], (key, bytes), x);
            assert old(Taken()) + [(key, bytes)] + [] == old(Taken()) + [(key, bytes)];
            assert old(Taken()) + [] == old(Taken());
          }
          return;
        }
      }
      WriteDirect(key, bytes);
    }

    method WriteDirect(key: Key, bytes: Bytes)
      requires Valid()
      modifies this`written
      ensures Valid() && written == old(written) + [(key, bytes)]
      ensures forall x :: Tally(Taken(), x) == Tally(old(Taken()), x) + if x == (key, bytes) then 1 else 0
    {
      ghost var rest := Entries(pending) + Entries(jobs);
      forall x
        ensures Tally(written + [(key, bytes)] + rest, x) ==
                Tally(written + rest, x) + if x == (key, bytes) then 1 else 0 {
        TallyInsert(written, rest, (key, bytes), x);
      }
      assert Taken() == written + rest;
      written := written + [(key, bytes)];
      assert Taken() == written + rest;
    }

    method TryGather(key: Key, bytes: Bytes, size: nat, accepts: bool) returns (ok: bool)
      requires Valid()
      modifies this`outs, this`used, this`jobs
      ensures Valid() && (!ok ==> Taken() == old(Taken()) && jobs == old(jobs))
      ensures ok == (accepts && 0 < size && old(used) + size <= cap)
      ensures ok ==> Taken() == old(Taken()) + [(key, bytes)] && Entries(jobs) == Entries(old(jobs)) + [(key, bytes)]
    {
      var off := used;
      ok := StageOut(bytes, size, accepts);
      if ok {
        assert outs[|outs| - 1] == Out(off, size, bytes);
        jobs := jobs + [Job(key, bytes, off)];
        assert Entries(jobs) == Entries(old(jobs)) + [(key, bytes)];
      }
    }
  }

  /** One call of the write-back: a copy to take on, or a slab flush between two blocks. */
  datatype Call = Take(key: Key, bytes: Bytes, size: nat, onGpu: bool, device: Device) | Flush(device: Device)

  /** The entries a run of calls takes on. */
  ghost function Asked(calls: seq<Call>): seq<Entry> {
    if calls == [] then [] else
      var c := calls[|calls| - 1];
      Asked(calls[..|calls| - 1]) + if c.Take? then [(c.key, c.bytes)] else []
  }

  ghost function Wants(c: Call, x: Entry): nat {
    if c.Take? && (c.key, c.bytes) == x then 1 else 0
  }

  lemma AskedMore(calls: seq<Call>, i: nat, x: Entry)
    requires i < |calls|
    ensures Tally(Asked(calls[..i + 1]), x) == Tally(Asked(calls[..i]), x) + Wants(calls[i], x)
  {
    var c, done := calls[i], Asked(calls[..i]);
    assert calls[..i + 1][..i] == calls[..i];
    if c.Take? {
      TallyInsert(done, [], (c.key, c.bytes), x);
      assert done + [(c.key, c.bytes)] + [] == done + [(c.key, c.bytes)] && done + [] == done;
    } else {
      assert done + [] == done;
    }
  }

  /** Every entry is written exactly once, with its own bytes: over any run of calls that ends in a
      commit, whatever the slab accepts and however waits and submits fail. */
  method Drive(w: WriteBack, calls: seq<Call>, d: Device, e: Device)
    requires w.Valid() && w.Taken() == []
    modifies w
    ensures w.Valid() && w.jobs == [] && w.pending == []
    ensures forall x :: Tally(w.written, x) == Tally(Asked(calls), x)
  {
    for i := 0 to |calls|
      invariant w.Valid()
      invariant forall x :: Tally(w.Taken(), x) == Tally(Asked(calls[..i]), x)
    {
      forall x ensures Tally(Asked(calls[..i + 1]), x) == Tally(Asked(calls[..i]), x) + Wants(calls[i], x) {
        AskedMore(calls, i, x);
      }
      match calls[i]
      case Take(key, bytes, size, onGpu, device) => w.Harvest(key, bytes, size, onGpu, device);
      case Flush(device) => w.FlushSlab(device);
    }
    assert calls[..|calls|] == calls;
    w.Commit(d, e);
  }
}
