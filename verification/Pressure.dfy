/** The pressure selector: which blocks stay on the GPU when a batch does not fit. It keeps the first
    blocks, then mandatory blocks newest first, then the newest blocks, up to the budget. */
module Pressure {
  import opened Arith
  import opened SlotTable
  import opened SlotPool
  import opened Runs
  import opened Coherence
  import opened CoherentRuns
  import opened Selecting
  import opened Serving

  ghost function Below(k: nat): (s: set<nat>)
    ensures |s| == k && forall i: nat :: i in s <==> i < k
  {
    if k == 0 then {} else Below(k - 1) + {k - 1}
  }

  /** Mandatory ids that name blocks. */
  ghost function Valids(mandatory: seq<nat>, n: nat): set<nat> {
    set i | i in mandatory && i < n
  }

  lemma Smaller(a: set<nat>, b: set<nat>)
    requires a <= b
    ensures |a| <= |b| && (|a| == |b| ==> a == b)
  {
    assert b == a + (b - a);
    assert |b| == |a| + |b - a|;
  }

  function Min(a: nat, b: nat): nat { if a < b then a else b }

  /** `kept` marks exactly the blocks in `marks`. */
  ghost predicate Marking(kept: array<bool>, marks: set<nat>)
    reads kept
  {
    forall i: nat :: i in marks <==> i < kept.Length && kept[i]
  }

  /** The ids marked in `kept`, ascending. */
  method Collect(kept: array<bool>, ghost marks: set<nat>) returns (ids: seq<nat>)
    requires Marking(kept, marks)
    ensures Ascending(ids) && Ids(ids) == marks
  {
    ids := [];
    for i := 0 to kept.Length
      invariant Ascending(ids)
      invariant forall j: nat :: j in ids <==> j < i && kept[j]
    {
      if kept[i] {
        forall k | 0 <= k < |ids| ensures ids[k] < i {
          assert ids[k] in ids;
        }
        ids := ids + [i];
      }
    }
  }

  /** Mark a block, counting it once. */
  method Keep(kept: array<bool>, count: nat, id: nat, ghost marks: set<nat>)
    returns (count': nat, ghost marks': set<nat>)
    requires count == |marks| && Marking(kept, marks)
    modifies kept
    ensures marks' == marks + Known(id, kept.Length)
    ensures |marks| <= count' == |marks'| <= count + 1 && Marking(kept, marks')
  {
    count', marks' := count, marks + Known(id, kept.Length);
    if id < kept.Length && !kept[id] {
      kept[id] := true;
      count' := count + 1;
    } else {
      assert marks' == marks;
    }
  }

  ghost function Known(id: nat, n: nat): set<nat> {
    if id < n then {id} else {}
  }

  /** Keep the first blocks. */
  method KeepFirst(kept: array<bool>, sink: nat) returns (count: nat, ghost marks: set<nat>)
    requires sink <= kept.Length && Marking(kept, {})
    modifies kept
    ensures count == sink && marks == Below(sink) && Marking(kept, marks)
  {
    count, marks := 0, {};
    for id := 0 to sink
      invariant marks == Below(id) && count == id && Marking(kept, marks)
    {
      count, marks := Keep(kept, count, id, marks);
    }
  }

  lemma NoValids(mandatory: seq<nat>, n: nat)
    ensures Valids(mandatory[|mandatory|..], n) == {}
  {
  }

  lemma LaterValids(mandatory: seq<nat>, i: nat, n: nat)
    requires 0 < i <= |mandatory|
    ensures Valids(mandatory[i - 1..], n) == Valids(mandatory[i..], n) + Known(mandatory[i - 1], n)
  {
    assert mandatory[i - 1..] == [mandatory[i - 1]] + mandatory[i..];
  }

  /** Keep mandatory blocks newest first while the budget lasts: those from the i-th on. */
  method KeepMandatory(kept: array<bool>, count0: nat, ghost marks0: set<nat>, budget: nat, mandatory: seq<nat>)
    returns (count: nat, ghost marks: set<nat>, i: nat)
    requires count0 == |marks0| <= budget && Marking(kept, marks0)
    modifies kept
    ensures count == |marks| <= budget && Marking(kept, marks)
    ensures i <= |mandatory| && marks == marks0 + Valids(mandatory[i..], kept.Length)
    ensures i > 0 ==> count == budget
  {
    hide Valids, Marking;
    count, marks := count0, marks0;
    i := |mandatory|;
    NoValids(mandatory, kept.Length);
    while i > 0 && count < budget
      invariant i <= |mandatory| && count == |marks| <= budget && Marking(kept, marks)
      invariant marks == marks0 + Valids(mandatory[i..], kept.Length)
    {
      LaterValids(mandatory, i, kept.Length);
      count, marks := Keep(kept, count, mandatory[i - 1], marks);
      i := i - 1;
    }
  }

  /** The blocks from the `from`-th on. */
  ghost function Newest(from: nat, n: nat): (s: set<nat>)
    ensures forall i: nat :: i in s <==> from <= i < n
  {
    set i: nat | i < n && InTail(i, from)
  }

  /** Fill the budget with the newest blocks: those from `id` on. */
  method KeepNewest(kept: array<bool>, count0: nat, ghost marks0: set<nat>, budget: nat)
    returns (count: nat, ghost marks: set<nat>, id: nat)
    requires count0 == |marks0| <= budget <= kept.Length && Marking(kept, marks0)
    modifies kept
    ensures count == |marks| == budget && Marking(kept, marks)
    ensures id <= kept.Length && marks == marks0 + Newest(id, kept.Length)
    ensures id < kept.Length ==> count0 < budget
  {
    count, marks, id := count0, marks0, kept.Length;
    while id > 0 && count < budget
      invariant id <= kept.Length && count == |marks| <= budget && Marking(kept, marks)
      invariant marks == marks0 + Newest(id, kept.Length) && (id < kept.Length ==> count0 < budget)
    {
      count, marks := Keep(kept, count, id - 1, marks);
      id := id - 1;
    }
    if count < budget {
      Smaller(Below(kept.Length), marks);
    }
  }

  /** The pick is made of the first blocks, the mandatory blocks from the i-th on, and the newest blocks
      from `id` on. Mandatory blocks are left out only if the others use up the budget, and then no block
      is added for being new. */
  ghost predicate Parts(n: nat, budget: nat, sinkBlocks: nat, mandatory: seq<nat>, pick: set<nat>, i: nat, id: nat) {
    && i <= |mandatory| && id <= n && |pick| == budget
    && pick == Below(Min(sinkBlocks, budget)) + Valids(mandatory[i..], n) + Newest(id, n)
    && (i > 0 ==> |Below(Min(sinkBlocks, budget)) + Valids(mandatory[i..], n)| == budget)
  }

  /** What the selector keeps when there are more blocks than the budget allows. */
  ghost predicate Trimmed(n: nat, budget: nat, sinkBlocks: nat, mandatory: seq<nat>, pick: seq<nat>) {
    && Ascending(pick)
    && exists i: nat, id: nat :: Parts(n, budget, sinkBlocks, mandatory, Ids(pick), i, id)
  }

  /** The first blocks are kept, the pick has the size of the budget, and the mandatory blocks are all kept
      if and only if they fit beside the first blocks. */
  lemma PartsKeep(n: nat, budget: nat, sinkBlocks: nat, mandatory: seq<nat>, pick: set<nat>, i: nat, id: nat)
    requires Parts(n, budget, sinkBlocks, mandatory, pick, i, id) && budget <= n
    ensures Below(Min(sinkBlocks, budget)) <= pick <= Below(n) && |pick| == budget
    ensures Valids(mandatory, n) <= pick <==> |Below(Min(sinkBlocks, budget)) + Valids(mandatory, n)| <= budget
  {
    var first, wanted := Below(Min(sinkBlocks, budget)), Below(Min(sinkBlocks, budget)) + Valids(mandatory, n);
    assert mandatory[0..] == mandatory;
    if Valids(mandatory, n) <= pick {
      Smaller(wanted, pick);
    } else {
      var kept := first + Valids(mandatory[i..], n);
      assert kept <= wanted;
      Smaller(kept, wanted);
      assert i > 0 && kept != wanted;
    }
  }

  /** These conditions leave one pick. */
  lemma PickIsUnique(n: nat, budget: nat, sinkBlocks: nat, mandatory: seq<nat>, a: seq<nat>, b: seq<nat>)
    requires Trimmed(n, budget, sinkBlocks, mandatory, a) && Trimmed(n, budget, sinkBlocks, mandatory, b)
    ensures a == b
  {
    hide Parts, Below, Ascending, Newest, Valids;
    var i: nat, id: nat :| Parts(n, budget, sinkBlocks, mandatory, Ids(a), i, id);
    var j: nat, jd: nat :| Parts(n, budget, sinkBlocks, mandatory, Ids(b), j, jd);
    if i <= j {
      PartsUnique(n, budget, sinkBlocks, mandatory, Ids(a), i, id, Ids(b), j, jd);
    } else {
      PartsUnique(n, budget, sinkBlocks, mandatory, Ids(b), j, jd, Ids(a), i, id);
    }
    forall x: nat ensures x in a <==> x in b {
      assert x in Ids(a) <==> x in Ids(b);
    }
    AscendingUnique(a, b);
  }

  lemma PartsUnique(n: nat, budget: nat, sinkBlocks: nat, mandatory: seq<nat>,
                    a: set<nat>, i: nat, id: nat, b: set<nat>, j: nat, jd: nat)
    requires Parts(n, budget, sinkBlocks, mandatory, a, i, id)
    requires Parts(n, budget, sinkBlocks, mandatory, b, j, jd) && i <= j
    ensures a == b
  {
    var first := Below(Min(sinkBlocks, budget));
    assert mandatory[j..] == mandatory[i..][j - i..];
    var more, less := first + Valids(mandatory[i..], n), first + Valids(mandatory[j..], n);
    assert less <= more;
    if j > 0 {
      Smaller(less, a);
      Smaller(less, b);
    } else if id <= jd {
      Smaller(b, a);
    } else {
      Smaller(a, b);
    }
  }

  /** The blocks kept when more blocks exist than the budget allows. */
  method PickTrimmed(n: nat, budget: nat, sinkBlocks: nat, mandatory: seq<nat>) returns (pick: seq<nat>)
    requires 0 < budget < n
    ensures Trimmed(n, budget, sinkBlocks, mandatory, pick)
  {
    hide Ids, Valids, Ascending, Below, Newest;
    var sink := Min(sinkBlocks, budget);
    var kept := new bool[n](_ => false);
    var count, marks := KeepFirst(kept, sink);
    var i, id;
    count, marks, i := KeepMandatory(kept, count, marks, budget, mandatory);
    count, marks, id := KeepNewest(kept, count, marks, budget);
    pick := Collect(kept, marks);
    assert Parts(n, budget, sinkBlocks, mandatory, Ids(pick), i, id);
  }

  /** What the selector returns. */
  ghost predicate Picks(n: nat, budget: nat, sinkBlocks: nat, mandatory: seq<nat>, pick: seq<nat>) {
    if budget == 0 || n <= budget then Ascending(pick) && Ids(pick) == Below(n)
    else Trimmed(n, budget, sinkBlocks, mandatory, pick)
  }

  method PickPressure(n: nat, budget: nat, sinkBlocks: nat, mandatory: seq<nat>) returns (pick: seq<nat>)
    ensures Picks(n, budget, sinkBlocks, mandatory, pick)
  {
    if budget == 0 || n <= budget {
      pick := [];
      for i := 0 to n
        invariant |pick| == i && forall j :: 0 <= j < i ==> pick[j] == j
      {
        pick := pick + [i];
      }
      forall i: nat ensures i in pick <==> i < n {
        if i < n {
          assert pick[i] == i;
        }
      }
      assert Ids(pick) == Below(n);
    } else {
      pick := PickTrimmed(n, budget, sinkBlocks, mandatory);
    }
  }

  // ----- The blocks being appended to -----

  /** The blocks touched by rows from block `first` on, as the caller lists them. */
  function TailIds(first: nat, n: nat): (ids: seq<nat>)
    ensures |ids| == (if first < n then n - first else 0) && forall k :: 0 <= k < |ids| ==> ids[k] == first + k
  {
    if n <= first then [] else TailIds(first, n - 1) + [n - 1]
  }

  lemma TailValids(first: nat, n: nat, i: nat)
    requires first <= n && i <= n - first
    ensures Valids(TailIds(first, n)[i..], n) == Newest(first + i, n)
  {
    var ids := TailIds(first, n);
    forall x: nat | first + i <= x < n ensures x in ids[i..] {
      assert ids[i..][x - first - i] == x;
    }
  }

  lemma Union(a: set<nat>, b: set<nat>)
    requires a !! b
    ensures |a + b| == |a| + |b|
  {
  }

  lemma TailSize(first: nat, n: nat)
    requires first <= n
    ensures |Newest(first, n)| == n - first
  {
    assert Below(first) + Newest(first, n) == Below(n);
    Union(Below(first), Newest(first, n));
  }

  /** The size of the tail together with the first blocks. */
  lemma TailWithFirst(sink: nat, first: nat, n: nat)
    requires first <= n && sink <= n
    ensures |Below(sink) + Newest(first, n)| == Min(sink, first) + (n - first)
  {
    TailSize(first, n);
    assert Below(sink) + Newest(first, n) == Below(Min(sink, first)) + Newest(first, n);
    Union(Below(Min(sink, first)), Newest(first, n));
  }

  /** Whether the tail from block `first` on fits the budget beside the first blocks. */
  predicate TailFits(n: nat, budget: nat, sinkBlocks: nat, first: nat) {
    budget == 0 || n <= budget || Min(Min(sinkBlocks, budget), first) + (n - first) <= budget
  }

  /** The selector keeps all blocks being appended to if and only if they fit. It keeps the first of them,
      which may hold rows already, if and only if they fit or it is one of the first blocks of all. */
  lemma TailKept(n: nat, budget: nat, sinkBlocks: nat, pick: seq<nat>, first: nat)
    requires Picks(n, budget, sinkBlocks, TailIds(first, n), pick) && first < n
    ensures Newest(first, n) <= Ids(pick) <==> TailFits(n, budget, sinkBlocks, first)
    ensures first in Ids(pick) <==> TailFits(n, budget, sinkBlocks, first) || first < Min(sinkBlocks, budget)
  {
    if 0 < budget < n {
      var i: nat, id: nat :| Parts(n, budget, sinkBlocks, TailIds(first, n), Ids(pick), i, id);
      TailPartsKept(n, budget, sinkBlocks, Ids(pick), first, i, id);
    }
  }

  lemma TailPartsKept(n: nat, budget: nat, sinkBlocks: nat, ids: set<nat>, first: nat, i: nat, id: nat)
    requires Parts(n, budget, sinkBlocks, TailIds(first, n), ids, i, id) && first < n && 0 < budget < n
    ensures Newest(first, n) <= ids <==> TailFits(n, budget, sinkBlocks, first)
    ensures first in ids <==> TailFits(n, budget, sinkBlocks, first) || first < Min(sinkBlocks, budget)
  {
    hide TailIds, Valids, Newest, Below, Parts;
    var tail, sink := TailIds(first, n), Min(sinkBlocks, budget);
    PartsKeep(n, budget, sinkBlocks, tail, ids, i, id);
    TailValids(first, n, 0);
    assert tail[0..] == tail;
    TailWithFirst(sink, first, n);
    FirstOfTail(n, budget, sinkBlocks, ids, first, i, id);
  }

  /** A kept first block of the tail that is none of the first blocks of all was kept with its whole tail. */
  lemma FirstOfTail(n: nat, budget: nat, sinkBlocks: nat, ids: set<nat>, first: nat, i: nat, id: nat)
    requires Parts(n, budget, sinkBlocks, TailIds(first, n), ids, i, id) && first < n && 0 < budget < n
    ensures first in ids <==> Newest(first, n) <= ids || first < Min(sinkBlocks, budget)
  {
    hide TailIds, Valids;
    var tail, sink := TailIds(first, n), Min(sinkBlocks, budget);
    TailValids(first, n, i);
    if first in ids && first >= sink && i > 0 {
      var kept := Below(sink) + Newest(first + i, n);
      Smaller(kept, ids);
    }
  }

  // ----- Why a live tail must stay -----

  lemma HarvestTakes(p: Pool, i: nat)
    requires Shaped(p) && i < |p.own| && HeadLive(p, i) && Before(p.own[i].slot, p.bt) + Len(p, i) <= p.kvSize
    ensures Saved(Harvest(p, i), i, Len(p, i))
  {
    hide Before;
  }

  /** Packing a set of blocks packs all stored rows of a live block among them, computed or not. */
  lemma {:induction false} HarvestAllTakes(p: Pool, ids: set<nat>, k: nat, i: nat)
    requires Shaped(p) && k <= |p.own| && i in ids && i < k
    requires HeadLive(p, i) && Before(p.own[i].slot, p.bt) + Len(p, i) <= p.kvSize
    ensures Saved(HarvestAll(p, ids, k), i, Len(p, i))
  {
    hide Before, BlockOf, OffsetOf, BlocksFor, Harvest;
    var q := HarvestAll(p, ids, k - 1);
    if i == k - 1 {
      HarvestTakes(q, i);
    } else {
      HarvestAllTakes(p, ids, k - 1, i);
      HarvestKeeps(q, k - 1, i);
    }
  }

  lemma HarvestKeeps(p: Pool, j: nat, i: nat)
    requires Shaped(p) && j < |p.own| && i in p.raw && j != i
    ensures i in Harvest(p, j).raw && Harvest(p, j).raw[i] == p.raw[i]
  {
    hide Before;
  }

  lemma SlotInside(p: Pool, i: nat)
    requires Valid(p) && p.kvSize == Before(p.nSlots, p.bt) && i < |p.own| && Resident(p.own[i])
    ensures Before(p.own[i].slot, p.bt) + p.bt <= p.kvSize
  {
    OwnedOnce(p.own, p.free, p.nSlots, i, i);
    BeforeMono(p.own[i].slot, p.nSlots, p.bt);
  }

  lemma PlanPacksTail(a: Pool, pick: set<nat>, i: nat)
    requires Valid(a) && a.kvSize == Before(a.nSlots, a.bt) && i < |a.own| && HeadLive(a, i) && i !in pick
    ensures var q := ApplyPlan(a, pick); Saved(q, i, Len(a, i)) && !Resident(q.own[i])
  {
    hide Before, BlockOf, OffsetOf, BlocksFor, Harvest;
    SlotInside(a, i);
    PlanSwaps(a, pick);
    HarvestAllTakes(a, Outgoing(a, pick), |a.own|, i);
  }

  /** A plan that drops the live, partly computed tail block packs rows that were never computed, and the
      failed call leaves them in the store. */
  lemma DroppedTailPacksUncomputed(p: Pool, h: History, n: nat, pick: set<nat>)
    requires Coherent(p, h, p.total) && PlanRuns(p, n, Some(pick)) && HotTail(p) && BlockOf(p.total, p.bt) !in pick
    ensures var (ok, q) := Prepare(p, n, Some(pick));
      !ok && BlockOf(p.total, p.bt) in q.raw && !Packed(q, h, p.total, BlockOf(p.total, p.bt))
  {
    hide ApplyPlan, NeedsOffload;
    var i, a := BlockOf(p.total, p.bt), Append(p, n);
    AppendValid(p, n);
    PlanPacksTail(a, pick, i);
    RowSplit(p.total, p.bt);
    var planned := ApplyPlan(a, pick);
    PlanFrame(a, pick);
    assert !TailPlaced(planned, p.total);
    assert Prepare(p, n, Some(pick)) == (false, Truncate(planned, p.total));
  }

  lemma PlanFrame(a: Pool, pick: set<nat>)
    requires Valid(a)
    ensures var q := ApplyPlan(a, pick); Valid(q) && q.total == a.total && q.bt == a.bt && |q.own| == |a.own|
  {
    PlanValid(a, pick);
    PlanSwaps(a, pick);
  }

  lemma DroppedTail(p: Pool, h: History, n: nat, pick: Option<set<nat>>)
    requires Coherent(p, h, p.total) && !RoomIsSafe(p, n, pick)
    ensures !Coherent(Prepare(p, n, pick).1, h, p.total)
  {
    hide Prepare, Packed, HotTail;
    DroppedTailPacksUncomputed(p, h, n, pick.value);
  }

  /** Making room loses nothing, whether it succeeds or fails, if and only if no plan runs that drops a
      live, partly computed tail. */
  lemma RoomLosesNothing(p: Pool, h: History, n: nat, pick: Option<set<nat>>)
    requires Coherent(p, h, p.total)
    ensures Coherent(Prepare(p, n, pick).1, h, p.total) <==> RoomIsSafe(p, n, pick)
  {
    hide Prepare, Packed, HotTail, PlanRuns;
    if RoomIsSafe(p, n, pick) {
      PrepareCoherent(p, h, n, pick);
    } else {
      DroppedTail(p, h, n, pick);
    }
  }

  // ----- The selector over whole runs -----

  /** The pick is the selector's for appending n rows. */
  ghost predicate Selected(p: Pool, n: nat, pick: Option<set<nat>>, budget: nat, sinkBlocks: nat)
    requires Shaped(p)
  {
    pick.Some? ==> exists ids ::
      Picks(|Append(p, n).own|, budget, sinkBlocks, TailIds(BlockOf(p.total, p.bt), |Append(p, n).own|), ids) &&
          Ids(ids) == pick.value
  }

  /** The blocks being appended to fit the selector's budget, or the first of them is always kept. */
  predicate FitsSelector(p: Pool, n: nat, budget: nat, sinkBlocks: nat)
    requires Shaped(p)
  {
    var first := BlockOf(p.total, p.bt);
    TailFits(|Append(p, n).own|, budget, sinkBlocks, first) || first < Min(sinkBlocks, budget)
  }

  /** With the real selector, making room is safe if and only if no plan runs, or the tail is not live and
      partly computed, or the blocks being appended to fit its budget. */
  lemma SelectorMakesRoom(p: Pool, n: nat, pick: Option<set<nat>>, budget: nat, sinkBlocks: nat)
    requires Valid(p) && Selected(p, n, pick, budget, sinkBlocks)
    ensures RoomIsSafe(p, n, pick) <==> (PlanRuns(p, n, pick) && HotTail(p) ==> FitsSelector(p, n, budget, sinkBlocks))
  {
    if PlanRuns(p, n, pick) && HotTail(p) {
      var a, first := Append(p, n), BlockOf(p.total, p.bt);
      var ids :| Picks(|a.own|, budget, sinkBlocks, TailIds(first, |a.own|), ids) && Ids(ids) == pick.value;
      TailKept(|a.own|, budget, sinkBlocks, ids, first);
    }
  }

  /** Acts as the callers choose them, with the selector's own picks: nothing is assumed about a pick. */
  ghost predicate Chosen(s: State, a: Act, budget: nat, sinkBlocks: nat)
    requires Valid(s.p)
  {
    if a.Extend? then
      && !s.p.replay && s.u == s.p.total && a.batch != [] && ContinuesAt(a.batch, s.u) && TailLive(s.p, s.u)
      && Selected(s.p, |a.batch|, a.pick, budget, sinkBlocks)
      && (PlanRuns(s.p, |a.batch|, a.pick) && HotTail(s.p) ==> FitsSelector(s.p, |a.batch|, budget, sinkBlocks))
    else Allowed(s, a)
  }

  ghost predicate AllChosen(s: State, acts: seq<Act>, budget: nat, sinkBlocks: nat)
    requires Valid(s.p)
  {
    acts == [] ||
    (AllChosen(s, acts[..|acts| - 1], budget, sinkBlocks) &&
     Chosen(Serve(s, acts[..|acts| - 1]), acts[|acts| - 1], budget, sinkBlocks))
  }

  /** Such runs are serving runs, so over every one of them nothing stale is attended and nothing is lost. */
  lemma {:induction false} ChosenServes(s: State, acts: seq<Act>, budget: nat, sinkBlocks: nat)
    requires Safe(s) && AllChosen(s, acts, budget, sinkBlocks)
    ensures AllAllowed(s, acts) && Safe(Serve(s, acts))
  {
    hide Allowed, RoomIsSafe, PlanRuns, HotTail, FitsSelector, Selected;
    if acts != [] {
      var before, a := acts[..|acts| - 1], acts[|acts| - 1];
      ChosenServes(s, before, budget, sinkBlocks);
      ChosenAllowed(Serve(s, before), a, budget, sinkBlocks);
      ActSafe(Serve(s, before), a);
    }
  }

  lemma ChosenAllowed(s: State, a: Act, budget: nat, sinkBlocks: nat)
    requires Safe(s) && Chosen(s, a, budget, sinkBlocks)
    ensures Allowed(s, a)
  {
    if a.Extend? {
      SelectorMakesRoom(s.p, |a.batch|, a.pick, budget, sinkBlocks);
    }
  }
}
