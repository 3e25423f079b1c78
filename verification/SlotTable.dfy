/** The allocator side of the block table: which block owns which GPU slot, and the free-slot stack. */
module SlotTable {

  /** Placement of one block: its GPU slot (-1 when it has none), whether its active copy is on the
      GPU, and whether it belongs to the selected working set. */
  datatype Info = Info(slot: int, onGpu: bool, inSet: bool)

  const NEW_BLOCK := Info(-1, true, false)

  predicate Resident(b: Info) { b.slot >= 0 }

  /** How many blocks own slot s. */
  ghost function Owners(own: seq<Info>, s: int): nat {
    if own == [] then 0 else Owners(own[..|own| - 1], s) + OwnsIt(own[|own| - 1], s)
  }

  ghost function OwnsIt(b: Info, s: int): nat {
    if Resident(b) && b.slot == s then 1 else 0
  }

  /** How often slot s is on the free stack. */
  ghost function Listed(free: seq<int>, s: int): nat {
    if free == [] then 0 else Listed(free[..|free| - 1], s) + if free[|free| - 1] == s then 1 else 0
  }

  /** The free slots and the owned slots are a duplicate-free partition of [0, n). */
  ghost predicate Partition(own: seq<Info>, free: seq<int>, n: nat) {
    forall s :: Listed(free, s) + Owners(own, s) == if 0 <= s < n then 1 else 0
  }

  // ----- Counting slots -----

  lemma {:induction false} OwnersUpdate(own: seq<Info>, i: nat, b: Info, s: int)
    requires i < |own|
    ensures Owners(own[i := b], s) == Owners(own, s) - OwnsIt(own[i], s) + OwnsIt(b, s)
    ensures Owners(own, s) >= OwnsIt(own[i], s)
  {
    var n := |own| - 1;
    if i == n {
      assert own[i := b][..n] == own[..n];
    } else {
      OwnersUpdate(own[..n], i, b, s);
      assert own[i := b][..n] == own[..n][i := b];
    }
  }

  lemma {:induction false} OwnersConcat(a: seq<Info>, b: seq<Info>, s: int)
    ensures Owners(a + b, s) == Owners(a, s) + Owners(b, s)
  {
    if b == [] {
      assert a + b == a;
    } else {
      var n := |b| - 1;
      OwnersConcat(a, b[..n], s);
      assert (a + b)[..|a + b| - 1] == a + b[..n];
    }
  }

  lemma {:induction false} ListedConcat(a: seq<int>, b: seq<int>, s: int)
    ensures Listed(a + b, s) == Listed(a, s) + Listed(b, s)
  {
    if b == [] {
      assert a + b == a;
    } else {
      var n := |b| - 1;
      ListedConcat(a, b[..n], s);
      assert (a + b)[..|a + b| - 1] == a + b[..n];
    }
  }

  lemma {:induction false} ListedAt(free: seq<int>, k: nat)
    requires k < |free|
    ensures Listed(free, free[k]) >= 1
  {
    if k < |free| - 1 {
      ListedAt(free[..|free| - 1], k);
    }
  }

  /** In a partition an owned slot is in range, is not free, and has one owner. */
  lemma OwnedOnce(own: seq<Info>, free: seq<int>, n: nat, i: nat, j: nat)
    requires Partition(own, free, n) && i < |own| && j < |own| && Resident(own[i])
    ensures 0 <= own[i].slot < n && own[i].slot !in free
    ensures own[i].slot == own[j].slot ==> i == j
  {
    var s := own[i].slot;
    OwnersUpdate(own, i, own[i], s);
    assert Listed(free, s) + Owners(own, s) == if 0 <= s < n then 1 else 0;
    if s in free {
      var k :| 0 <= k < |free| && free[k] == s;
      ListedAt(free, k);
    }
    if i != j {
      OwnersUpdate(own, i, NEW_BLOCK, s);
      OwnersUpdate(own[i := NEW_BLOCK], j, own[j], s);
    }
  }

  lemma FreeInRange(own: seq<Info>, free: seq<int>, n: nat)
    requires Partition(own, free, n)
    ensures forall k :: 0 <= k < |free| ==> 0 <= free[k] < n
  {
    forall k | 0 <= k < |free| ensures 0 <= free[k] < n {
      ListedAt(free, k);
      assert Listed(free, free[k]) + Owners(own, free[k]) == if 0 <= free[k] < n then 1 else 0;
    }
  }

  // ----- Free-slot stack and placement -----

  /** Give every wanted block without a slot the top of the free stack, in block order, as long as
      slots last. */
  function Assign(own: seq<Info>, free: seq<int>, want: set<nat>, i: nat): (r: (seq<Info>, seq<int>))
    requires i <= |own|
    ensures |r.0| == |own|
    decreases |own| - i
  {
    if i == |own| then (own, free)
    else if i in want && !Resident(own[i]) && free != [] then
      Assign(own[i := own[i].(slot := free[|free| - 1], onGpu := true)], free[..|free| - 1], want, i + 1)
    else Assign(own, free, want, i + 1)
  }

  /** How many wanted blocks from i on still need a slot. */
  function Lacking(own: seq<Info>, want: set<nat>, i: nat): (k: nat)
    requires i <= |own|
    decreases |own| - i
  {
    if i == |own| then 0
    else (if i in want && !Resident(own[i]) then 1 else 0) + Lacking(own, want, i + 1)
  }

  lemma {:induction false} LackingUpdate(own: seq<Info>, want: set<nat>, i: nat, b: Info, j: nat)
    requires i < j <= |own|
    ensures Lacking(own[i := b], want, j) == Lacking(own, want, j)
    decreases |own| - j
  {
    if j < |own| {
      LackingUpdate(own, want, i, b, j + 1);
    }
  }

  /** Placement moves slots from the stack to blocks and loses none. */
  lemma {:induction false} AssignConserves(own: seq<Info>, free: seq<int>, want: set<nat>, i: nat, s: int)
    requires i <= |own| && forall k :: 0 <= k < |free| ==> free[k] >= 0
    ensures var (own', free') := Assign(own, free, want, i);
            Listed(free', s) + Owners(own', s) == Listed(free, s) + Owners(own, s)
    decreases |own| - i
  {
    if i < |own| {
      if i in want && !Resident(own[i]) && free != [] {
        var b := own[i].(slot := free[|free| - 1], onGpu := true);
        OwnersUpdate(own, i, b, s);
        AssignConserves(own[i := b], free[..|free| - 1], want, i + 1, s);
      } else {
        AssignConserves(own, free, want, i + 1, s);
      }
    }
  }

  lemma AssignPartition(own: seq<Info>, free: seq<int>, n: nat, want: set<nat>, i: nat)
    requires i <= |own| && Partition(own, free, n)
    ensures Partition(Assign(own, free, want, i).0, Assign(own, free, want, i).1, n)
  {
    FreeInRange(own, free, n);
    var (own', free') := Assign(own, free, want, i);
    forall s ensures Listed(free', s) + Owners(own', s) == if 0 <= s < n then 1 else 0 {
      AssignConserves(own, free, want, i, s);
    }
  }

  /** Placement keeps existing slots and touches only wanted blocks that have none. */
  ghost predicate Extends(own: seq<Info>, own': seq<Info>, want: set<nat>, i: nat) {
    && |own'| == |own|
    && (forall j :: 0 <= j < |own| && (j < i || j !in want || Resident(own[j])) ==> own'[j] == own[j])
    && (forall j :: 0 <= j < |own| && own'[j] != own[j] ==>
        Resident(own'[j]) && own'[j].onGpu && own'[j].inSet == own[j].inSet)
  }

  lemma {:induction false} AssignExtends(own: seq<Info>, free: seq<int>, want: set<nat>, i: nat)
    requires i <= |own| && forall k :: 0 <= k < |free| ==> free[k] >= 0
    ensures Extends(own, Assign(own, free, want, i).0, want, i)
    decreases |own| - i
  {
    if i < |own| {
      if i in want && !Resident(own[i]) && free != [] {
        var b := own[i].(slot := free[|free| - 1], onGpu := true);
        AssignExtends(own[i := b], free[..|free| - 1], want, i + 1);
      } else {
        AssignExtends(own, free, want, i + 1);
      }
    }
  }

  /** With enough free slots every wanted block is placed, and exactly that many slots are used. */
  lemma {:induction false} AssignPlacesAll(own: seq<Info>, free: seq<int>, want: set<nat>, i: nat)
    requires i <= |own| && Lacking(own, want, i) <= |free| && forall k :: 0 <= k < |free| ==> free[k] >= 0
    ensures var (own', free') := Assign(own, free, want, i);
      && |free'| == |free| - Lacking(own, want, i)
      && (forall j :: i <= j < |own| && j in want ==> Resident(own'[j]))
    decreases |own| - i
  {
    if i < |own| {
      if i in want && !Resident(own[i]) {
        var b := own[i].(slot := free[|free| - 1], onGpu := true);
        var rest := free[..|free| - 1];
        LackingUpdate(own, want, i, b, i + 1);
        AssignPlacesAll(own[i := b], rest, want, i + 1);
        AssignExtends(own[i := b], rest, want, i + 1);
      } else {
        AssignPlacesAll(own, free, want, i + 1);
        AssignExtends(own, free, want, i + 1);
      }
    }
  }

  /** What placement leaves lacking is what the stack could not cover. */
  lemma {:induction false} AssignLeaves(own: seq<Info>, free: seq<int>, want: set<nat>, i: nat)
    requires i <= |own| && forall k :: 0 <= k < |free| ==> free[k] >= 0
    ensures Lacking(Assign(own, free, want, i).0, want, i) ==
            if Lacking(own, want, i) <= |free| then 0 else Lacking(own, want, i) - |free|
    decreases |own| - i
  {
    if i < |own| {
      if i in want && !Resident(own[i]) && free != [] {
        var b := own[i].(slot := free[|free| - 1], onGpu := true);
        LackingUpdate(own, want, i, b, i + 1);
        AssignLeaves(own[i := b], free[..|free| - 1], want, i + 1);
        AssignExtends(own[i := b], free[..|free| - 1], want, i + 1);
      } else {
        AssignLeaves(own, free, want, i + 1);
        AssignExtends(own, free, want, i + 1);
      }
    }
  }

  /** Nothing is lacking if and only if every wanted block has a slot. */
  lemma {:induction false} NothingLacking(own: seq<Info>, want: set<nat>, i: nat)
    requires i <= |own|
    ensures Lacking(own, want, i) == 0 <==> forall j :: i <= j < |own| && j in want ==> Resident(own[j])
    decreases |own| - i
  {
    if i < |own| {
      NothingLacking(own, want, i + 1);
    }
  }

  /** Without free slots nothing is placed. */
  lemma {:induction false} NothingAssigned(own: seq<Info>, want: set<nat>, i: nat)
    requires i <= |own|
    ensures Assign(own, [], want, i) == (own, [])
    decreases |own| - i
  {
    if i < |own| {
      NothingAssigned(own, want, i + 1);
    }
  }

  /** The slots of the blocks popped from the back, in popping order. */
  function Popped(own: seq<Info>, keep: nat): (s: seq<int>)
    requires keep <= |own|
  {
    if |own| == keep then [] else
      (if Resident(own[|own| - 1]) then [own[|own| - 1].slot] else []) + Popped(own[..|own| - 1], keep)
  }

  /** The block popped last is the lowest one. */
  lemma {:induction false} PoppedLast(own: seq<Info>, keep: nat)
    requires keep < |own|
    ensures Popped(own, keep) == Popped(own, keep + 1) + if Resident(own[keep]) then [own[keep].slot] else []
  {
    if keep + 1 < |own| {
      PoppedLast(own[..|own| - 1], keep);
    } else {
      assert Popped(own[..keep], keep) == [];
      assert Popped(own, keep + 1) == [];
    }
  }

  lemma {:induction false} PoppedConserves(own: seq<Info>, keep: nat, s: int)
    requires keep <= |own|
    ensures Owners(own, s) == Owners(own[..keep], s) + Listed(Popped(own, keep), s)
  {
    if |own| == keep {
      assert own[..keep] == own;
    } else {
      var n := |own| - 1;
      PoppedConserves(own[..n], keep, s);
      assert own[..n][..keep] == own[..keep];
      var top := if Resident(own[n]) then [own[n].slot] else [];
      ListedConcat(top, Popped(own[..n], keep), s);
      assert Listed(top, s) == OwnsIt(own[n], s);
    }
  }

  lemma PoppedPartition(own: seq<Info>, free: seq<int>, n: nat, keep: nat)
    requires keep <= |own| && Partition(own, free, n)
    ensures Partition(own[..keep], free + Popped(own, keep), n)
  {
    forall s
      ensures Listed(free + Popped(own, keep), s) + Owners(own[..keep], s) == if 0 <= s < n then 1 else 0
    {
      PoppedConserves(own, keep, s);
      ListedConcat(free, Popped(own, keep), s);
    }
  }

  /** Slots given up by GPU blocks outside `sel`, in block order. */
  function Freed(own: seq<Info>, sel: set<nat>): seq<int> {
    if own == [] then [] else
      var i := |own| - 1;
      Freed(own[..i], sel) + if own[i].onGpu && i !in sel && Resident(own[i]) then [own[i].slot] else []
  }

  /** GPU blocks outside `sel` are moved off the GPU; blocks inside it are marked as the working set. */
  function Marked(own: seq<Info>, sel: set<nat>): (own': seq<Info>)
    ensures |own'| == |own|
    ensures forall i :: 0 <= i < |own| ==> own'[i] == MarkedAs(own[i], i in sel)
  {
    seq(|own|, i requires 0 <= i < |own| => MarkedAs(own[i], i in sel))
  }

  function MarkedAs(b: Info, selected: bool): Info {
    if selected then b.(inSet := true) else if b.onGpu then Info(-1, false, false) else b
  }

  lemma {:induction false} FreedConserves(own: seq<Info>, sel: set<nat>, s: int)
    ensures Owners(own, s) == Owners(Marked(own, sel), s) + Listed(Freed(own, sel), s)
  {
    if own != [] {
      var i := |own| - 1;
      FreedConserves(own[..i], sel, s);
      var marked := Marked(own, sel);
      assert marked[..i] == Marked(own[..i], sel);
      var more := if own[i].onGpu && i !in sel && Resident(own[i]) then [own[i].slot] else [];
      ListedConcat(Freed(own[..i], sel), more, s);
      assert Listed(more, s) + OwnsIt(marked[i], s) == OwnsIt(own[i], s) by {
        assert more != [] ==> Listed(more, s) == Listed([], s) + if own[i].slot == s then 1 else 0;
      }
    }
  }

  lemma MarkedPartition(own: seq<Info>, free: seq<int>, n: nat, sel: set<nat>)
    requires Partition(own, free, n)
    ensures Partition(Marked(own, sel), free + Freed(own, sel), n)
  {
    forall s
      ensures Listed(free + Freed(own, sel), s) + Owners(Marked(own, sel), s) == if 0 <= s < n then 1 else 0
    {
      FreedConserves(own, sel, s);
      ListedConcat(free, Freed(own, sel), s);
    }
  }

  // ----- Residents in block order -----

  /** Ids of the blocks that own a slot, ascending. */
  function Residents(own: seq<Info>): (ids: seq<nat>)
    ensures |ids| <= |own|
  {
    if own == [] then [] else
      Residents(own[..|own| - 1]) + if Resident(own[|own| - 1]) then [|own| - 1] else []
  }

  ghost predicate Ascending(ids: seq<nat>) {
    forall a, b :: 0 <= a < b < |ids| ==> ids[a] < ids[b]
  }

  lemma {:induction false} ResidentsAre(own: seq<Info>)
    ensures Ascending(Residents(own))
    ensures forall i: nat :: i in Residents(own) <==> i < |own| && Resident(own[i])
  {
    if own != [] {
      var n := |own| - 1;
      ResidentsAre(own[..n]);
      var front, last := Residents(own[..n]), if Resident(own[n]) then [n] else [];
      assert Residents(own) == front + last;
      forall i: nat ensures i in Residents(own) <==> i < |own| && Resident(own[i]) {
        assert i in Residents(own) <==> i in front || i in last;
      }
      forall k | 0 <= k < |front| ensures front[k] < n {
        assert front[k] in front;
      }
    }
  }

  /** The slots of the residents, in block order. */
  ghost function SlotList(own: seq<Info>): (l: seq<int>)
    ensures |l| == |Residents(own)|
  {
    if own == [] then [] else
      SlotList(own[..|own| - 1]) + if Resident(own[|own| - 1]) then [own[|own| - 1].slot] else []
  }

  lemma {:induction false} SlotListCounts(own: seq<Info>, s: int)
    ensures Listed(SlotList(own), s) == Owners(own, s)
  {
    if own != [] {
      var n := |own| - 1;
      SlotListCounts(own[..n], s);
      ListedConcat(SlotList(own[..n]), if Resident(own[n]) then [own[n].slot] else [], s);
      assert Listed([own[n].slot], s) == if own[n].slot == s then 1 else 0;
    }
  }

  /** A list that holds each of 0 .. n-1 once and nothing else has n entries. */
  lemma {:induction false} OnceEach(l: seq<int>, n: nat)
    requires forall s :: Listed(l, s) == if 0 <= s < n then 1 else 0
    ensures |l| == n
    decreases |l|
  {
    if l == [] {
      assert Listed(l, 0) == 0;
    } else {
      var x := l[|l| - 1];
      ListedAt(l, |l| - 1);
      assert 0 <= x < n;
      // Swap names so that the last entry is n - 1, then drop it.
      var rest := seq(|l| - 1, k requires 0 <= k < |l| - 1 => if l[k] == n - 1 then x else l[k]);
      forall s ensures Listed(rest, s) == if 0 <= s < n - 1 then 1 else 0 {
        Renamed(l[..|l| - 1], rest, n - 1, x, s);
        assert Listed(l, s) == Listed(l[..|l| - 1], s) + if x == s then 1 else 0;
        assert Listed(l, n - 1) == Listed(l[..|l| - 1], n - 1) + if x == n - 1 then 1 else 0;
        assert Listed(l, x) == Listed(l[..|l| - 1], x) + 1;
      }
      OnceEach(rest, n - 1);
    }
  }

  lemma {:induction false} Renamed(l: seq<int>, r: seq<int>, from: int, to: int, s: int)
    requires |r| == |l| && forall k :: 0 <= k < |l| ==> r[k] == if l[k] == from then to else l[k]
    ensures Listed(r, s) == (if s == from && from != to then 0 else Listed(l, s))
                          + (if s == to && from != to then Listed(l, from) else 0)
  {
    if l != [] {
      Renamed(l[..|l| - 1], r[..|r| - 1], from, to, s);
    }
  }

  /** Each slot is free or belongs to one resident block. */
  lemma PartitionCount(own: seq<Info>, free: seq<int>, n: nat)
    requires Partition(own, free, n)
    ensures |free| + |Residents(own)| == n
  {
    forall s ensures Listed(free + SlotList(own), s) == if 0 <= s < n then 1 else 0 {
      ListedConcat(free, SlotList(own), s);
      SlotListCounts(own, s);
    }
    OnceEach(free + SlotList(own), n);
  }
}
