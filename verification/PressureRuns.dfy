/** Two runs from an empty cache under the pressure selector that end badly, step by step: a half
    computed last block is moved out, and a block is given a slot that nobody fills. */
module PressureRuns {
  import opened Arith
  import opened SlotTable
  import opened SlotPool
  import opened Runs
  import opened Coherence
  import opened CoherentRuns
  import opened Serving
  import opened Pressure
  import opened SplitTail

  // ----- Three rows, then three more: the selector drops the block that holds the third -----

  const WIDE := Geometry(2, 3, 6, 6)
  const TWO := [Info(0, true, false), Info(1, true, false)]

  function ThreeRows(v: seq<Bytes>): seq<Row>
    requires |v| == 6
  {
    [At(v, 0), At(v, 1), At(v, 2)]
  }

  function Three(v: seq<Bytes>, junk: seq<Bytes>): (p: Pool)
    requires |v| == |junk| == 6
  {
    Decode(Fresh(2, 3, 6, 6, junk), ThreeRows(v), None)
  }

  lemma TwoPlaced()
    ensures Assign([NEW_BLOCK, NEW_BLOCK], [2, 1, 0], {0, 1}, 0) == (TWO, [2])
  {
    var w: set<nat> := {0, 1};
    var a := [Info(0, true, false), NEW_BLOCK];
    assert Assign(TWO, [2], w, 2) == (TWO, [2]);
    assert a[1 := Info(1, true, false)] == TWO && [2, 1][..1] == [2];
    assert Assign(a, [2, 1], w, 1) == (TWO, [2]);
    assert [NEW_BLOCK, NEW_BLOCK][0 := Info(0, true, false)] == a && [2, 1, 0][..2] == [2, 1];
  }

  lemma ThreeSeen(v: seq<Bytes>, junk: seq<Bytes>)
    requires |v| == |junk| == 6
    ensures Seen(Three(v, junk), WIDE, 3, TWO, [2], [0, 1, 2, -1, -1, -1],
                 [v[0], v[1], v[2], junk[3], junk[4], junk[5]])
    ensures Prepare(Fresh(2, 3, 6, 6, junk), 3, None).0 && !Three(v, junk).pinned && !Three(v, junk).keep
  {
    hide Assign;
    var p := Fresh(2, 3, 6, 6, junk);
    assert BlocksFor(3, 2) == 2;
    var a := Append(p, 3);
    assert a.own == [NEW_BLOCK, NEW_BLOCK] && p.free == [2, 1, 0];
    forall i: nat ensures i in Touched(a, 0) <==> i in {0, 1} {
    }
    assert Touched(a, 0) == {0, 1};
    assert ResidentRows(a, 0) == 0;
    assert ResidentRows(a, 1) == 0;
    TwoPlaced();
    var q := a.(own := TWO, free := [2]);
    assert Placed(a, 0, 3, None) == Some(q);
    assert TailPlaced(q, 0);
    assert Prepare(p, 3, None) == (true, q);
    assert Noted(p, ThreeRows(v)) == p;
    ThreeStored(q, v, junk);
  }

  lemma ThreeStored(q: Pool, v: seq<Bytes>, junk: seq<Bytes>)
    requires Shaped(q) && |v| == |junk| == 6 && Seen(q, WIDE, 3, TWO, [2], [-1, -1, -1, -1, -1, -1], junk)
    ensures Seen(Store(q, ThreeRows(v)), WIDE, 3, TWO, [2], [0, 1, 2, -1, -1, -1],
                 [v[0], v[1], v[2], junk[3], junk[4], junk[5]])
  {
    hide Store, PutRows, Shaped, FilledRows, FilledKv;
    var b, cs: seq<nat>, rows: seq<int> := ThreeRows(v), [0, 1, 2], [-1, -1, -1, -1, -1, -1];
    BatchSeen(q, WIDE, b, cs, 3, TWO, [2], rows, junk);
    forall k: nat | k < 3 ensures FilledRows(rows, b, cs)[k] == k && FilledKv(junk, b, cs)[k] == v[k] {
      FilledHit(rows, junk, b, cs, k);
      assert b[k] == At(v, k) && cs[k] == k;
    }
    forall k: nat | 3 <= k < 6 ensures FilledRows(rows, b, cs)[k] == -1 && FilledKv(junk, b, cs)[k] == junk[k] {
      FilledMiss(rows, junk, b, cs, k);
    }
    StoreIsPut(q, b);
  }

  /** With a budget of two blocks, the first of which is always kept, the selector picks blocks 0 and 2. */
  lemma ThreeAndThree()
    ensures Picks(3, 2, 1, TailIds(1, 3), [0, 2])
  {
    hide TailIds, Below, Valids, Newest;
    TailIs();
    Small();
    assert [1, 2][1..] == [2];
    assert Ids([0, 2]) == {0} + {2};
    assert |Ids([0, 2])| == 2;
    assert Parts(3, 2, 1, [1, 2], Ids([0, 2]), 1, 3);
  }

  lemma TailIs()
    ensures TailIds(1, 3) == [1, 2] && TailIds(2, 3) == [2]
  {
    assert TailIds(1, 2) == [1];
  }

  lemma Small()
    ensures Below(0) == {} && Below(1) == {0} && Below(2) == {0, 1} && Valids([2], 3) == {2}
    ensures Newest(3, 3) == {} && Newest(1, 3) == {1, 2}
  {
  }

  /** Everything computed so far is coherent. Making room for three more rows then fails, and leaves the
      store with a row of block 1 that was never computed. */
  lemma TailDropped(v: seq<Bytes>, junk: seq<Bytes>)
    requires |v| == |junk| == 6
    ensures var p, h := Three(v, junk), Learned(map[], ThreeRows(v));
      && Coherent(p, h, p.total) && Picks(3, 2, 1, TailIds(1, 3), [0, 2])
      && !Coherent(Prepare(p, 3, Some(Ids([0, 2]))).1, h, p.total)
  {
    hide Prepare, Learned, Three, Coherent;
    assert Ids([0, 2]) == {0, 2};
    var p, h := Three(v, junk), Learned(map[], ThreeRows(v));
    ThreeSeen(v, junk);
    ThreeCoherent(v, junk);
    ThreeAndThree();
    ThreeHot(p, [v[0], v[1], v[2], junk[3], junk[4], junk[5]]);
    RoomLosesNothing(p, h, 3, Some({0, 2}));
  }

  lemma ThreeCoherent(v: seq<Bytes>, junk: seq<Bytes>)
    requires |v| == |junk| == 6
    ensures Coherent(Three(v, junk), Learned(map[], ThreeRows(v)), 3)
  {
    hide Prepare, Learned, Store;
    var p := Fresh(2, 3, 6, 6, junk);
    ThreeSeen(v, junk);
    ExtendSafe(p, map[], ThreeRows(v), None);
  }

  lemma ThreeHot(p: Pool, kv: seq<Bytes>)
    requires |kv| == 6 && Shaped(p) && Seen(p, WIDE, 3, TWO, [2], [0, 1, 2, -1, -1, -1], kv) && !p.pinned && !p.keep
    ensures HotTail(p) && PlanRuns(p, 3, Some({0, 2})) && BlockOf(3, 2) == 1
  {
    assert RowOf(p.cells[2]) == 2;
    var a := Append(p, 3);
    assert a.own[0] == TWO[0] && a.own[1] == TWO[1] && a.own[2] == NEW_BLOCK;
    assert ResidentRows(a, 0) == 0;
    assert ResidentRows(a, 1) == 2;
    assert ResidentRows(a, 2) == 4;
    assert ResidentRows(a, 3) == 4;
  }

  // ----- A block of an earlier eviction, picked for being new -----

  // Two slots of one row; a plan runs as soon as more than one row would be on the GPU, and keeps the two
  // newest blocks.
  const NARROW := Geometry(1, 2, 2, 1)
  const PAIR := [Info(0, true, true), Info(1, true, true)]

  function Cold1(v: seq<Bytes>, junk: seq<Bytes>): (p: Pool)
    requires |v| == 3 && |junk| == 2
    ensures Valid(p)
  {
    var p, e := Fresh(1, 2, 2, 1, junk), Batch([At(v, 0), At(v, 1)], Some({0, 1}));
    StepValid(p, e);
    Step(p, e)
  }

  /** Block 0 is retrieved alone, and a new turn begins. */
  function Cold2(v: seq<Bytes>, junk: seq<Bytes>): (p: Pool)
    requires |v| == 3 && |junk| == 2
    ensures Valid(p)
  {
    var p := Cold1(v, junk);
    var e := ApplySelection(Selection(p.epoch, p.total, [0]));
    StepValid(p, e);
    StepValid(Step(p, e), BeginTurn);
    Step(Step(p, e), BeginTurn)
  }

  /** One more row. */
  function Cold3(v: seq<Bytes>, junk: seq<Bytes>): (p: Pool)
    requires |v| == 3 && |junk| == 2
    ensures Valid(p)
  {
    var p, e := Cold2(v, junk), Batch([At(v, 2)], Some({1, 2}));
    StepValid(p, e);
    Step(p, e)
  }

  /** Both blocks on the GPU are retrieved. */
  function Cold4(v: seq<Bytes>, junk: seq<Bytes>): (p: Pool)
    requires |v| == 3 && |junk| == 2
    ensures Valid(p)
  {
    var p := Cold3(v, junk);
    var e := ApplySelection(Selection(p.epoch, p.total, [1, 2]));
    StepValid(p, e);
    Step(p, e)
  }

  lemma PairPlaced()
    ensures Replace([NEW_BLOCK, NEW_BLOCK], [1, 0], {0, 1}, {0, 1}) == (PAIR, [])
  {
    var w: set<nat> := {0, 1};
    var a, b, c := [Info(-1, true, true), Info(-1, true, true)], [Info(0, true, true), Info(-1, true, true)],
        [NEW_BLOCK, NEW_BLOCK];
    assert Marked(c, w) == a;
    assert c[..1] == [NEW_BLOCK] && c[..1][..0] == [];
    assert Freed(c[..1][..0], w) == [];
    assert Freed(c[..1], w) == [];
    assert Freed(c, w) == [] && [1, 0] + [] == [1, 0];
    assert Assign(PAIR, [], w, 2) == (PAIR, []);
    assert b[1 := Info(1, true, true)] == PAIR && [1][..0] == [];
    assert Assign(b, [1], w, 1) == (PAIR, []);
    assert a[0 := Info(0, true, true)] == b && [1, 0][..1] == [1];
    assert OnGpu(PAIR, w) == PAIR;
  }

  lemma Cold1Seen(v: seq<Bytes>, junk: seq<Bytes>)
    requires |v| == 3 && |junk| == 2
    ensures Seen(Cold1(v, junk), NARROW, 2, PAIR, [], [0, 1], [v[0], v[1]]) && Cold1(v, junk).raw == map[]
    ensures !Cold1(v, junk).pinned && !Cold1(v, junk).keep
  {
    hide Replace;
    var p, b := Fresh(1, 2, 2, 1, junk), [At(v, 0), At(v, 1)];
    var a := Append(p, 2);
    assert a.own == [NEW_BLOCK, NEW_BLOCK] && p.free == [1, 0];
    assert ResidentRows(a, 0) == 0;
    assert ResidentRows(a, 1) == 0;
    assert Outgoing(a, {0, 1}) == {};
    assert Incoming(a, {0, 1}) == {0, 1};
    PairPlaced();
    var q := ApplyPlan(a, {0, 1});
    var none: set<nat> := {};
    assert HarvestAll(a, none, 0) == a;
    assert HarvestAll(a, none, 1) == a;
    assert HarvestAll(a, none, 2) == a;
    assert Placed(a, 0, 2, Some({0, 1})) == Some(q);
    assert TailPlaced(q, 0);
    assert Prepare(p, 2, Some({0, 1})) == (true, q);
    assert Noted(p, b) == p;
    PairStored(q, v, junk);
  }

  lemma PairStored(q: Pool, v: seq<Bytes>, junk: seq<Bytes>)
    requires |v| == 3 && |junk| == 2 && Shaped(q) && Seen(q, NARROW, 2, PAIR, [], [-1, -1], junk)
    ensures Seen(Store(q, [At(v, 0), At(v, 1)]), NARROW, 2, PAIR, [], [0, 1], [v[0], v[1]])
  {
    hide Store, PutRows, Shaped, FilledRows, FilledKv;
    var b, cs: seq<nat>, rows: seq<int> := [At(v, 0), At(v, 1)], [0, 1], [-1, -1];
    BatchSeen(q, NARROW, b, cs, 2, PAIR, [], rows, junk);
    FilledHit(rows, junk, b, cs, 0);
    FilledHit(rows, junk, b, cs, 1);
    StoreIsPut(q, b);
  }

  lemma Cold2Seen(v: seq<Bytes>, junk: seq<Bytes>)
    requires |v| == 3 && |junk| == 2
    ensures Seen(Cold2(v, junk), NARROW, 2, [Info(0, true, true), GONE], [1], [0, -1], [v[0], v[1]])
    ensures !Cold2(v, junk).pinned && !Cold2(v, junk).keep
  {
    hide Cold1, Replace, HarvestAll;
    Cold1Seen(v, junk);
    var p := Cold1(v, junk);
    assert Ids([0]) == {0};
    assert Outgoing(p, {0}) == {1};
    assert Incoming(p, {0}) == {};
    AloneOwn();
    assert RowOf(p.cells[0]) == 0 && RowOf(p.cells[1]) == 1;
    var planned := ApplyPlan(p, {0}).(pinned := true);
    var none: set<nat> := {};
    assert WriteCold(planned, none, 0) == planned;
    assert WriteCold(planned, none, 1) == planned;
    assert WriteCold(planned, none, 2) == planned;
  }

  lemma AloneOwn()
    ensures Replace(PAIR, [], {0}, {}) == ([Info(0, true, true), GONE], [1])
    ensures SlotsInOrder([Info(0, true, true), GONE])
  {
    var w: set<nat> := {0};
    var a := [Info(0, true, true), GONE];
    assert Marked(PAIR, w) == a;
    assert PAIR[..1] == [Info(0, true, true)] && PAIR[..1][..0] == [];
    assert Freed(PAIR[..1][..0], w) == [];
    assert Freed(PAIR[..1], w) == [];
    assert Freed(PAIR, w) == [1] && [] + [1] == [1];
    assert Assign(a, [1], {}, 2) == (a, [1]);
    assert Assign(a, [1], {}, 1) == (a, [1]);
    assert OnGpu(a, {}) == a;
    assert a[..0] == [];
  }

  const LATE := [GONE, Info(0, true, true), Info(1, true, true)]

  lemma LateOwn()
    ensures Replace([Info(0, true, true), GONE, NEW_BLOCK], [1], {1, 2}, {1, 2}) == (LATE, [])
  {
    var w: set<nat> := {1, 2};
    var own := [Info(0, true, true), GONE, NEW_BLOCK];
    var a, b := [GONE, Info(-1, false, true), Info(-1, true, true)], [GONE, Info(0, true, true), Info(-1, true, true)];
    assert Marked(own, w) == a;
    assert own[..2] == [Info(0, true, true), GONE] && own[..2][..1] == [Info(0, true, true)] &&
        own[..2][..1][..0] == [];
    assert Freed(own[..2][..1][..0], w) == [];
    assert Freed(own[..2][..1], w) == [0];
    assert Freed(own[..2], w) == [0];
    assert Freed(own, w) == [0] && [1] + [0] == [1, 0];
    assert Assign(LATE, [], w, 3) == (LATE, []);
    assert b[2 := Info(1, true, true)] == LATE && [1][..0] == [];
    assert Assign(b, [1], w, 2) == (LATE, []);
    assert a[1 := Info(0, true, true)] == b && [1, 0][..1] == [1];
    assert Assign(a, [1, 0], w, 1) == (LATE, []);
    assert OnGpu(LATE, w) == LATE;
  }

  lemma Cold3Seen(v: seq<Bytes>, junk: seq<Bytes>)
    requires |v| == 3 && |junk| == 2
    ensures Seen(Cold3(v, junk), NARROW, 3, LATE, [], [-1, 2], [v[0], v[2]])
  {
    hide Cold2, Replace, HarvestAll;
    Cold2Seen(v, junk);
    var p, b := Cold2(v, junk), [At(v, 2)];
    var a := Append(p, 1);
    assert a.own == [Info(0, true, true), GONE, NEW_BLOCK];
    assert ResidentRows(a, 0) == 0;
    assert ResidentRows(a, 1) == 1;
    assert ResidentRows(a, 2) == 1;
    assert ResidentRows(a, 3) == 1;
    assert Outgoing(a, {1, 2}) == {0};
    assert Incoming(a, {1, 2}) == {1, 2};
    LateOwn();
    assert RowOf(p.cells[0]) == 0 && RowOf(p.cells[1]) == -1;
    var q := ApplyPlan(a, {1, 2});
    assert Placed(a, 2, 1, Some({1, 2})) == Some(q);
    assert BlockOf(2, 1) == 2 && TailPlaced(q, 2);
    assert Prepare(p, 1, Some({1, 2})) == (true, q);
    assert Noted(p, b) == p;
    LateStored(q, v, [v[0], v[1]]);
  }

  lemma LateStored(q: Pool, v: seq<Bytes>, kv: seq<Bytes>)
    requires |v| == 3 && |kv| == 2 && Shaped(q) && Seen(q, NARROW, 3, LATE, [], [-1, -1], kv)
    ensures Seen(Store(q, [At(v, 2)]), NARROW, 3, LATE, [], [-1, 2], [kv[0], v[2]])
  {
    hide Store, PutRows, Shaped, FilledRows, FilledKv;
    var b, cs: seq<nat>, rows: seq<int> := [At(v, 2)], [1], [-1, -1];
    assert InCell(NARROW, LATE, 3, 2, 1);
    BatchSeen(q, NARROW, b, cs, 3, LATE, [], rows, kv);
    FilledHit(rows, kv, b, cs, 0);
    FilledMiss(rows, kv, b, cs, 0);
    StoreIsPut(q, b);
  }

  /** The picks of the run are the selector's, for a budget of two blocks. */
  lemma NewestPicked()
    ensures Picks(2, 2, 0, TailIds(0, 2), [0, 1]) && Ids([0, 1]) == {0, 1}
    ensures Picks(3, 2, 0, TailIds(2, 3), [1, 2]) && Ids([1, 2]) == {1, 2}
  {
    hide TailIds, Below, Valids, Newest;
    TailIs();
    Small();
    assert [2][0..] == [2];
    assert Ids([0, 1]) == {0, 1};
    assert Ids([1, 2]) == {1, 2} && {1, 2} == {} + {2} + {1, 2} && |{1, 2}| == 2;
    assert Parts(3, 2, 0, [2], Ids([1, 2]), 0, 1);
  }

  /** Block 1 is retrieved and has a slot, but its row is not live: nobody filled the slot it was given when
      it was picked for being new. */
  lemma RetrievedCold(v: seq<Bytes>, junk: seq<Bytes>)
    requires |v| == 3 && |junk| == 2
    ensures var p := Cold4(v, junk);
      |p.own| == 3 && Resident(p.own[1]) && p.own[1].inSet && |p.cells| == p.kvSize && !HeadLive(p, 1)
  {
    hide Cold3, Replace, HarvestAll;
    Cold3Seen(v, junk);
    var p := Cold3(v, junk);
    assert Ids([1, 2]) == {1, 2};
    assert Outgoing(p, {1, 2}) == {};
    assert Incoming(p, {1, 2}) == {};
    StaysOwn();
    assert RowOf(p.cells[0]) == -1 && RowOf(p.cells[1]) == 2;
    var planned := ApplyPlan(p, {1, 2}).(pinned := true);
    var none: set<nat> := {};
    assert WriteCold(planned, none, 0) == planned;
    assert WriteCold(planned, none, 1) == planned;
    assert WriteCold(planned, none, 2) == planned;
    assert WriteCold(planned, none, 3) == planned;
  }

  lemma StaysOwn()
    ensures Replace(LATE, [], {1, 2}, {}) == (LATE, []) && SlotsInOrder(LATE)
  {
    var w: set<nat> := {1, 2};
    assert Marked(LATE, w) == LATE;
    assert LATE[..2] == [GONE, Info(0, true, true)] && LATE[..2][..1] == [GONE] && LATE[..2][..1][..0] == [];
    assert Freed(LATE[..2][..1][..0], w) == [];
    assert Freed(LATE[..2][..1], w) == [];
    assert Freed(LATE[..2], w) == [];
    assert Freed(LATE, w) == [];
    assert Assign(LATE, [], {}, 3) == (LATE, []);
    assert Assign(LATE, [], {}, 2) == (LATE, []);
    assert Assign(LATE, [], {}, 1) == (LATE, []);
    assert OnGpu(LATE, {}) == LATE;
    BothItems();
  }
}
