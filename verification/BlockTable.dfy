/** The block table as it is stored: dense blocks with their first row and row count, grown at the tail
    and popped from the back, and how each change keeps it a cut of the rows into blocks. */
module BlockTable {
  import opened Arith
  import opened SlotTable
  import opened SlotPool

  /** A block as the table stores it: first row, number of rows, placement. */
  datatype Block = Block(start: nat, n: nat, at: Info)

  function Infos(blocks: seq<Block>): (own: seq<Info>)
    ensures |own| == |blocks| && forall i :: 0 <= i < |own| ==> own[i] == blocks[i].at
  {
    seq(|blocks|, i requires 0 <= i < |blocks| => blocks[i].at)
  }

  /** Block i as the table must hold it. */
  ghost predicate Right(b: Block, i: nat, t: nat, bt: nat) {
    b.start == Before(i, bt) && b.n == RowsOf(t, i, bt)
  }

  /** The table cuts t rows into dense blocks. */
  ghost predicate Table(blocks: seq<Block>, t: nat, bt: nat) {
    bt > 0 && |blocks| == BlocksFor(t, bt) && forall i :: 0 <= i < |blocks| ==> Right(blocks[i], i, t, bt)
  }

  // ----- How the table changes -----

  /** Rows of the tail block: it ends at t. */
  lemma TailOf(blocks: seq<Block>, t: nat, bt: nat)
    requires Table(blocks, t, bt) && blocks != []
    ensures var last := blocks[|blocks| - 1]; 0 < last.n <= bt && last.start + last.n == t
  {
    var i := |blocks| - 1;
    assert Right(blocks[i], i, t, bt);
    BlocksForCovers(t, bt, i);
    BlocksForCovers(t, bt, i + 1);
    BeforeShift(i, bt);
  }

  /** Rows of earlier blocks do not depend on where the tail ends. */
  lemma FullBefore(t: nat, u: nat, i: nat, bt: nat)
    requires bt > 0 && i + 1 < BlocksFor(t, bt) && i + 1 < BlocksFor(u, bt)
    ensures RowsOf(t, i, bt) == bt == RowsOf(u, i, bt)
  {
    BlocksForCovers(t, bt, i + 1);
    BlocksForCovers(u, bt, i + 1);
    BeforeShift(i, bt);
  }

  lemma BlocksAt(t: nat, k: nat, bt: nat)
    requires bt > 0 && k > 0 && Before(k - 1, bt) < t <= Before(k, bt)
    ensures BlocksFor(t, bt) == k
  {
    BlocksForCovers(t, bt, k);
    BlocksForCovers(t, bt, k - 1);
  }

  /** The tail takes more rows, up to its end. */
  lemma TailGrows(blocks: seq<Block>, t: nat, bt: nat, take: nat)
    requires Table(blocks, t, bt) && blocks != [] && take <= bt - blocks[|blocks| - 1].n
    ensures var i := |blocks| - 1; Table(blocks[i := blocks[i].(n := blocks[i].n + take)], t + take, bt)
  {
    var i := |blocks| - 1;
    TailOf(blocks, t, bt);
    assert Right(blocks[i], i, t, bt);
    BeforeShift(i, bt);
    BlocksAt(t + take, i + 1, bt);
    var more := blocks[i := blocks[i].(n := blocks[i].n + take)];
    forall j | 0 <= j < |more| ensures Right(more[j], j, t + take, bt) {
      assert Right(blocks[j], j, t, bt);
      if j < i {
        FullBefore(t, t + take, j, bt);
      }
    }
  }

  /** A new block starts where full blocks end. */
  lemma BlockAdded(blocks: seq<Block>, t: nat, bt: nat, n: nat)
    requires Table(blocks, t, bt) && (blocks != [] ==> blocks[|blocks| - 1].n == bt) && 0 < n <= bt
    ensures Table(blocks + [Block(t, n, NEW_BLOCK)], t + n, bt) && t == Before(|blocks|, bt)
  {
    var k := |blocks|;
    if k > 0 {
      TailOf(blocks, t, bt);
      assert Right(blocks[k - 1], k - 1, t, bt);
      BeforeShift(k - 1, bt);
    }
    assert t == Before(k, bt);
    BeforeShift(k, bt);
    BlocksAt(t + n, k + 1, bt);
    var more := blocks + [Block(t, n, NEW_BLOCK)];
    forall j | 0 <= j < |more| ensures Right(more[j], j, t + n, bt) {
      if j < k {
        assert Right(blocks[j], j, t, bt);
        BlocksForCovers(t, bt, j);
        BeforeMono(j + 1, k, bt);
        BeforeShift(j, bt);
      }
    }
  }

  /** Without its last block the table ends where that block began. */
  lemma BlockPopped(blocks: seq<Block>, t: nat, bt: nat)
    requires Table(blocks, t, bt) && blocks != []
    ensures var i := |blocks| - 1; Table(blocks[..i], blocks[i].start, bt) && blocks[i].start == t - blocks[i].n
  {
    var i := |blocks| - 1;
    TailOf(blocks, t, bt);
    assert Right(blocks[i], i, t, bt);
    var u := blocks[i].start;
    BlocksForExact(i, bt);
    forall j | 0 <= j < i ensures Right(blocks[..i][j], j, u, bt) {
      assert Right(blocks[j], j, t, bt);
      BlocksForCovers(t, bt, i);
      BeforeMono(j + 1, i, bt);
      BeforeShift(j, bt);
    }
  }

  /** The tail gives up rows, but keeps one. */
  lemma TailShrinks(blocks: seq<Block>, t: nat, bt: nat, keep: nat)
    requires Table(blocks, t, bt) && blocks != [] && 0 < keep <= blocks[|blocks| - 1].n
    ensures var i := |blocks| - 1; Table(blocks[i := blocks[i].(n := keep)], blocks[i].start + keep, bt)
  {
    var i := |blocks| - 1;
    TailOf(blocks, t, bt);
    assert Right(blocks[i], i, t, bt);
    var u := blocks[i].start + keep;
    BeforeShift(i, bt);
    BlocksAt(u, i + 1, bt);
    var less := blocks[i := blocks[i].(n := keep)];
    forall j | 0 <= j < |less| ensures Right(less[j], j, u, bt) {
      assert Right(blocks[j], j, t, bt);
      if j < i {
        FullBefore(t, u, j, bt);
      }
    }
  }

  // ----- Values that the methods change step by step -----

  lemma InfosGrow(blocks: seq<Block>, b: Block)
    ensures Infos(blocks + [b]) == Infos(blocks) + [b.at]
  {
  }

  lemma InfosSlice(blocks: seq<Block>, k: nat)
    requires k <= |blocks|
    ensures Infos(blocks[..k]) == Infos(blocks)[..k]
  {
  }

  lemma InfosUpdate(blocks: seq<Block>, i: nat, b: Block)
    requires i < |blocks|
    ensures Infos(blocks[i := b]) == Infos(blocks)[i := b.at]
  {
  }

  lemma TableSize(blocks: seq<Block>, t: nat, bt: nat)
    requires Table(blocks, t, bt)
    ensures bt > 0 && |blocks| == BlocksFor(t, bt)
  {
  }

  lemma StartOf(blocks: seq<Block>, t: nat, bt: nat, k: nat)
    requires Table(blocks, t, bt) && k < |blocks|
    ensures blocks[k].start == Before(k, bt) && blocks[k].n == RowsOf(t, k, bt)
  {
    hide Before, BlocksFor, RowsOf;
    assert Right(blocks[k], k, t, bt);
  }

  lemma EmptyTable(blocks: seq<Block>, t: nat, bt: nat)
    requires Table(blocks, t, bt)
    ensures blocks == [] ==> t == 0
  {
    BlocksForCovers(t, bt, 0);
  }

  ghost predicate HasCell(p: Pool, r: int, cell: int)
    requires p.bt > 0
  {
    Mapped(p, r) && cell == CellOf(p, r)
  }

  /** A block that starts at or past row t is not among the blocks of t rows. */
  lemma PopStays(blocks: seq<Block>, total: nat, bt: nat, t: nat)
    requires Table(blocks, total, bt) && blocks != [] && blocks[|blocks| - 1].start >= t
    ensures BlocksFor(t, bt) <= |blocks| - 1
  {
    var i := |blocks| - 1;
    assert Right(blocks[i], i, total, bt);
    BlocksForCovers(t, bt, i);
  }

  lemma PopDone(blocks: seq<Block>, total: nat, bt: nat, t: nat)
    requires Table(blocks, total, bt) && t <= total && (blocks != [] ==> blocks[|blocks| - 1].start < t)
    requires BlocksFor(t, bt) <= |blocks|
    ensures BlocksFor(t, bt) == |blocks| && (blocks == [] ==> total == t)
  {
    if blocks != [] {
      var i := |blocks| - 1;
      assert Right(blocks[i], i, total, bt);
      BlocksForCovers(t, bt, i);
    }
  }

  lemma AppendIs(p: Pool, n: nat, own: seq<Info>)
    requires p.bt > 0 && |p.own| == BlocksFor(p.total, p.bt) && |own| == BlocksFor(p.total + n, p.bt)
    requires p.own <= own
    requires forall j :: |p.own| <= j < |own| ==> own[j] == NEW_BLOCK
    ensures Append(p, n).own == own
  {
    hide Before, BlocksFor;
    forall j | 0 <= j < |own| ensures Append(p, n).own[j] == own[j] {
    }
  }

  function SlotOf(b: Info): seq<int> {
    if Resident(b) then [b.slot] else []
  }

  lemma PoppedNext(own: seq<Info>, keep: nat, before: seq<int>)
    requires keep < |own|
    ensures before + Popped(own, keep) == (before + SlotOf(own[|own| - 1])) + Popped(own[..|own| - 1], keep)
  {
  }

  lemma PoppedAll(own: seq<Info>)
    ensures Popped(own, |own|) == []
  {
  }

  /** Popped slots are slots. */
  lemma {:induction false} PoppedSlots(own: seq<Info>, keep: nat, k: nat)
    requires keep <= |own| && k < |Popped(own, keep)|
    ensures Popped(own, keep)[k] >= 0
  {
    var top := if Resident(own[|own| - 1]) then 1 else 0;
    if k >= top {
      PoppedSlots(own[..|own| - 1], keep, k - top);
    }
  }

  lemma FilledAll(p: Pool, batch: seq<Row>, found: seq<nat>)
    requires p.bt > 0 && batch != [] && |found| == |batch|
    requires forall k :: 0 <= k < |batch| ==> HasCell(p, batch[k].row, found[k])
    ensures FillSlots(p, batch) == Some(found)
  {
    hide Mapped, CellOf;
    forall k | 0 <= k < |batch| ensures Mapped(p, batch[k].row) {
      assert HasCell(p, batch[k].row, found[k]);
    }
    var idx := FillSlots(p, batch);
    forall k | 0 <= k < |batch| ensures idx.value[k] == found[k] {
      assert HasCell(p, batch[k].row, found[k]);
    }
    assert idx.value == found;
  }
}
