/** Attention views: what a probe attended, when it is safe to keep using it, and what a valid view
    says about every cell of the cache. */
module Views {
  import opened Arith
  import opened SlotTable
  import opened SlotPool
  import opened Runs
  import opened Epoch
  import opened Relayout

  /** Row o of block i is live in its own cell at its recorded position. */
  predicate RowLive(p: Pool, i: nat, o: nat)
    requires p.bt > 0 && i < |p.own|
  {
    var c, r := Before(p.own[i].slot, p.bt) + o, Before(i, p.bt) + o;
    0 <= c < |p.cells| && r < |p.rowPos| && p.cells[c] == Live(r, p.rowPos[r])
  }

  /** Block i is fully present on the GPU. */
  predicate Complete(p: Pool, i: nat)
    requires p.bt > 0 && i < |p.own|
  {
    && Resident(p.own[i]) && p.own[i].onGpu && Len(p, i) > 0
    && Before(p.own[i].slot, p.bt) + Len(p, i) <= |p.cells| && Before(i, p.bt) + Len(p, i) <= |p.rowPos|
    && (forall o :: 0 <= o < Len(p, i) ==> RowLive(p, i, o))
  }

  /** Number of live cells. */
  function Used(cells: seq<Cell>): nat {
    if cells == [] then 0 else Used(cells[..|cells| - 1]) + if cells[|cells| - 1].Live? then 1 else 0
  }

  datatype View = View(epoch: nat, rows: nat, valid: bool, blocks: seq<nat>)

  predicate Covered(p: Pool, canonical: bool, items: seq<nat>)
    requires p.bt > 0 && forall k :: 0 <= k < |items| ==> items[k] < |p.own|
  {
    forall k :: 0 <= k < |items| ==> Complete(p, items[k]) && (canonical ==> p.own[items[k]].slot == k)
  }

  function AttentionView(p: Pool, canonical: bool): View
    requires p.bt > 0
  {
    var items := Items(p.own);
    View(p.epoch, p.total,
         Covered(p, canonical, items) && Used(p.cells) == ResidentRows(p, |p.own|), items)
  }

  // ----- Live cells are exactly the resident rows -----

  ghost function LiveSet(cells: seq<Cell>): set<nat> {
    set c: nat | c < |cells| && cells[c].Live?
  }

  lemma {:induction false} UsedCounts(cells: seq<Cell>)
    ensures |LiveSet(cells)| == Used(cells)
  {
    if cells == [] {
      assert LiveSet(cells) == {};
    } else {
      var n := |cells| - 1;
      UsedCounts(cells[..n]);
      assert LiveSet(cells) == LiveSet(cells[..n]) + if cells[n].Live? then {n} else {};
    }
  }

  ghost function Span(b: nat, n: nat): (s: set<nat>)
    ensures forall c :: c in s <==> b <= c < b + n
    ensures |s| == n
  {
    if n == 0 then {} else Span(b, n - 1) + {b + n - 1}
  }

  /** Cells of the rows of the first k blocks. */
  ghost function RowCells(p: Pool, k: nat): set<nat>
    requires Valid(p) && k <= |p.own|
  {
    if k == 0 then {} else
      RowCells(p, k - 1) + if Resident(p.own[k - 1]) then SpanOf(p, k - 1) else {}
  }

  ghost function SpanOf(p: Pool, i: nat): set<nat>
    requires p.bt > 0 && i < |p.own| && Resident(p.own[i])
  {
    BeforeMono(0, p.own[i].slot, p.bt);
    Span(Before(p.own[i].slot, p.bt), Len(p, i))
  }

  /** A cell of block i is the cell of a stored row of block i. */
  lemma SpanRow(p: Pool, i: nat, c: nat) returns (r: nat)
    requires Valid(p) && i < |p.own| && Resident(p.own[i]) && c in SpanOf(p, i)
    ensures r < p.total && BlockOf(r, p.bt) == i && CellOf(p, r) == c
    ensures r == Before(i, p.bt) + (c - Before(p.own[i].slot, p.bt))
  {
    LenPositive(p, i);
    var o := c - Before(p.own[i].slot, p.bt);
    RowUnique(i, o, p.bt);
    BeforeMono(0, i, p.bt);
    r := Before(i, p.bt) + o;
  }

  lemma {:induction false} RowCellsRow(p: Pool, k: nat, c: nat) returns (r: nat)
    requires Valid(p) && k <= |p.own| && c in RowCells(p, k)
    ensures r < p.total && BlockOf(r, p.bt) < k && Resident(p.own[BlockOf(r, p.bt)]) && CellOf(p, r) == c
  {
    hide Before, BlockOf, OffsetOf, BlocksFor, Span;
    if Resident(p.own[k - 1]) && c in SpanOf(p, k - 1) {
      r := SpanRow(p, k - 1, c);
    } else {
      r := RowCellsRow(p, k - 1, c);
    }
  }

  lemma SpansDisjoint(p: Pool, k: nat, c: nat)
    requires Valid(p) && k < |p.own| && Resident(p.own[k]) && c in RowCells(p, k)
    ensures c !in SpanOf(p, k)
  {
    var r := RowCellsRow(p, k, c);
    if c in SpanOf(p, k) {
      var x := SpanRow(p, k, c);
      CellsDistinct(p, r, x);
    }
  }

  lemma SpanApart(p: Pool, k: nat)
    requires Valid(p) && k < |p.own| && Resident(p.own[k])
    ensures RowCells(p, k) !! SpanOf(p, k) && |SpanOf(p, k)| == Len(p, k)
  {
    hide Before, BlockOf, OffsetOf, BlocksFor, RowCells, Partition;
    forall c | c in RowCells(p, k) ensures c !in SpanOf(p, k) {
      SpansDisjoint(p, k, c);
    }
  }

  lemma {:induction false} RowCellsCount(p: Pool, k: nat)
    requires Valid(p) && k <= |p.own|
    ensures |RowCells(p, k)| == ResidentRows(p, k)
  {
    hide Before, BlockOf, OffsetOf, BlocksFor, SpanOf, Len, Partition;
    if k > 0 {
      RowCellsCount(p, k - 1);
      if Resident(p.own[k - 1]) {
        SpanApart(p, k - 1);
      }
    }
  }

  lemma {:induction false} RowCellsLive(p: Pool, k: nat)
    requires Valid(p) && k <= |p.own|
    requires forall i :: 0 <= i < k && Resident(p.own[i]) ==> Complete(p, i)
    ensures RowCells(p, k) <= LiveSet(p.cells)
  {
    if k > 0 {
      RowCellsLive(p, k - 1);
      if Resident(p.own[k - 1]) {
        forall c | c in SpanOf(p, k - 1) ensures c in LiveSet(p.cells) {
          assert RowLive(p, k - 1, c - Before(p.own[k - 1].slot, p.bt));
        }
      }
    }
  }

  lemma SubsetEqual<T>(a: set<T>, b: set<T>)
    requires a <= b && |a| == |b|
    ensures a == b
  {
    assert b == a + (b - a);
    assert |b| == |a| + |b - a|;
  }

  lemma CoveredComplete(p: Pool, canonical: bool)
    requires p.bt > 0 && AttentionView(p, canonical).valid
    ensures forall i :: 0 <= i < |p.own| && Resident(p.own[i]) ==> Complete(p, i)
  {
    ResidentsAre(p.own);
    forall i | 0 <= i < |p.own| && Resident(p.own[i]) ensures Complete(p, i) {
      assert i in Items(p.own);
      var k :| 0 <= k < |Items(p.own)| && Items(p.own)[k] == i;
    }
  }

  /** A held row of a complete block is live in its own cell. */
  lemma CompleteRow(p: Pool, r: nat)
    requires Shaped(p) && Held(p, r) && Complete(p, BlockOf(r, p.bt))
    ensures r < |p.rowPos| && p.cells[CellOf(p, r)] == Live(r, p.rowPos[r])
  {
    var i, o := BlockOf(r, p.bt), OffsetOf(r, p.bt);
    RowInBlock(r, p.bt, p.total);
    assert RowLive(p, i, o);
  }

  /** Under a valid view every held row is live in its own cell. */
  lemma HeldIsLive(p: Pool, canonical: bool, r: nat)
    requires Valid(p) && AttentionView(p, canonical).valid && Held(p, r)
    ensures r < |p.rowPos| && p.cells[CellOf(p, r)] == Live(r, p.rowPos[r])
  {
    CoveredComplete(p, canonical);
    CompleteRow(p, r);
  }

  /** Under a valid view every live cell is the cell of a held row. */
  lemma LiveIsHeld(p: Pool, canonical: bool, c: nat) returns (r: nat)
    requires Valid(p) && AttentionView(p, canonical).valid && c < |p.cells| && p.cells[c].Live?
    ensures Held(p, r) && CellOf(p, r) == c
  {
    CoveredComplete(p, canonical);
    RowCellsLive(p, |p.own|);
    RowCellsCount(p, |p.own|);
    UsedCounts(p.cells);
    SubsetEqual(RowCells(p, |p.own|), LiveSet(p.cells));
    assert c in LiveSet(p.cells);
    r := RowCellsRow(p, |p.own|, c);
  }

  /** Under a valid view the rows of resident blocks are live in their own cells at their recorded
      positions, and no other cell is live. */
  lemma ValidViewIsExact(p: Pool, canonical: bool)
    requires Valid(p) && AttentionView(p, canonical).valid
    ensures forall r: nat :: Held(p, r) ==> r < |p.rowPos| && p.cells[CellOf(p, r)] == Live(r, p.rowPos[r])
    ensures forall c :: 0 <= c < |p.cells| && p.cells[c].Live? ==>
              Held(p, p.cells[c].row) && CellOf(p, p.cells[c].row) == c
  {
    forall r: nat | Held(p, r)
      ensures r < |p.rowPos| && p.cells[CellOf(p, r)] == Live(r, p.rowPos[r])
    {
      HeldIsLive(p, canonical, r);
    }
    forall c | 0 <= c < |p.cells| && p.cells[c].Live?
      ensures Held(p, p.cells[c].row) && CellOf(p, p.cells[c].row) == c
    {
      var r := LiveIsHeld(p, canonical, c);
      HeldIsLive(p, canonical, r);
    }
  }

  /** Row r is stored in a resident block. */
  ghost predicate Stored(p: Pool, r: nat) {
    p.bt > 0 && r < p.total && BlockOf(r, p.bt) < |p.own| && Resident(p.own[BlockOf(r, p.bt)])
  }

  /** It is live in its own cell at its recorded position. */
  ghost predicate InPlace(p: Pool, r: nat)
    requires p.bt > 0 && BlockOf(r, p.bt) < |p.own|
  {
    0 <= CellOf(p, r) < |p.cells| && r < |p.rowPos| && p.cells[CellOf(p, r)] == Live(r, p.rowPos[r])
  }

  /** The rows of resident blocks are in place, and no other cell is live. */
  ghost predicate Exact(p: Pool) {
    && (forall r: nat :: Stored(p, r) ==> InPlace(p, r))
    && (forall c :: 0 <= c < |p.cells| && p.cells[c].Live? ==>
          Stored(p, p.cells[c].row) && CellOf(p, p.cells[c].row) == c)
  }

  lemma InSpan(p: Pool, i: nat, o: nat)
    requires Valid(p) && i < |p.own| && Resident(p.own[i]) && o < Len(p, i)
    ensures Stored(p, Before(i, p.bt) + o) && BlockOf(Before(i, p.bt) + o, p.bt) == i
    ensures CellOf(p, Before(i, p.bt) + o) == Before(p.own[i].slot, p.bt) + o
  {
    BeforeMono(0, i, p.bt);
    RowUnique(i, o, p.bt);
  }

  lemma ExactComplete(p: Pool, i: nat)
    requires Valid(p) && Exact(p) && i < |p.own| && Resident(p.own[i])
    ensures Complete(p, i)
  {
    hide BlockOf, OffsetOf, BlocksFor, Before, Partition;
    LenPositive(p, i);
    forall o | 0 <= o < Len(p, i) ensures RowLive(p, i, o) {
      InSpan(p, i, o);
      BeforeMono(0, i, p.bt);
    }
    InSpan(p, i, Len(p, i) - 1);
  }

  lemma {:induction false} SpanInCells(p: Pool, k: nat, i: nat, c: nat)
    requires Valid(p) && i < k <= |p.own| && Resident(p.own[i]) && c in SpanOf(p, i)
    ensures c in RowCells(p, k)
  {
    if i < k - 1 {
      SpanInCells(p, k - 1, i, c);
    }
  }

  lemma LiveInCells(p: Pool, c: nat)
    requires Valid(p) && Exact(p) && c in LiveSet(p.cells)
    ensures c in RowCells(p, |p.own|)
  {
    hide BlockOf, OffsetOf, BlocksFor, Before, Partition;
    var r := p.cells[c].row;
    RowInBlock(r, p.bt, p.total);
    SpanInCells(p, |p.own|, BlockOf(r, p.bt), c);
  }

  /** A view is valid if and only if the rows of resident blocks are in place, no other cell is live, and,
      for a canonical view, the k-th resident has slot k. */
  lemma ViewValidIff(p: Pool, canonical: bool)
    requires Valid(p)
    ensures AttentionView(p, canonical).valid <==> Exact(p) && (canonical ==> SlotsInOrder(p.own))
    ensures AttentionView(p, canonical).epoch == p.epoch && AttentionView(p, canonical).rows == p.total
    ensures forall i: nat :: i in AttentionView(p, canonical).blocks <==> i < |p.own| && Resident(p.own[i])
  {
    hide BlockOf, OffsetOf, BlocksFor, Before, Partition, Complete, Used, ResidentRows, RowCells;
    ResidentsAre(p.own);
    if Exact(p) {
      ExactView(p, canonical);
    }
    if AttentionView(p, canonical).valid {
      ValidIsExact(p, canonical);
    }
    ResidentsInOrder(p.own);
  }

  lemma ExactView(p: Pool, canonical: bool)
    requires Valid(p) && Exact(p)
    ensures AttentionView(p, canonical).valid <==>
              (canonical ==> forall k :: 0 <= k < |Items(p.own)| ==> p.own[Items(p.own)[k]].slot == k)
  {
    hide BlockOf, OffsetOf, BlocksFor, Before, Partition, Complete, Used, ResidentRows, RowCells, Exact;
    forall i | 0 <= i < |p.own| && Resident(p.own[i]) ensures Complete(p, i) {
      ExactComplete(p, i);
    }
    ResidentsAre(p.own);
    forall k | 0 <= k < |Items(p.own)| ensures Complete(p, Items(p.own)[k]) {
      assert Items(p.own)[k] in Residents(p.own);
    }
    RowCellsLive(p, |p.own|);
    RowCellsCount(p, |p.own|);
    UsedCounts(p.cells);
    forall c | c in LiveSet(p.cells) ensures c in RowCells(p, |p.own|) {
      LiveInCells(p, c);
    }
    assert RowCells(p, |p.own|) == LiveSet(p.cells);
  }

  lemma ValidIsExact(p: Pool, canonical: bool)
    requires Valid(p) && AttentionView(p, canonical).valid
    ensures Exact(p)
    ensures canonical ==> forall k :: 0 <= k < |Items(p.own)| ==> p.own[Items(p.own)[k]].slot == k
  {
    hide BlockOf, OffsetOf, BlocksFor, Before, Partition, Complete, Used, ResidentRows;
    CoveredComplete(p, canonical);
    ValidViewIsExact(p, canonical);
    forall r: nat | Stored(p, r) ensures InPlace(p, r) {
      StoredIsHeld(p, r);
    }
  }

  /** Slots in order, resident by resident and rank by rank. */
  lemma ResidentsInOrder(own: seq<Info>)
    ensures SlotsInOrder(own) <==> forall k :: 0 <= k < |Items(own)| ==> own[Items(own)[k]].slot == k
  {
    hide RankOf;
    forall k | 0 <= k < |Items(own)|
      ensures Resident(own[Items(own)[k]]) && RankOf(own, Items(own)[k]) == k
    {
      RankIndex(own, k);
    }
    forall i | 0 <= i < |own| && Resident(own[i])
      ensures RankOf(own, i) < |Items(own)| && Items(own)[RankOf(own, i)] == i
    {
      IndexRank(own, i);
    }
  }

  /** With every block in its canonical slot, row r belongs in cell r. */
  lemma CanonicalCell(p: Pool, r: nat)
    requires Shaped(p) && r < p.total
    requires forall i :: 0 <= i < |p.own| ==> Complete(p, i) && p.own[i].slot == i
    ensures Held(p, r) && CellOf(p, r) == r
  {
    RowInBlock(r, p.bt, p.total);
    var i := BlockOf(r, p.bt);
    assert OffsetOf(r, p.bt) < Len(p, i);
  }

  /** A valid canonical view with every block resident means the cache is the plain history:
      cell r holds row r for every stored row, and no other cell is live. */
  lemma PlainHistory(p: Pool)
    requires Valid(p)
    requires var v := AttentionView(p, true); v.valid && |v.blocks| == |p.own|
    ensures p.total <= |p.cells| && p.total <= |p.rowPos|
    ensures forall c :: 0 <= c < |p.cells| ==>
              p.cells[c] == if c < p.total then Live(c, p.rowPos[c]) else Empty
  {
    AllItems(p.own);
    forall i | 0 <= i < |p.own| ensures Complete(p, i) && p.own[i].slot == i {
      assert Items(p.own)[i] == i;
    }
    ValidViewIsExact(p, true);
    forall r: nat | r < p.total
      ensures r < |p.cells| && r < |p.rowPos| && p.cells[r] == Live(r, p.rowPos[r])
    {
      CanonicalCell(p, r);
    }
    if p.total > 0 {
      CanonicalCell(p, p.total - 1);
    }
    forall c | 0 <= c < |p.cells|
      ensures p.cells[c] == if c < p.total then Live(c, p.rowPos[c]) else Empty
    {
      if p.cells[c].Live? {
        CanonicalCell(p, p.cells[c].row);
      }
    }
  }

  lemma {:induction false} AllItems(own: seq<Info>)
    requires |Residents(own)| == |own|
    ensures Residents(own) == seq(|own|, i => i)
    ensures forall i :: 0 <= i < |own| ==> Resident(own[i])
  {
    if own != [] {
      var n := |own| - 1;
      assert |Residents(own[..n])| <= n;
      AllItems(own[..n]);
      forall i | 0 <= i < |own| ensures Resident(own[i]) {
        assert i < n ==> own[..n][i] == own[i];
      }
    }
  }

  lemma StoredIsHeld(p: Pool, r: nat)
    requires Shaped(p) && r < p.total && BlockOf(r, p.bt) < |p.own| && Complete(p, BlockOf(r, p.bt))
    ensures Held(p, r)
  {
    RowInBlock(r, p.bt, p.total);
    CellIsNat(p, r);
  }

  // ----- Skipping the replay -----

  /** Whether the probe's view still describes the cache and equals the selection. */
  predicate CommitUnchanged(q: Pool, before: View, sel: Selection)
    requires q.bt > 0
  {
    var after := AttentionView(q, true);
    && before.valid && before.epoch == q.epoch && before.rows <= q.total
    && sel.epoch == q.epoch && sel.rows == q.total
    && after.valid && after.blocks == sel.blocks
    && (forall i :: i in before.blocks ==> i in after.blocks)
  }

  /** Over any run, commit_unchanged succeeds if and only if the probe's view was valid, nothing has moved
      the epoch, the selection is current and names exactly the residents, and the view is valid now. */
  lemma CommitUnchangedIff(p: Pool, es: seq<Event>, sel: Selection)
    requires Valid(p)
    ensures var q := Run(p, es);
      CommitUnchanged(q, AttentionView(p, true), sel) <==>
        && Exact(p) && SlotsInOrder(p.own) && Exact(q) && SlotsInOrder(q.own)
        && q.epoch == p.epoch == sel.epoch && sel.rows == q.total && sel.blocks == Items(q.own)
  {
    hide Exact, SlotsInOrder, Run;
    var q := Run(p, es);
    EpochProves(p, es);
    ViewValidIff(p, true);
    ViewValidIff(q, true);
    if q.epoch == p.epoch {
      ResidentsAre(p.own);
      ResidentsAre(q.own);
    }
  }

  /** Row r is live somewhere. */
  ghost predicate Attended(p: Pool, r: nat, c: nat) {
    c < |p.cells| && p.cells[c].Live? && p.cells[c].row == r
  }

  /** When commit_unchanged succeeds after any run, the probe attended exactly the selection: the
      selected blocks are the residents; a row stored when the probe began is attended now exactly
      if it was attended then, in the same cell with the same bytes; and every stored row of a
      selected block is attended. */
  lemma ReplayCanBeSkipped(p: Pool, es: seq<Event>, sel: Selection)
    requires Valid(p) && CommitUnchanged(Run(p, es), AttentionView(p, true), sel)
    ensures var q := Run(p, es);
      && (forall i: nat :: i in sel.blocks <==> i < |q.own| && Resident(q.own[i]))
      && (forall r: nat, c: nat :: r < p.total ==> (Attended(q, r, c) <==> Attended(p, r, c)))
      && (forall r: nat, c: nat :: r < p.total && Attended(q, r, c) ==> SameCell(p, q, c))
      && (forall r: nat :: r < q.total && BlockOf(r, q.bt) in sel.blocks ==>
            Held(q, r) && Attended(q, r, CellOf(q, r)))
  {
    var q := Run(p, es);
    EpochProves(p, es);
    ValidViewIsExact(p, true);
    ValidViewIsExact(q, true);
    CoveredComplete(q, true);
    ResidentsAre(q.own);
    forall r: nat, c: nat | r < p.total && Attended(p, r, c) ensures Attended(q, r, c) {
      assert SameCell(p, q, CellOf(p, r));
    }
    forall r: nat, c: nat | r < p.total && Attended(q, r, c) ensures Attended(p, r, c) && SameCell(p, q, c) {
    }
    forall r: nat | r < q.total && BlockOf(r, q.bt) in sel.blocks ensures Held(q, r) && Attended(q, r, CellOf(q, r)) {
      RowInBlock(r, q.bt, q.total);
      StoredIsHeld(q, r);
    }
  }
}
