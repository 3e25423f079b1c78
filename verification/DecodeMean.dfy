/** Mean-K accumulation during decoding: sums over accepted rows, kept per layer for one block at a
    time and written out when the block is full or another block begins. */
module DecodeMean {
  import opened Arith

  /** The K vectors of one row; nothing is known about them. */
  type Keys(==, 0, !new)

  datatype Row = Row(pos: nat, k: Keys)

  /** Where a layer's running sum lives. */
  datatype Src = Nowhere | OnGpu | OnHost

  /** The two running sums of a layer. A sum is kept as the list of the rows added to it, in order, so
      equal lists mean equal sums under any rounding. */
  datatype Acc = Acc(src: Src, gpu: seq<Row>, host: seq<Row>)

  const EMPTY := Acc(Nowhere, [], [])

  /** How adding rows to one layer went: on the GPU, on the host, on the host but with too little
      data to add, or not at all. */
  datatype How = Gpu | Host | Short | Skip

  /** One layer's sum as written to the store: the rows [pos0, pos0 + n). */
  datatype Write = Write(pos0: nat, n: nat, layer: nat, rows: seq<Row>)

  /** `block` is -1 when no block is open. */
  datatype Mean = Mean(bt: nat, pending: seq<Row>, block: int, pos0: nat, n: nat, acc: seq<Acc>, writes: seq<Write>)

  /** The rows a flush would write for a layer. */
  function Sum(a: Acc): seq<Row> {
    match a.src
    case Nowhere => []
    case OnGpu => a.gpu
    case OnHost => a.host
  }

  function ToHost(a: Acc): Acc {
    if a.src.OnGpu? then Acc(OnHost, [], a.gpu) else a
  }

  function AddLayer(a: Acc, how: How, rows: seq<Row>): Acc {
    match how
    case Gpu => a.(src := OnGpu, gpu := a.gpu + rows)
    case Host => ToHost(a).(src := OnHost, host := ToHost(a).host + rows)
    case Short => ToHost(a)
    case Skip => a
  }

  predicate Adds(how: How) { how.Gpu? || how.Host? }

  /** Sums that nothing points to are empty. */
  predicate Tidy(a: Acc) {
    (!a.src.OnGpu? ==> a.gpu == []) && (a.src.Nowhere? ==> a.host == [])
  }

  /** Adding rows keeps a layer's sum exact unless the rows were not added, or were added on the GPU
      while the host held part of the sum. */
  lemma AddLayerExact(a: Acc, how: How, rows: seq<Row>)
    requires Tidy(a) && rows != []
    ensures Tidy(AddLayer(a, how, rows))
    ensures Sum(AddLayer(a, how, rows)) == Sum(a) + rows <==> Adds(how) && !(how.Gpu? && a.src.OnHost? && a.host != [])
  {
    assert [] + rows == rows;
    assert |Sum(a) + rows| > |Sum(a)|;
    if how.Gpu? && a.src.OnHost? && a.host != [] {
      assert |a.host + rows| > |rows|;
    }
  }

  // ----- The operations -----

  function AddAll(acc: seq<Acc>, hows: nat -> How, rows: seq<Row>): (r: seq<Acc>)
    ensures |r| == |acc| && forall l :: 0 <= l < |acc| ==> r[l] == AddLayer(acc[l], hows(l), rows)
  {
    seq(|acc|, l requires 0 <= l < |acc| => AddLayer(acc[l], hows(l), rows))
  }

  predicate AnyAdds(layers: nat, hows: nat -> How) {
    exists l :: 0 <= l < layers && Adds(hows(l))
  }

  function WriteOf(m: Mean, l: nat): seq<Write>
    requires l < |m.acc|
  {
    if m.acc[l].src.Nowhere? then [] else [Write(m.pos0, m.n, l, Sum(m.acc[l]))]
  }

  function WritesOf(m: Mean, layers: nat): seq<Write>
    requires layers <= |m.acc|
  {
    if layers == 0 then [] else
      WritesOf(m, layers - 1) + WriteOf(m, layers - 1)
  }

  function Flush(m: Mean): Mean {
    if m.n == 0 || m.block < 0 then m else
      m.(writes := m.writes + WritesOf(m, |m.acc|), n := 0, block := -1, acc := seq(|m.acc|, _ => EMPTY))
  }

  /** Make the block of position `pos` the open one. */
  function Opened(m: Mean, pos: nat): Mean
    requires m.bt > 0
  {
    if m.block == BlockOf(pos, m.bt) then m else
      Flush(m).(acc := seq(|m.acc|, _ => EMPTY), block := BlockOf(pos, m.bt), pos0 := pos, n := 0)
  }

  function AddRange(m: Mean, tok0: nat, take: nat, hows: nat -> How): Mean
    requires m.bt > 0 && tok0 + take <= |m.pending|
  {
    if take == 0 then m else
      var o := Opened(m, m.pending[tok0].pos);
      o.(acc := AddAll(o.acc, hows, m.pending[tok0..tok0 + take]),
         n := if AnyAdds(|o.acc|, hows) then o.n + take else o.n)
  }

  /** Length of the run of rows from i on, below k, that lie in the block of row i. */
  function RunLength(m: Mean, i: nat, k: nat, take: nat): (n: nat)
    requires m.bt > 0 && i < i + take <= k <= |m.pending|
    ensures take <= n && i + n <= k
    ensures i + n < k ==> BlockOf(m.pending[i + n].pos, m.bt) != BlockOf(m.pending[i].pos, m.bt)
    decreases k - take
  {
    if i + take < k && BlockOf(m.pending[i + take].pos, m.bt) == BlockOf(m.pending[i].pos, m.bt)
    then RunLength(m, i, k, take + 1) else take
  }

  /** A block that is full, counted from the offset of its first row, is flushed at once. */
  function FlushFull(m: Mean, bid: nat): Mean
    requires m.bt > 0
  {
    if m.block == bid && m.n > 0 && OffsetOf(m.pos0, m.bt) + m.n >= m.bt then Flush(m) else m
  }

  /** The state after one turn of the commit loop at row i. */
  function Turn(m: Mean, i: nat, take: nat, hows: nat -> How): Mean
    requires m.bt > 0 && 0 < take && i + take <= |m.pending|
  {
    FlushFull(AddRange(m, i, take, hows), BlockOf(m.pending[i].pos, m.bt))
  }

  /** Commit rows [i, k) of the pending batch, block by block. `how(i, l)` is the outcome for layer l
      of the range that starts at row i. */
  function CommitFrom(m: Mean, i: nat, k: nat, how: nat -> nat -> How): (r: Mean)
    requires m.bt > 0 && i <= k <= |m.pending|
    ensures r == m.(block := r.block, pos0 := r.pos0, n := r.n, acc := r.acc, writes := r.writes)
    decreases k - i
  {
    if i == k then m else
      var take := RunLength(m, i, k, 1);
      CommitFrom(Turn(m, i, take, how(i)), i + take, k, how)
  }

  function Discard(m: Mean): Mean {
    m.(pending := [])
  }

  function KeepCount(m: Mean, nKeep: nat): (k: nat)
    ensures k <= |m.pending|
  {
    if nKeep < |m.pending| then nKeep else |m.pending|
  }

  function Commit(m: Mean, nKeep: nat, how: nat -> nat -> How): Mean
    requires m.bt > 0
  {
    Discard(CommitFrom(m, 0, KeepCount(m, nKeep), how))
  }

  /** A captured batch becomes the pending one; a batch of one row is accepted at once. */
  function Ingest(m: Mean, rows: seq<Row>, how: nat -> nat -> How): Mean
    requires m.bt > 0
  {
    if rows == [] then m
    else if |rows| == 1 then Commit(m.(pending := rows), 1, how)
    else m.(pending := rows)
  }

  datatype Event =
    | Captured(rows: seq<Row>, how: nat -> nat -> How)
    | Accepted(nKeep: nat, how: nat -> nat -> How)
    | Rejected
    | Flushed

  function Step(m: Mean, e: Event): (r: Mean)
    requires m.bt > 0
    ensures r.bt == m.bt
  {
    match e
    case Captured(rows, how) => Ingest(m, rows, how)
    case Accepted(nKeep, how) => Commit(m, nKeep, how)
    case Rejected => Discard(m)
    case Flushed => Flush(m)
  }

  /** The rows an event accepts. */
  function AcceptedBy(m: Mean, e: Event): seq<Row> {
    match e
    case Captured(rows, _) => if |rows| == 1 then rows else []
    case Accepted(nKeep, _) => m.pending[..KeepCount(m, nKeep)]
    case _ => []
  }

  // ----- What a layer has counted -----

  /** The rows in all sums written for a layer, in order. */
  function Written(writes: seq<Write>, layer: nat): seq<Row> {
    if writes == [] then [] else
      var w := writes[|writes| - 1];
      Written(writes[..|writes| - 1], layer) + if w.layer == layer then w.rows else []
  }

  /** Rows at consecutive positions from pos0 on, all in one block. */
  ghost predicate OneRun(rows: seq<Row>, pos0: nat, bt: nat)
    requires bt > 0
  {
    forall k :: 0 <= k < |rows| ==> rows[k].pos == pos0 + k && BlockOf(rows[k].pos, bt) == BlockOf(pos0, bt)
  }

  ghost predicate GoodWrite(w: Write, bt: nat)
    requires bt > 0
  {
    |w.rows| == w.n > 0 && OneRun(w.rows, w.pos0, bt)
  }

  /** Layer l has counted each row of `rows` once, in order: first those in its written sums, then
      those in its running sum; every sum covers one run of rows inside one block. */
  ghost predicate Counts(m: Mean, l: nat, rows: seq<Row>) {
    && m.bt > 0 && l < |m.acc| && Tidy(m.acc[l])
    && Written(m.writes, l) + Sum(m.acc[l]) == rows
    && (forall w :: w in m.writes && w.layer == l ==> GoodWrite(w, m.bt))
    && m.n == |Sum(m.acc[l])| && (m.block < 0 ==> m.n == 0)
    && (m.block >= 0 ==> OneRun(Sum(m.acc[l]), m.pos0, m.bt) && m.block == BlockOf(m.pos0, m.bt))
  }

  lemma {:induction false} WrittenConcat(a: seq<Write>, b: seq<Write>, l: nat)
    ensures Written(a + b, l) == Written(a, l) + Written(b, l)
  {
    if b == [] {
      assert a + b == a;
    } else {
      var n := |b| - 1;
      WrittenConcat(a, b[..n], l);
      assert (a + b)[..|a + b| - 1] == a + b[..n];
    }
  }

  lemma WriteOfLayer(m: Mean, k: nat, l: nat)
    requires k < |m.acc|
    ensures Written(WriteOf(m, k), l) == if k == l then Sum(m.acc[l]) else []
  {
    if !m.acc[k].src.Nowhere? {
      assert WriteOf(m, k)[..0] == [];
      assert Written([], l) == [];
    }
  }

  /** A flush writes each layer's running sum once. */
  lemma {:induction false} WritesOfLayer(m: Mean, layers: nat, l: nat)
    requires layers <= |m.acc|
    ensures Written(WritesOf(m, layers), l) == if l < layers then Sum(m.acc[l]) else []
    ensures forall w :: w in WritesOf(m, layers) && w.layer == l ==>
              l < layers && w == Write(m.pos0, m.n, l, Sum(m.acc[l]))
  {
    hide Sum, Written;
    if layers == 0 {
      assert Written([], l) == [] by {
        WrittenNone(l);
      }
    } else {
      WritesOfLayer(m, layers - 1, l);
      WrittenConcat(WritesOf(m, layers - 1), WriteOf(m, layers - 1), l);
      WriteOfLayer(m, layers - 1, l);
    }
  }

  lemma WrittenNone(l: nat)
    ensures Written([], l) == []
  {
  }

  lemma FlushCounts(m: Mean, l: nat, rows: seq<Row>)
    requires Counts(m, l, rows)
    ensures Counts(Flush(m), l, rows) && Flush(m).n == 0
    ensures Written(Flush(m).writes, l) == rows
  {
    if m.n > 0 && m.block >= 0 {
      WritesOfLayer(m, |m.acc|, l);
      WrittenConcat(m.writes, WritesOf(m, |m.acc|), l);
    }
  }

  /** The next accepted row continues the open block where it stands. */
  ghost predicate Follows(m: Mean, pos: nat)
    requires m.bt > 0
  {
    m.block == BlockOf(pos, m.bt) ==> pos == m.pos0 + m.n
  }

  /** The layer takes the rows without losing any. */
  ghost predicate Lossless(m: Mean, l: nat, pos: nat, how: How)
    requires m.bt > 0 && l < |m.acc|
  {
    Adds(how) && !(m.block == BlockOf(pos, m.bt) && how.Gpu? && m.acc[l].src.OnHost?)
  }

  lemma OpenedCounts(m: Mean, l: nat, rows: seq<Row>, pos: nat)
    requires Counts(m, l, rows) && Follows(m, pos)
    ensures var o := Opened(m, pos);
      Counts(o, l, rows) && o.block == BlockOf(pos, m.bt) && pos == o.pos0 + o.n && |o.acc| == |m.acc| &&
          o.pending == m.pending && o.bt == m.bt
    ensures Opened(m, pos).acc[l].src.OnHost? ==> m.block == BlockOf(pos, m.bt) && m.acc[l].src.OnHost?
  {
    FlushCounts(m, l, rows);
  }

  ghost predicate InRow(rows: seq<Row>, bt: nat)
    requires bt > 0
  {
    rows != [] ==> OneRun(rows, rows[0].pos, bt)
  }

  lemma RunExtends(a: seq<Row>, b: seq<Row>, pos0: nat, bt: nat)
    requires bt > 0 && b != [] && OneRun(a, pos0, bt) && OneRun(b, b[0].pos, bt)
    requires b[0].pos == pos0 + |a| && BlockOf(b[0].pos, bt) == BlockOf(pos0, bt)
    ensures OneRun(a + b, pos0, bt)
  {
  }

  /** Adding one range of accepted rows. */
  lemma AddRangeCounts(m: Mean, l: nat, rows: seq<Row>, tok0: nat, take: nat, hows: nat -> How)
    requires Counts(m, l, rows) && take > 0 && tok0 + take <= |m.pending|
    requires Follows(m, m.pending[tok0].pos) && Lossless(m, l, m.pending[tok0].pos, hows(l))
    requires InRow(m.pending[tok0..tok0 + take], m.bt)
    ensures var r := AddRange(m, tok0, take, hows);
      && Counts(r, l, rows + m.pending[tok0..tok0 + take])
      && r.block == BlockOf(m.pending[tok0].pos, m.bt) && r.pos0 + r.n == m.pending[tok0].pos + take
      && |r.acc| == |m.acc| && r.pending == m.pending && r.bt == m.bt
  {
    hide BlockOf, Written, Flush, Opened, AddLayer, GoodWrite, Counts, AddAll, OneRun, Sum, Tidy;
    OpenedCounts(m, l, rows, m.pending[tok0].pos);
    AddedCounts(Opened(m, m.pending[tok0].pos), l, rows, m.pending[tok0..tok0 + take], hows);
  }

  /** Adding rows to an accumulator that is open for them. */
  lemma AddedCounts(o: Mean, l: nat, rows: seq<Row>, more: seq<Row>, hows: nat -> How)
    requires Counts(o, l, rows) && more != [] && InRow(more, o.bt)
    requires o.block == BlockOf(more[0].pos, o.bt) && more[0].pos == o.pos0 + o.n
    requires Adds(hows(l)) && !(hows(l).Gpu? && o.acc[l].src.OnHost?)
    ensures AnyAdds(|o.acc|, hows)
    ensures Counts(o.(acc := AddAll(o.acc, hows, more), n := o.n + |more|), l, rows + more)
  {
    hide BlockOf, Written, AddLayer, GoodWrite;
    AddLayerExact(o.acc[l], hows(l), more);
    RunExtends(Sum(o.acc[l]), more, o.pos0, o.bt);
    assert Written(o.writes, l) + (Sum(o.acc[l]) + more) == rows + more;
  }

  /** Consecutive positions. */
  ghost predicate Consecutive(rows: seq<Row>) {
    forall k :: 0 <= k < |rows| ==> rows[k].pos == rows[0].pos + k
  }

  /** The rows in a run of the commit loop lie in one block. */
  lemma {:induction false} RunInRow(m: Mean, i: nat, k: nat, take: nat)
    requires m.bt > 0 && i < i + take <= k <= |m.pending| && Consecutive(m.pending[..k])
    requires InRow(m.pending[i..i + take], m.bt)
    ensures InRow(m.pending[i..i + RunLength(m, i, k, take)], m.bt)
    decreases k - take
  {
    if i + take < k && BlockOf(m.pending[i + take].pos, m.bt) == BlockOf(m.pending[i].pos, m.bt) {
      var longer := m.pending[i..i + take + 1];
      assert m.pending[..k][i + take].pos == m.pending[..k][0].pos + i + take;
      assert m.pending[..k][i].pos == m.pending[..k][0].pos + i;
      assert longer == m.pending[i..i + take] + [m.pending[i + take]];
      RunExtends(m.pending[i..i + take], [m.pending[i + take]], m.pending[i].pos, m.bt);
      RunInRow(m, i, k, take + 1);
    }
  }

  /** Committing rows [i, k): later ranges start in a new block, so only the first meets sums that
      were there before. */
  ghost predicate Steady(m: Mean, l: nat, i: nat, k: nat, how: nat -> nat -> How)
    requires m.bt > 0 && l < |m.acc| && i <= k <= |m.pending|
  {
    && Consecutive(m.pending[..k])
    && (i < k ==> Follows(m, m.pending[i].pos) && Lossless(m, l, m.pending[i].pos, how(i)(l)))
    && (forall j :: i <= j < k ==> Adds(how(j)(l)))
  }

  lemma FlushFullCounts(m: Mean, l: nat, rows: seq<Row>, bid: nat)
    requires Counts(m, l, rows)
    ensures Counts(FlushFull(m, bid), l, rows)
    ensures var f := FlushFull(m, bid);
      |f.acc| == |m.acc| && f.pending == m.pending && f.bt == m.bt && (f.block == m.block || f.block == -1)
  {
    FlushCounts(m, l, rows);
  }

  lemma TurnCounts(m: Mean, l: nat, rows: seq<Row>, i: nat, k: nat, how: nat -> nat -> How)
    requires Counts(m, l, rows) && i < k <= |m.pending| && Steady(m, l, i, k, how)
    ensures var take := RunLength(m, i, k, 1);
      var next := Turn(m, i, take, how(i));
      && Counts(next, l, rows + m.pending[i..i + take]) && next.pending == m.pending && next.bt == m.bt
      && l < |next.acc| && Steady(next, l, i + take, k, how)
  {
    hide BlockOf, OffsetOf, Written, AddRange, FlushFull, GoodWrite, Sum, Tidy;
    var take := RunLength(m, i, k, 1);
    RunInRow(m, i, k, 1);
    AddRangeCounts(m, l, rows, i, take, how(i));
    FlushFullCounts(AddRange(m, i, take, how(i)), l, rows + m.pending[i..i + take], BlockOf(m.pending[i].pos, m.bt));
  }

  lemma {:induction false} CommitFromCounts(m: Mean, l: nat, rows: seq<Row>, i: nat, k: nat, how: nat -> nat -> How)
    requires m.bt > 0 && l < |m.acc| && Counts(m, l, rows) && i <= k <= |m.pending| && Steady(m, l, i, k, how)
    ensures Counts(CommitFrom(m, i, k, how), l, rows + m.pending[i..k])
    decreases k - i
  {
    hide BlockOf, OffsetOf, AddRange, FlushFull, Counts, Steady, RunLength;
    if i == k {
      assert rows + m.pending[i..k] == rows;
    } else {
      TurnCounts(m, l, rows, i, k, how);
      var take := RunLength(m, i, k, 1);
      CommitFromCounts(Turn(m, i, take, how(i)), l, rows + m.pending[i..i + take], i + take, k, how);
      assert rows + m.pending[i..i + take] + m.pending[i + take..k] == rows + m.pending[i..k];
    }
  }

  /** What the exactness of layer l asks of an event: accepted rows have consecutive positions that
      continue the open block, each is added to the layer, and a layer that fell back to the host
      does not return to the GPU inside one block. */
  ghost predicate Regular(m: Mean, l: nat, e: Event)
    requires m.bt > 0 && l < |m.acc|
  {
    match e
    case Captured(rows, how) => |rows| == 1 ==> Steady(m.(pending := rows), l, 0, 1, how)
    case Accepted(nKeep, how) => Steady(m, l, 0, KeepCount(m, nKeep), how)
    case Rejected => true
    case Flushed => true
  }

  lemma PendingCounts(m: Mean, l: nat, rows: seq<Row>, pending: seq<Row>)
    requires Counts(m, l, rows)
    ensures Counts(m.(pending := pending), l, rows)
  {
  }

  lemma CommitCounts(m: Mean, l: nat, rows: seq<Row>, nKeep: nat, how: nat -> nat -> How)
    requires Counts(m, l, rows) && Steady(m, l, 0, KeepCount(m, nKeep), how)
    ensures Counts(Commit(m, nKeep, how), l, rows + m.pending[..KeepCount(m, nKeep)])
  {
    var k := KeepCount(m, nKeep);
    CommitFromCounts(m, l, rows, 0, k, how);
    assert m.pending[0..k] == m.pending[..k];
    PendingCounts(CommitFrom(m, 0, k, how), l, rows + m.pending[..k], []);
  }

  lemma StepCounts(m: Mean, l: nat, rows: seq<Row>, e: Event)
    requires Counts(m, l, rows) && Regular(m, l, e)
    ensures Counts(Step(m, e), l, rows + AcceptedBy(m, e))
  {
    assert rows + [] == rows;
    match e
    case Captured(batch, how) =>
      PendingCounts(m, l, rows, batch);
      if |batch| == 1 {
        CommitCounts(m.(pending := batch), l, rows, 1, how);
        assert batch[..1] == batch;
      }
    case Accepted(nKeep, how) => CommitCounts(m, l, rows, nKeep, how);
    case Rejected => PendingCounts(m, l, rows, []);
    case Flushed => FlushCounts(m, l, rows);
  }

  function Run(m: Mean, es: seq<Event>): (r: Mean)
    requires m.bt > 0
    ensures r.bt == m.bt
  {
    if es == [] then m else Step(Run(m, es[..|es| - 1]), es[|es| - 1])
  }

  /** All rows accepted during a run, in order. */
  function AllAccepted(m: Mean, es: seq<Event>): seq<Row>
    requires m.bt > 0
  {
    if es == [] then [] else
      AllAccepted(m, es[..|es| - 1]) + AcceptedBy(Run(m, es[..|es| - 1]), es[|es| - 1])
  }

  ghost predicate AllRegular(m: Mean, l: nat, es: seq<Event>)
    requires m.bt > 0
  {
    es == [] ||
    (AllRegular(m, l, es[..|es| - 1]) && l < |Run(m, es[..|es| - 1]).acc| &&
     Regular(Run(m, es[..|es| - 1]), l, es[|es| - 1]))
  }

  function Fresh(bt: nat, layers: nat): Mean {
    Mean(bt, [], -1, 0, 0, seq(layers, _ => EMPTY), [])
  }

  lemma {:induction false} RunCounts(m: Mean, l: nat, es: seq<Event>)
    requires Counts(m, l, []) && AllRegular(m, l, es)
    ensures Counts(Run(m, es), l, AllAccepted(m, es))
  {
    if es != [] {
      RunCounts(m, l, es[..|es| - 1]);
      StepCounts(Run(m, es[..|es| - 1]), l, AllAccepted(m, es[..|es| - 1]), es[|es| - 1]);
    }
  }

  /** Mean-K counts each accepted row exactly once and no rejected row ever: over any regular run that
      ends with a flush, the sums written for a layer are the accepted rows cut into runs, each run
      inside one block and written with its own first row and length. */
  lemma AcceptedExactlyOnce(bt: nat, layers: nat, l: nat, es: seq<Event>)
    requires bt > 0 && l < layers && AllRegular(Fresh(bt, layers), l, es)
    ensures var m, end := Fresh(bt, layers), Flush(Run(Fresh(bt, layers), es));
      && Written(end.writes, l) == AllAccepted(m, es)
      && (forall w :: w in end.writes && w.layer == l ==> GoodWrite(w, bt))
  {
    RunCounts(Fresh(bt, layers), l, es);
    FlushCounts(Run(Fresh(bt, layers), es), l, AllAccepted(Fresh(bt, layers), es));
  }

  // ----- When a block is written -----

  /** The open block is not full. */
  ghost predicate NotFull(m: Mean) {
    m.bt > 0 && (m.block >= 0 && m.n > 0 ==> OffsetOf(m.pos0, m.bt) + m.n < m.bt)
  }

  lemma {:induction false} CommitFromNotFull(m: Mean, i: nat, k: nat, how: nat -> nat -> How)
    requires m.bt > 0 && NotFull(m) && i <= k <= |m.pending|
    ensures NotFull(CommitFrom(m, i, k, how))
    decreases k - i
  {
    hide Turn, RunLength, NotFull;
    if i < k {
      var take := RunLength(m, i, k, 1);
      TurnNotFull(m, i, take, how(i));
      CommitFromNotFull(Turn(m, i, take, how(i)), i + take, k, how);
    }
  }

  lemma TurnNotFull(m: Mean, i: nat, take: nat, hows: nat -> How)
    requires NotFull(m) && 0 < take && i + take <= |m.pending|
    ensures NotFull(Turn(m, i, take, hows))
    ensures Turn(m, i, take, hows).pending == m.pending && Turn(m, i, take, hows).bt == m.bt
  {
    hide BlockOf, OffsetOf;
  }

  /** A full block is never left open, whatever happens to the layers. */
  lemma {:induction false} RunNotFull(m: Mean, es: seq<Event>)
    requires NotFull(m)
    ensures NotFull(Run(m, es))
  {
    hide OffsetOf;
    if es != [] {
      var q, e := Run(m, es[..|es| - 1]), es[|es| - 1];
      RunNotFull(m, es[..|es| - 1]);
      match e
      case Captured(rows, how) =>
        if |rows| == 1 {
          CommitFromNotFull(q.(pending := rows), 0, KeepCount(q.(pending := rows), 1), how);
        }
      case Accepted(nKeep, how) => CommitFromNotFull(q, 0, KeepCount(q, nKeep), how);
      case _ =>
    }
  }

  lemma FreshCounts(bt: nat, layers: nat, l: nat)
    requires bt > 0 && l < layers
    ensures Counts(Fresh(bt, layers), l, [])
  {
  }

  /** Over any regular run, an accepted row that ends its block has been written. */
  lemma FullBlocksWritten(bt: nat, layers: nat, l: nat, es: seq<Event>, row: Row)
    requires bt > 0 && l < layers && AllRegular(Fresh(bt, layers), l, es)
    requires row in AllAccepted(Fresh(bt, layers), es) && OffsetOf(row.pos, bt) == bt - 1
    ensures row in Written(Run(Fresh(bt, layers), es).writes, l)
  {
    hide OffsetOf, BlockOf, Written;
    var m := Run(Fresh(bt, layers), es);
    FreshCounts(bt, layers, l);
    RunCounts(Fresh(bt, layers), l, es);
    RunNotFull(Fresh(bt, layers), es);
    if row in Sum(m.acc[l]) {
      var k :| 0 <= k < |Sum(m.acc[l])| && Sum(m.acc[l])[k] == row;
      RowSplit(row.pos, bt);
      RowSplit(m.pos0, bt);
      assert false;
    }
  }

  /** Committing rows that continue one block writes nothing before the block is full, and all of it then. */
  lemma CommitOneRun(m: Mean, l: nat, rows: seq<Row>, nKeep: nat, how: nat -> nat -> How)
    requires Counts(m, l, rows) && NotFull(m) && Steady(m, l, 0, KeepCount(m, nKeep), how) && KeepCount(m, nKeep) > 0
    requires InRow(m.pending[..KeepCount(m, nKeep)], m.bt)
    requires m.n == 0 || m.block == BlockOf(m.pending[0].pos, m.bt)
    ensures var k, q := KeepCount(m, nKeep), Commit(m, nKeep, how);
      if OffsetOf(m.pending[0].pos, m.bt) + k < m.bt
      then q.writes == m.writes && |q.acc| == |m.acc| && Sum(q.acc[l]) == Sum(m.acc[l]) + m.pending[..k]
      else q.n == 0 && Written(q.writes, l) == rows + m.pending[..k]
  {
    hide BlockOf, OffsetOf, Written, Flush, AddRange, GoodWrite, Sum, Tidy, RunLength;
    var k, pos := KeepCount(m, nKeep), m.pending[0].pos;
    var more, bid := m.pending[..k], BlockOf(m.pending[0].pos, m.bt);
    WholeRun(m, 0, k, 1);
    assert m.pending[0..k] == more;
    var r := AddRange(m, 0, k, how(0));
    AddRangeCounts(m, l, rows, 0, k, how(0));
    AddRangeWrites(m, k, how(0));
    RowSplit(pos, m.bt);
    RowSplit(r.pos0, m.bt);
    Cancelled(Written(m.writes, l), Sum(m.acc[l]), more, Sum(r.acc[l]), rows);
    FlushCounts(r, l, rows + more);
    TurnIs(m, 0, k, how);
  }

  /** A commit of one run is one turn. */
  lemma TurnIs(m: Mean, i: nat, k: nat, how: nat -> nat -> How)
    requires m.bt > 0 && i < k <= |m.pending| && RunLength(m, i, k, 1) == k - i
    ensures CommitFrom(m, i, k, how) == FlushFull(AddRange(m, i, k - i, how(i)), BlockOf(m.pending[i].pos, m.bt))
  {
    var t := Turn(m, i, k - i, how(i));
    assert t.pending == m.pending;
    assert CommitFrom(t, k, k, how) == t;
  }

  lemma Cancelled<T>(a: seq<T>, b: seq<T>, more: seq<T>, c: seq<T>, all: seq<T>)
    requires a + b == all
    ensures a + c == all + more ==> c == b + more
  {
    if a + c == all + more {
      assert a + c == a + (b + more);
      assert c == (a + c)[|a|..] && b + more == (a + (b + more))[|a|..];
    }
  }

  lemma AddRangeWrites(m: Mean, k: nat, hows: nat -> How)
    requires m.bt > 0 && 0 < k <= |m.pending| && (m.n == 0 || m.block == BlockOf(m.pending[0].pos, m.bt))
    ensures AddRange(m, 0, k, hows).writes == m.writes
  {
  }

  /** Rows of one block are one run. */
  lemma {:induction false} WholeRun(m: Mean, i: nat, k: nat, take: nat)
    requires m.bt > 0 && i < i + take <= k <= |m.pending| && InRow(m.pending[i..k], m.bt)
    ensures RunLength(m, i, k, take) == k - i
    decreases k - take
  {
    hide BlockOf;
    if i + take < k {
      assert m.pending[i..k][take] == m.pending[i + take];
      WholeRun(m, i, k, take + 1);
    }
  }

  /** One verify pass accepts the first k rows of its batch, also when the batch has one row, which was
      accepted when it was captured. */
  lemma PassAcceptsOnce(m: Mean, batch: seq<Row>, k: nat, h1: nat -> nat -> How, h2: nat -> nat -> How)
    requires m.bt > 0 && 1 <= k <= |batch|
    ensures var captured := Step(m, Captured(batch, h1));
      AcceptedBy(m, Captured(batch, h1)) + AcceptedBy(captured, Accepted(k, h2)) == batch[..k]
  {
  }

  /** One row captured alone, for one layer of an open or empty accumulator, with the block not full. */
  lemma OneRowStep(m: Mean, r: Row, how: nat -> nat -> How)
    requires m.bt > 2 && |m.acc| == 1 && Adds(how(0)(0)) && r.pos < 2
    requires m == Fresh(m.bt, 1) || (m.block == 0 && m.pos0 == 0 && m.n == 1)
    ensures Step(m, Captured([r], how)) == m.(pending := [], block := 0, pos0 := if m.block == 0 then 0 else r.pos,
                                              n := m.n + 1, acc := [AddLayer(m.acc[0], how(0)(0), [r])])
  {
    hide AddLayer;
    var p := m.(pending := [r]);
    OneRowCommit(p, how);
    assert AnyAdds(1, how(0));
    assert p.pending[0..1] == [r];
    assert seq(1, _ => EMPTY) == [EMPTY] && (m.block < 0 ==> m.acc == [EMPTY]);
    assert AddAll(m.acc, how(0), [r]) == [AddLayer(m.acc[0], how(0)(0), [r])];
  }

  /** A layer that returns to the GPU inside a block loses what the host had summed. */
  lemma GpuAfterHostLoses(m: Mean, a: Row, b: Row, onHost: nat -> nat -> How, onGpu: nat -> nat -> How)
    requires m == Fresh(m.bt, 1) && m.bt > 2 && a.pos == 0 && b.pos == 1
    requires onHost(0)(0) == Host && onGpu(0)(0) == Gpu
    ensures var m2 := Step(Step(m, Captured([a], onHost)), Captured([b], onGpu));
      m2.n == 2 && Written(Flush(m2).writes, 0) == [b]
  {
    hide Step, Written, BlockOf, OffsetOf;
    OneRowStep(m, a, onHost);
    var m1 := Step(m, Captured([a], onHost));
    OneRowStep(m1, b, onGpu);
    var m2 := Step(m1, Captured([b], onGpu));
    assert [] + [b] == [b];
    WritesOfLayer(m2, 1, 0);
    WrittenConcat([], WritesOf(m2, 1), 0);
    WrittenNone(0);
  }

  lemma OneRowCommit(m: Mean, how: nat -> nat -> How)
    requires m.bt > 0 && |m.pending| == 1
    ensures Commit(m, 1, how) == Discard(FlushFull(AddRange(m, 0, 1, how(0)), BlockOf(m.pending[0].pos, m.bt)))
  {
    assert RunLength(m, 0, 1, 1) == 1;
    var next := FlushFull(AddRange(m, 0, 1, how(0)), BlockOf(m.pending[0].pos, m.bt));
    assert CommitFrom(next, 1, 1, how) == next;
  }
}
