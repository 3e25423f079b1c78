/** The accumulator object behind mean-K: its fields are updated in place, loop by loop, and every
    method computes the step of the same name on the accumulator's value. */
module MeanAccumulator {
  import opened Arith
  import opened DecodeMean

  class Accumulator {
    const bt: nat
    var pending: seq<Row>
    var block: int
    var pos0: nat
    var n: nat
    var acc: seq<Acc>
    var writes: seq<Write>

    function State(): Mean
      reads this
    {
      Mean(bt, pending, block, pos0, n, acc, writes)
    }

    constructor (bt: nat, layers: nat)
      ensures State() == Fresh(bt, layers)
    {
      this.bt := bt;
      pending, block, pos0, n, acc, writes := [], -1, 0, 0, seq(layers, _ => EMPTY), [];
    }

    method FlushNow()
      modifies this
      ensures State() == Flush(old(State()))
    {
      if n == 0 || block < 0 {
        return;
      }
      for l := 0 to |acc|
        invariant pending == old(pending) && block == old(block) && pos0 == old(pos0) && n == old(n) && acc == old(acc)
        invariant writes == old(writes) + WritesOf(old(State()), l)
      {
        ghost var before := writes;
        hide Sum;
        if !acc[l].src.Nowhere? {
          writes := writes + [Write(pos0, n, l, Sum(acc[l]))];
        }
        assert writes == before + WriteOf(old(State()), l);
        assert WritesOf(old(State()), l + 1) == WritesOf(old(State()), l) + WriteOf(old(State()), l);
      }
      n, block := 0, -1;
      acc := seq(|acc|, _ => EMPTY);
    }

    method AddRangeOf(tok0: nat, take: nat, hows: nat -> How)
      requires bt > 0 && 0 < take && tok0 + take <= |pending|
      modifies this
      ensures State() == AddRange(old(State()), tok0, take, hows)
    {
      var bid := pending[tok0].pos / bt;
      IsDivMod(pending[tok0].pos, bt);
      if block != bid {
        FlushNow();
        acc := seq(|acc|, _ => EMPTY);
        block, pos0, n := bid, pending[tok0].pos, 0;
      }
      ghost var o := State();
      assert o == Opened(old(State()), old(pending)[tok0].pos);
      var any := false;
      for l := 0 to |acc|
        invariant State() == o.(acc := acc) && |acc| == |o.acc|
        invariant forall j :: 0 <= j < l ==> acc[j] == AddLayer(o.acc[j], hows(j), pending[tok0..tok0 + take])
        invariant forall j :: l <= j < |acc| ==> acc[j] == o.acc[j]
        invariant any <==> AnyAdds(l, hows)
      {
        acc := acc[l := AddLayer(acc[l], hows(l), pending[tok0..tok0 + take])];
        any := any || Adds(hows(l));
      }
      assert acc == AddAll(o.acc, hows, pending[tok0..tok0 + take]);
      if any {
        n := n + take;
      }
    }

    /** How many rows from i on, below k, lie in the block of row i. */
    method TakeRun(i: nat, k: nat) returns (take: nat)
      requires bt > 0 && i < k <= |pending|
      ensures take == RunLength(State(), i, k, 1)
    {
      hide BlockOf, OffsetOf, Before, BlocksFor;
      take := 1;
      IsDivMod(pending[i].pos, bt);
      while i + take < k
        invariant 1 <= take && i + take <= k
        invariant RunLength(State(), i, k, take) == RunLength(State(), i, k, 1)
      {
        IsDivMod(pending[i + take].pos, bt);
        if pending[i + take].pos / bt != pending[i].pos / bt {
          break;
        }
        take := take + 1;
      }
    }

    method CommitRows(nKeep: nat, how: nat -> nat -> How)
      requires bt > 0
      modifies this
      ensures State() == Commit(old(State()), nKeep, how)
    {
      hide AddRange, FlushFull, BlockOf, OffsetOf, Before, BlocksFor, RunLength;
      ghost var m := State();
      var k := if nKeep < |pending| then nKeep else |pending|;
      var i := 0;
      while i < k
        invariant i <= k == KeepCount(m, nKeep) && pending == m.pending
        invariant CommitFrom(State(), i, k, how) == CommitFrom(m, 0, k, how)
      {
        var take := TakeRun(i, k);
        AddAndFlush(i, take, how(i));
        i := i + take;
      }
      pending := [];
    }

    /** One turn of the commit loop: add a range, and flush the block when it is full. */
    method AddAndFlush(i: nat, take: nat, hows: nat -> How)
      requires bt > 0 && 0 < take && i + take <= |pending|
      modifies this
      ensures pending == old(pending)
      ensures State() == Turn(old(State()), i, take, hows)
    {
      hide BlockOf, OffsetOf, Before, BlocksFor;
      IsDivMod(pending[i].pos, bt);
      var bid := pending[i].pos / bt;
      AddRangeOf(i, take, hows);
      IsDivMod(pos0, bt);
      if block == bid && n > 0 && pos0 % bt + n >= bt {
        FlushNow();
      }
    }

    method DiscardPending()
      modifies this`pending
      ensures State() == Discard(old(State()))
    {
      pending := [];
    }

    method IngestBatch(rows: seq<Row>, how: nat -> nat -> How)
      requires bt > 0
      modifies this
      ensures State() == Ingest(old(State()), rows, how)
    {
      if rows == [] {
        return;
      }
      pending := rows;
      if |rows| == 1 {
        CommitRows(1, how);
      }
    }
  }
}
