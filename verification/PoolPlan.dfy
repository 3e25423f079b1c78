/** Sizing the slot pool from the settings: token budget, generation reserve, context length and the
    number of blocks the video memory may hold. */
module PoolPlan {
  import opened Arith

  /** Zero stands for "not set" in `blockTokens`, `budget` and `genReserve`, and for "no cap" in
      `capBlocks`. */
  datatype Settings = Settings(blockTokens: nat, budget: nat, genReserve: nat, nCtx: nat, capBlocks: nat)

  datatype Plan = Plan(bt: nat, budget: nat, genReserve: nat, kvSize: nat, nSlots: nat)

  /** Round down to whole blocks, but at least one. */
  function Align(tokens: nat, bt: nat): (r: nat)
    requires bt > 0
  {
    BeforeMono(0, BlockOf(tokens, bt), bt);
    if tokens < bt then bt else Before(BlockOf(tokens, bt), bt)
  }

  function Min(a: nat, b: nat): nat { if a < b then a else b }

  function Max(a: nat, b: nat): nat { if a > b then a else b }

  /** Budget, reserve and pool before the cap is looked at. */
  function Wanted(s: Settings, bt: nat): (nat, nat, nat)
    requires bt > 0
  {
    var budget := Align(if s.budget == 0 then s.nCtx else s.budget, bt);
    var reserve := Align(if s.genReserve == 0 then 256 else s.genReserve, bt);
    var pool := budget + reserve;
    (budget, reserve, if pool > s.nCtx && s.budget == 0 then s.nCtx else pool)
  }

  /** Shrink budget and reserve to a cap that the pool exceeds. */
  function Shrunk(budget: nat, reserve: nat, cap: nat, bt: nat): (nat, nat)
    requires bt > 0
  {
    var (b, r) :=
      if budget >= cap then
        var r := Min(reserve, bt);
        (if cap > r then cap - r else cap, r)
      else (budget, if budget + reserve > cap then cap - budget else reserve);
    (Align(Max(b, bt), bt), Align(Max(r, bt), bt))
  }

  function ComputePool(s: Settings): Plan {
    var bt := if s.blockTokens == 0 then 32 else s.blockTokens;
    var (budget, reserve, pool) := Wanted(s, bt);
    BeforeMono(0, s.capBlocks, bt);
    var cap := Before(s.capBlocks, bt);
    if s.capBlocks > 0 && pool > cap then
      var (b, r) := Shrunk(budget, reserve, cap, bt);
      Sized(bt, b, r, Min(b + r, cap))
    else Sized(bt, budget, reserve, pool)
  }

  function Sized(bt: nat, budget: nat, reserve: nat, pool: nat): Plan
    requires bt > 0
  {
    Plan(bt, budget, reserve, Max(pool, 1), BlocksFor(Max(pool, 1), bt))
  }

  // ----- Alignment -----

  /** The aligned count is the largest number of whole blocks in `tokens`, at least one block. */
  lemma AlignIs(tokens: nat, bt: nat)
    requires bt > 0
    ensures var a := Align(tokens, bt);
      && a >= bt && a == Before(BlockOf(a, bt), bt) && OffsetOf(a, bt) == 0
      && (tokens >= bt ==> a <= tokens < a + bt) && (tokens < bt ==> a == bt)
  {
    var q := if tokens < bt then 1 else BlockOf(tokens, bt);
    RowSplit(tokens, bt);
    RowUnique(q, 0, bt);
    BeforeMono(1, q, bt);
    assert Before(1, bt) == bt;
  }

  /** A shrunk budget fits the cap, and both parts are whole blocks. */
  lemma ShrunkFits(budget: nat, reserve: nat, cap: nat, bt: nat)
    requires bt > 0 && cap >= bt && budget >= bt && reserve >= bt && OffsetOf(budget, bt) == 0
    ensures var s := Shrunk(budget, reserve, cap, bt);
      bt <= s.0 <= cap && OffsetOf(s.0, bt) == 0 && s.1 >= bt && OffsetOf(s.1, bt) == 0
  {
    hide Before, BlockOf, OffsetOf, Align;
    var b := if budget < cap then budget else if cap > bt then cap - bt else cap;
    var r := if budget >= cap then bt else if budget + reserve > cap then cap - budget else reserve;
    assert Shrunk(budget, reserve, cap, bt) == (Align(Max(b, bt), bt), Align(Max(r, bt), bt));
    AlignIs(Max(b, bt), bt);
    AlignIs(Max(r, bt), bt);
  }

  lemma FirstBlock(q: nat, bt: nat)
    requires bt > 0 && q > 0
    ensures Before(q, bt) >= bt
  {
    BeforeMono(1, q, bt);
    assert Before(1, bt) == bt;
  }

  // ----- Bounds of the plan -----

  /** The cells never exceed a non-zero cap. */
  lemma PoolWithinCap(s: Settings)
    requires s.capBlocks > 0
    ensures var p := ComputePool(s); p.bt > 0 && p.kvSize <= Before(s.capBlocks, p.bt)
  {
    FirstBlock(s.capBlocks, ComputePool(s).bt);
  }

  /** The slots are the least number whose cells cover the pool. */
  lemma SlotsAreLeast(s: Settings, m: nat)
    ensures var p := ComputePool(s); p.bt > 0 && (m >= p.nSlots <==> Before(m, p.bt) >= p.kvSize)
  {
    var p := ComputePool(s);
    BlocksForCovers(p.kvSize, p.bt, m);
  }

  /** The budget fits the cells exactly when a budget was given, or the context holds a block. */
  lemma BudgetFits(s: Settings)
    ensures var p := ComputePool(s);
      p.bt > 0 && (p.budget <= p.kvSize <==> s.budget != 0 || s.nCtx >= p.bt || p.bt == 1)
  {
    hide Before, BlockOf, OffsetOf, Align, Shrunk;
    var bt := ComputePool(s).bt;
    var (budget, reserve, pool) := Wanted(s, bt);
    AlignIs(if s.budget == 0 then s.nCtx else s.budget, bt);
    AlignIs(if s.genReserve == 0 then 256 else s.genReserve, bt);
    if s.capBlocks > 0 && pool > Before(s.capBlocks, bt) {
      FirstBlock(s.capBlocks, bt);
      ShrunkFits(budget, reserve, Before(s.capBlocks, bt), bt);
    }
  }

  /** The budget in blocks never exceeds the number of slots, so no selection within the budget asks for
      more blocks than the pool has slots. */
  lemma BudgetBlocksFit(s: Settings)
    ensures var p := ComputePool(s); p.bt > 0 && BlockOf(p.budget, p.bt) <= p.nSlots
  {
    var p := ComputePool(s);
    BudgetFits(s);
    BlocksForCovers(p.kvSize, p.bt, 0);
    if p.budget <= p.kvSize {
      BlockOfMono(p.budget, p.kvSize, p.bt);
    } else {
      SmallBudget(s);
    }
  }

  /** The largest number of whole blocks in what was asked for, but at least one. */
  function Whole(asked: nat, bt: nat): nat
    requires bt > 0
  {
    if asked < bt then bt else asked - asked % bt
  }

  lemma AlignIsWhole(asked: nat, bt: nat)
    requires bt > 0
    ensures Align(asked, bt) == Whole(asked, bt)
  {
    RowSplit(asked, bt);
    IsDivMod(asked, bt);
  }

  /** What the settings ask for: blocks of 32 rows, the whole context as budget, and a reserve of 256 rows,
      where nothing is set; and a pool for both, but not beyond the context if there was no budget. */
  datatype Asked = Asked(bt: nat, budget: nat, reserve: nat, pool: nat)

  function AskedFor(s: Settings): (a: Asked)
    ensures a.bt > 0
  {
    var bt := if s.blockTokens > 0 then s.blockTokens else 32;
    var budget := Whole(if s.budget > 0 then s.budget else s.nCtx, bt);
    var reserve := Whole(if s.genReserve > 0 then s.genReserve else 256, bt);
    Asked(bt, budget, reserve, if s.budget > 0 then budget + reserve else Min(s.nCtx, budget + reserve))
  }

  /** While the cap allows it, what is asked for is given. */
  lemma AskedIsGiven(s: Settings)
    ensures var a, p := AskedFor(s), ComputePool(s);
      && p.bt == a.bt
      && (s.capBlocks == 0 || a.pool <= Before(s.capBlocks, a.bt) ==>
            p.budget == a.budget && p.genReserve == a.reserve && p.kvSize == Max(a.pool, 1))
  {
    hide Before, BlockOf, OffsetOf, Align, Shrunk, Whole;
    var bt := ComputePool(s).bt;
    AlignIsWhole(if s.budget == 0 then s.nCtx else s.budget, bt);
    AlignIsWhole(if s.genReserve == 0 then 256 else s.genReserve, bt);
  }

  /** If the cap does not, the pool fills it, and the budget is kept if it leaves a block below the cap, and
      is else the cap less one block, or all of it if it is one block. */
  lemma CapIsFilled(s: Settings)
    ensures var a, p := AskedFor(s), ComputePool(s);
      var cap := Before(s.capBlocks, a.bt);
      s.capBlocks > 0 && a.pool > cap ==>
        && p.kvSize == cap >= p.bt == a.bt
        && p.budget == if a.budget < cap then a.budget else if cap > a.bt then cap - a.bt else cap
  {
    hide Before, BlockOf, OffsetOf, Align, Whole, Shrunk;
    var a := AskedFor(s);
    var bt, cap := a.bt, Before(s.capBlocks, a.bt);
    AlignIsWhole(if s.budget == 0 then s.nCtx else s.budget, bt);
    AlignIsWhole(if s.genReserve == 0 then 256 else s.genReserve, bt);
    AlignIs(if s.budget == 0 then s.nCtx else s.budget, bt);
    AlignIs(if s.genReserve == 0 then 256 else s.genReserve, bt);
    if s.capBlocks > 0 && a.pool > cap {
      FirstBlock(s.capBlocks, bt);
      MultipleIsWhole(s.capBlocks, bt);
      ShrunkIs(a.budget, a.reserve, cap, bt);
    }
  }

  /** A shrunk pool fills the cap. */
  lemma ShrunkIs(budget: nat, reserve: nat, cap: nat, bt: nat)
    requires bt > 0 && cap >= bt && OffsetOf(cap, bt) == 0 && OffsetOf(budget, bt) == 0
    requires budget >= bt && reserve >= bt && budget + reserve > cap
    ensures var (b, r) := Shrunk(budget, reserve, cap, bt);
      && b == (if budget < cap then budget else if cap > bt then cap - bt else cap)
      && Min(b + r, cap) == cap
  {
    hide Before, BlockOf, OffsetOf, Align;
    OneBlock(bt);
    Kept(bt, bt);
    SubWhole(cap, bt, bt);
    if budget < cap {
      SubWhole(cap, budget, bt);
      Kept(budget, bt);
      Kept(cap - budget, bt);
    } else if cap > bt {
      Kept(cap - bt, bt);
    } else {
      Kept(cap, bt);
    }
  }

  lemma OneBlock(bt: nat)
    requires bt > 0
    ensures OffsetOf(bt, bt) == 0
  {
  }

  /** Whole blocks stay as they are. */
  lemma Kept(tokens: nat, bt: nat)
    requires bt > 0 && OffsetOf(tokens, bt) == 0 && tokens >= bt
    ensures Align(tokens, bt) == tokens
  {
    RowSplit(tokens, bt);
  }

  /** Between whole blocks lie whole blocks, and at least one. */
  lemma {:induction false} SubWhole(a: nat, b: nat, bt: nat)
    requires bt > 0 && OffsetOf(a, bt) == 0 && OffsetOf(b, bt) == 0 && b <= a
    ensures OffsetOf(a - b, bt) == 0 && (b < a ==> a - b >= bt)
    decreases b
  {
    if b >= bt {
      SubWhole(a - bt, b - bt, bt);
    }
  }

  lemma SmallBudget(s: Settings)
    requires var p := ComputePool(s); p.bt > 0 && p.budget > p.kvSize
    ensures var p := ComputePool(s); BlockOf(p.budget, p.bt) == 1
  {
    BudgetFits(s);
    var p := ComputePool(s);
    AlignIs(s.nCtx, p.bt);
    RowUnique(1, 0, p.bt);
    assert Before(1, p.bt) == p.bt;
    if s.capBlocks > 0 {
      FirstBlock(s.capBlocks, p.bt);
    }
  }

  /** The last slot is whole, so that every slot has all its cells, exactly when a budget was given, the
      context is made of whole blocks, or the cap binds. */
  lemma WholeSlots(s: Settings)
    ensures var p := ComputePool(s);
      p.bt > 0 && (p.kvSize == Before(p.nSlots, p.bt) <==>
        s.budget != 0 || OffsetOf(Max(s.nCtx, 1), p.bt) == 0 || (s.capBlocks > 0 && s.nCtx > Before(s.capBlocks, p.bt)))
  {
    hide Before, BlockOf, OffsetOf, Align, Shrunk, BlocksFor;
    var p := ComputePool(s);
    var bt := p.bt;
    var (budget, reserve, pool) := Wanted(s, bt);
    AlignIs(if s.budget == 0 then s.nCtx else s.budget, bt);
    AlignIs(if s.genReserve == 0 then 256 else s.genReserve, bt);
    WholeIsCovered(p.kvSize, bt);
    AddWhole(budget, reserve, bt);
    if s.capBlocks > 0 {
      FirstBlock(s.capBlocks, bt);
      MultipleIsWhole(s.capBlocks, bt);
      if pool > Before(s.capBlocks, bt) {
        ShrunkFits(budget, reserve, Before(s.capBlocks, bt), bt);
        var (b, r) := Shrunk(budget, reserve, Before(s.capBlocks, bt), bt);
        AddWhole(b, r, bt);
      }
    }
  }

  lemma MultipleIsWhole(q: nat, bt: nat)
    requires bt > 0
    ensures Before(q, bt) >= 0 && OffsetOf(Before(q, bt), bt) == 0
  {
    BeforeMono(0, q, bt);
    RowUnique(q, 0, bt);
  }

  lemma WholeIsCovered(n: nat, bt: nat)
    requires bt > 0
    ensures n == Before(BlocksFor(n, bt), bt) <==> OffsetOf(n, bt) == 0
  {
    RowSplit(n, bt);
    if OffsetOf(n, bt) == 0 {
      BlocksForExact(BlockOf(n, bt), bt);
    }
    if n == Before(BlocksFor(n, bt), bt) {
      MultipleIsWhole(BlocksFor(n, bt), bt);
    }
  }

  lemma {:induction false} AddWhole(a: nat, b: nat, bt: nat)
    requires bt > 0 && OffsetOf(a, bt) == 0 && OffsetOf(b, bt) == 0
    ensures OffsetOf(a + b, bt) == 0
    decreases a
  {
    if a >= bt {
      AddWhole(a - bt, b, bt);
    }
  }
}
