/** Requests as transactions over the stored rows: prefill from a checkpoint, generate, then commit or
    roll back. The properties speak of attention rows; recurrent state is only ever restored with them. */
module Transaction {

  /** One row's identity: a text token, or a row of an image. */
  type Token(==, 0, !new)

  datatype Option<T> = None | Some(value: T)

  datatype Checkpoint = Checkpoint(row: nat, media: bool)

  /** How restoring a checkpoint can fail: the recurrent state does not load, the target's rows cannot
      be removed, or the draft's cannot after the target's were. */
  datatype Fault = Fine | NoState | NoTarget | NoDraft

  /** What happens to one decoded span: `cut` says where each batch ends. A batch that starts at a row for
      which `fails` holds is lost and leaves `junk` behind. Where `image` holds, an image starts, and a
      checkpoint is taken first, unless `keeps` says it cannot be; then the span ends there. */
  datatype Span = Span(fails: nat -> bool, cut: nat -> nat, image: nat -> bool, keeps: nat -> bool, junk: seq<Token>)

  datatype Request = Request(
    prompt: seq<Token>, spec: bool, reset: bool, query: nat, replays: bool,
    first: Span, probe: Span, again: Span,        // prefill up to the query, the query, its replay
    saves: nat -> bool,                           // whether the k-th checkpoint can be taken
    base: Fault, rewind: Fault, undo: Fault,      // restoring the base, the query, the rollback record
    gen: seq<Token>, nPast: nat, generates: bool, junk: seq<Token>)

  /** What a request is: its tokens evaluated by prefill, and the rows generation has computed when it
      ends, in full or not. */
  predicate WellFormed(r: Request) {
    && r.prompt != [] && r.query <= EvalEnd(r) <= r.nPast <= |Text(r)|
    && (r.generates && !r.spec ==> r.nPast == |Text(r)|)
  }

  /** The prompt and what was generated for it. */
  function Text(r: Request): seq<Token> {
    r.prompt + r.gen
  }

  function EvalEnd(r: Request): nat
    requires r.prompt != []
  {
    |r.prompt| - if r.spec then 1 else 0
  }

  /** How many rows of a cached prompt a request may reuse. Plain decoding evaluates one token at least. */
  function Reusable(r: Request, cached: seq<Token>, live: nat): nat
    requires r.prompt != []
  {
    Min(CommonPrefix(r.prompt, cached), Min(live, if r.spec then EvalEnd(r) else EvalEnd(r) - 1))
  }

  function Take(s: seq<Token>, n: nat): seq<Token> {
    if n < |s| then s[..n] else s
  }

  // ----- Where a request ends -----

  /** Whether the span ends at the batch that starts at `row`. */
  predicate Breaks(span: Span, replay: bool, row: nat) {
    span.fails(row) || (!replay && span.image(row) && !span.keeps(row))
  }

  function NextBatch(span: Span, row: nat, end: nat): (next: nat)
    requires row < end
    ensures row < next <= end
  {
    if row < span.cut(row) <= end then span.cut(row) else end
  }

  /** The row a span reaches: `end`, or the start of the first batch that breaks. */
  function SpanEnd(span: Span, replay: bool, row: nat, end: nat): (reached: nat)
    requires row <= end
    ensures row <= reached <= end
    decreases end - row
  {
    if row == end || Breaks(span, replay, row) then row else SpanEnd(span, replay, NextBatch(span, row, end), end)
  }

  datatype End =
    | Unrestored            // the base could not be restored
    | Halted(row: nat)      // the rows below `row` were computed, and nothing was committed
    | Unrewound(query: nat) // the target was cut to the query, but the live row still is the end of the prompt
    | Unrecorded            // the cached prompt was replaced, but its checkpoint could not be taken
    | Finished

  function QueryRow(r: Request, base: nat): nat {
    if r.query < base then base else r.query
  }

  /** How prefill from a base row fails, if it does. */
  function Breakdown(r: Request, base: nat): (e: Option<End>)
    requires WellFormed(r) && base <= EvalEnd(r)
    ensures e.Some? ==> e.value.Halted? || e.value.Unrewound?
    ensures e.Some? && e.value.Halted? ==> base <= e.value.row <= EvalEnd(r)
    ensures e.Some? && e.value.Unrewound? ==> base <= e.value.query <= EvalEnd(r)
  {
    var query := QueryRow(r, base);
    var first := SpanEnd(r.first, false, base, query);
    if first < query || !r.saves(1) then Some(Halted(first)) else Probed(r, query)
  }

  /** How it fails from the query on. */
  function Probed(r: Request, query: nat): (e: Option<End>)
    requires WellFormed(r) && query <= EvalEnd(r)
    ensures e.Some? ==> e.value.Halted? || e.value.Unrewound?
    ensures e.Some? && e.value.Halted? ==> query <= e.value.row <= EvalEnd(r)
    ensures e.Some? && e.value.Unrewound? ==> query == e.value.query
  {
    var probe := SpanEnd(r.probe, false, query, EvalEnd(r));
    if probe < EvalEnd(r) then Some(Halted(probe))
    else if r.replays && Replayed(r, query).Some? then Replayed(r, query)
    else if !r.saves(2) then Some(Halted(EvalEnd(r)))
    else None
  }

  /** How replaying the query fails, if it does. */
  function Replayed(r: Request, query: nat): (e: Option<End>)
    requires WellFormed(r) && query <= EvalEnd(r)
  {
    if r.rewind.NoDraft? then Some(Unrewound(query))
    else if !r.rewind.Fine? then Some(Halted(EvalEnd(r)))
    else
      var again := SpanEnd(r.again, true, query, EvalEnd(r));
      if again < EvalEnd(r) then Some(Halted(again)) else None
  }

  /** How a request ends that was opened at a base row. */
  function Ends(r: Request, base: nat): (e: End)
    requires WellFormed(r) && base <= EvalEnd(r)
    ensures e.Halted? ==> base <= e.row <= |Text(r)|
    ensures e.Unrewound? ==> base <= e.query <= EvalEnd(r)
  {
    if !r.base.Fine? then Unrestored
    else if Breakdown(r, base).Some? then Breakdown(r, base).value
    else if !r.generates then Halted(r.nPast)
    else if !r.saves(3) then Unrecorded
    else Finished
  }

  /** Nothing goes wrong. */
  ghost predicate Smooth(r: Request) {
    && r.base.Fine? && r.rewind.Fine? && r.generates && (forall k :: r.saves(k))
    && (forall row :: !Breaks(r.first, false, row) && !Breaks(r.probe, false, row) && !Breaks(r.again, true, row))
  }

  /** A span that ends early ends at a batch that breaks; with batches of one row, at the first row that
      breaks. */
  lemma SpanStops(span: Span, replay: bool, row: nat, end: nat)
    requires row <= end
    ensures var reached := SpanEnd(span, replay, row, end); reached < end ==> Breaks(span, replay, reached)
    ensures (forall k: nat :: span.cut(k) == k + 1) ==>
              forall k: nat :: row <= k < SpanEnd(span, replay, row, end) ==> !Breaks(span, replay, k)
    decreases end - row
  {
    if row < end && !Breaks(span, replay, row) {
      SpanStops(span, replay, NextBatch(span, row, end), end);
    }
  }

  /** A request is finished if and only if its base is restored, its spans reach their ends, a replay works
      if there is one, the three checkpoints on the way and the last one are taken, and it generates. */
  lemma FinishedIff(r: Request, base: nat)
    requires WellFormed(r) && base <= EvalEnd(r)
    ensures var query, end := QueryRow(r, base), EvalEnd(r);
      Ends(r, base).Finished? <==>
        && r.base.Fine? && SpanEnd(r.first, false, base, query) == query && r.saves(1)
        && SpanEnd(r.probe, false, query, end) == end
        && (r.replays ==> r.rewind.Fine? && SpanEnd(r.again, true, query, end) == end)
        && r.saves(2) && r.generates && r.saves(3)
  {
    hide SpanEnd;
  }

  /** The last image that a span decodes. */
  function LastImage(span: Span, row: nat, end: nat): (last: Option<nat>)
    requires row <= end
    ensures last.Some? ==> row <= last.value < end && span.image(last.value)
    decreases end - row
  {
    if row == end || Breaks(span, false, row) then None else
      var later := LastImage(span, NextBatch(span, row, end), end);
      if later.Some? then later else if span.image(row) then Some(row) else None
  }

  lemma SmoothSpan(span: Span, replay: bool, row: nat, end: nat)
    requires row <= end && forall k :: !Breaks(span, replay, k)
    ensures SpanEnd(span, replay, row, end) == end
    decreases end - row
  {
    if row < end {
      SmoothSpan(span, replay, NextBatch(span, row, end), end);
    }
  }

  /** A request for which nothing goes wrong is finished, whatever row it starts from. */
  lemma SmoothFinishes(r: Request, base: nat)
    requires WellFormed(r) && base <= EvalEnd(r) && Smooth(r)
    ensures Ends(r, base).Finished?
  {
    var query := QueryRow(r, base);
    SmoothSpan(r.first, false, base, query);
    SmoothSpan(r.probe, false, query, EvalEnd(r));
    SmoothSpan(r.again, true, query, EvalEnd(r));
  }

  /** The row of the highest checkpoint within the first `keep` rows. */
  function Highest(cps: seq<Checkpoint>, keep: nat): (h: Option<nat>)
    ensures h.Some? ==> h.value <= keep && exists c :: c in cps && c.row == h.value
    ensures forall c :: c in cps && c.row <= keep ==> h.Some? && c.row <= h.value
  {
    if cps == [] then None else
      var h, c := Highest(cps[..|cps| - 1], keep), cps[|cps| - 1];
      if c.row <= keep && (h.None? || c.row > h.value) then Some(c.row) else h
  }

  function CommonPrefix(a: seq<Token>, b: seq<Token>): (n: nat)
    ensures n <= |a| && n <= |b| && a[..n] == b[..n]
    ensures n < |a| && n < |b| ==> a[n] != b[n]
  {
    if a == [] || b == [] || a[0] != b[0] then 0 else
      var n := CommonPrefix(a[1..], b[1..]);
      assert a[..n + 1] == [a[0]] + a[1..][..n] && b[..n + 1] == [b[0]] + b[1..][..n];
      n + 1
  }

  /** Rows that start both sequences are within the common prefix. */
  lemma WithinPrefix(a: seq<Token>, b: seq<Token>, k: nat)
    requires k <= |a| && k <= |b|
    ensures a[..k] == b[..k] <==> k <= CommonPrefix(a, b)
  {
    var n := CommonPrefix(a, b);
    if k <= n {
      assert a[..k] == a[..n][..k] && b[..k] == b[..n][..k];
    } else {
      assert a[..k][n] == a[n] && b[..k][n] == b[n];
    }
  }

  function MediaCount(entries: seq<Checkpoint>): nat {
    if entries == [] then 0 else MediaCount(entries[..|entries| - 1]) + if entries[|entries| - 1].media then 1 else 0
  }

  /** If the first four entries are all of the other kind, at most the fifth is of this one. */
  lemma {:induction false} FewOfAKind(entries: seq<Checkpoint>, k: nat, kind: bool)
    requires k <= |entries| == 5 && forall j :: 0 <= j < 4 ==> entries[j].media != kind
    ensures k <= 4 ==> MediaCount(entries[..k]) == if kind then 0 else k
    ensures k == 5 ==> if kind then MediaCount(entries) <= 1 else MediaCount(entries) >= 4
  {
    if k > 0 {
      FewOfAKind(entries, k - 1, kind);
      assert entries[..k][..k - 1] == entries[..k - 1];
      assert entries[..5] == entries;
    }
  }

  /** The checkpoints below a row. */
  function Lower(cps: seq<Checkpoint>, row: nat): (low: seq<Checkpoint>)
    ensures |low| <= |cps| && forall c :: c in low <==> c in cps && c.row < row
  {
    if cps == [] then [] else
      var n := |cps| - 1;
      Lower(cps[..n], row) + if cps[n].row < row then [cps[n]] else []
  }

  /** Which of five checkpoints is dropped: the first of the kind there is too much of, never the last. */
  ghost predicate IsVictim(entries: seq<Checkpoint>, v: nat) {
    && v < |entries|
    && (|entries| == 5 ==> v < 4 && entries[v].media == (MediaCount(entries) > 2))
    && (|entries| == 5 ==> forall j :: 0 <= j < v ==> entries[j].media != entries[v].media)
  }

  /** The victim is none of the two newest. */
  lemma VictimIsOld(entries: seq<Checkpoint>, v: nat)
    requires |entries| == 5 && IsVictim(entries, v)
    ensures v < 3
  {
    assert entries[..4][..3] == entries[..3] && entries[..3][..2] == entries[..2] && entries[..2][..1] == entries[..1];
    assert entries[..1][..0] == [];
    assert MediaCount(entries[..1]) == if entries[0].media then 1 else 0;
    assert MediaCount(entries[..2]) == MediaCount(entries[..1]) + if entries[1].media then 1 else 0;
    assert MediaCount(entries[..3]) == MediaCount(entries[..2]) + if entries[2].media then 1 else 0;
    assert MediaCount(entries[..4]) == MediaCount(entries[..3]) + if entries[3].media then 1 else 0;
    assert MediaCount(entries) == MediaCount(entries[..4]) + if entries[4].media then 1 else 0;
  }

  lemma LowerLast(cps: seq<Checkpoint>, row: nat)
    requires cps != [] && cps[|cps| - 1].row < row
    ensures var low := Lower(cps, row); low != [] && low[|low| - 1] == cps[|cps| - 1]
  {
  }

  /** Up to four checkpoints all stay; of more, the victim goes. */
  ghost predicate Thinned(entries: seq<Checkpoint>, kept: seq<Checkpoint>) {
    if |entries| <= 4 then kept == entries
    else exists v: nat :: IsVictim(entries, v) && kept == entries[..v] + entries[v + 1..]
  }

  class Server {
    var rows: seq<Token>              // rows computed by the target
    var stored: nat                   // rows in the block table
    var cached: Option<seq<Token>>    // cached_prompt
    var checkpoints: seq<Checkpoint>
    var liveRow: nat
    var rollback: Option<Checkpoint>
    var rollbackPrompt: Option<seq<Token>>
    var committed: bool

    /** The stored rows are the first liveRow tokens of the cached prompt. */
    ghost predicate Matches()
      reads this
    {
      liveRow <= |Cached()| && rows == Cached()[..liveRow] && stored == liveRow
    }

    function Cached(): seq<Token>
      reads this
    {
      Tokens(cached)
    }

    /** The rows that count as live are the first rows of a text. */
    ghost predicate Follows(text: seq<Token>)
      reads this
    {
      liveRow <= |rows| && liveRow <= |text| && rows[..liveRow] == text[..liveRow]
    }

    /** Between requests. The live row can be gone back to. */
    ghost predicate Between()
      reads this
    {
      && Matches() && committed && rollback.None? && rollbackPrompt.None?
      && |checkpoints| <= 4 && (liveRow == 0 || HasCheckpoint(liveRow))
    }

    predicate HasCheckpoint(row: nat)
      reads this
    {
      exists c :: c in checkpoints && c.row == row
    }

    /** The row of the checkpoint a request starts from, if it reuses any. */
    function Reuses(r: Request): (row: Option<nat>)
      requires r.prompt != []
      reads this
      ensures row.Some? ==> row.value <= Reusable(r, Cached(), liveRow)
    {
      if r.reset then None else Highest(checkpoints, Reusable(r, Cached(), liveRow))
    }

    function BaseRow(r: Request): (row: nat)
      requires r.prompt != []
      reads this
      ensures row <= EvalEnd(r) && row <= liveRow
    {
      if Reuses(r).Some? then Reuses(r).value else 0
    }

    /** The request can go on from this checkpoint: its rows are live, they start the prompt as they start
        the cached one, and a token is left to evaluate. */
    predicate Usable(c: Checkpoint, r: Request)
      reads this
    {
      c.row <= liveRow && c.row <= |Cached()| && c.row < |r.prompt| && Cached()[..c.row] == r.prompt[..c.row]
    }

    /** The base row is that of the highest usable checkpoint, and there is one exactly if one is reused. */
    lemma HighestUsable(r: Request)
      requires Between() && WellFormed(r)
      ensures Reuses(r).Some? <==> !r.reset && exists c :: c in checkpoints && Usable(c, r)
      ensures Reuses(r).Some? ==> exists c :: c in checkpoints && Usable(c, r) && c.row == BaseRow(r)
      ensures !r.reset ==> forall c :: c in checkpoints && Usable(c, r) ==> c.row <= BaseRow(r)
    {
      hide CommonPrefix, Highest;
      forall c | c in checkpoints ensures Usable(c, r) <==> c.row <= Reusable(r, Cached(), liveRow) {
        if c.row <= |r.prompt| && c.row <= |Cached()| {
          WithinPrefix(r.prompt, Cached(), c.row);
        }
      }
    }

    /** What is live and what is cached once a request is opened: nothing, if it reuses nothing. */
    function LiveAtStart(r: Request): nat
      requires r.prompt != []
      reads this
    {
      if Reuses(r).Some? then liveRow else 0
    }

    function CachedAtStart(r: Request): Option<seq<Token>>
      requires r.prompt != []
      reads this
    {
      if Reuses(r).Some? then cached else None
    }

    /** A request cannot be opened if it reuses nothing and no first checkpoint can be taken. */
    predicate Opens(r: Request)
      requires r.prompt != []
      reads this
    {
      Reuses(r).Some? || r.saves(0)
    }

    constructor ()
      ensures Between() && rows == [] && cached.None?
    {
      rows, stored, cached, checkpoints, liveRow := [], 0, None, [], 0;
      rollback, rollbackPrompt, committed := None, None, true;
    }

    method ClearAll()
      modifies this
      ensures rows == [] && stored == 0 && cached.None? && checkpoints == [] && liveRow == 0
      ensures rollback == old(rollback) && rollbackPrompt == old(rollbackPrompt) && committed == old(committed)
    {
      rows, stored, cached, checkpoints, liveRow := [], 0, None, [], 0;
    }

    predicate Newest(cp: Checkpoint)
      reads this
    {
      checkpoints != [] && checkpoints[|checkpoints| - 1] == cp
    }

    /** Forget checkpoints at or past the new one, add it, and drop one if there are more than four. */
    method Remember(cp: Checkpoint)
      modifies this`checkpoints
      ensures Thinned(Lower(old(checkpoints), cp.row) + [cp], checkpoints)
      ensures |old(checkpoints)| <= 4 ==> |checkpoints| <= 4 && Newest(cp)
      // The newest of the others stays as well.
      ensures var low := Lower(old(checkpoints), cp.row);
        |old(checkpoints)| <= 4 && low != [] ==> low[|low| - 1] in checkpoints
      ensures forall c :: c in checkpoints ==> c == cp || (c in old(checkpoints) && c.row < cp.row)
    {
      hide Lower, MediaCount, Thinned;
      var kept := KeepLower(cp.row);
      ghost var low := kept;
      kept := kept + [cp];
      assert cp == kept[|kept| - 1];
      if |kept| > 4 {
        checkpoints := DropOne(kept);
      } else {
        checkpoints := kept;
        AllKept(kept);
      }
      assert low != [] ==> kept[|low| - 1] == low[|low| - 1];
      forall c | c in checkpoints ensures c == cp || c in low {
        assert c in kept;
      }
    }

    lemma AllKept(entries: seq<Checkpoint>)
      requires |entries| <= 4
      ensures Thinned(entries, entries)
    {
    }

    method KeepLower(row: nat) returns (kept: seq<Checkpoint>)
      ensures kept == Lower(checkpoints, row)
    {
      kept := [];
      for i := 0 to |checkpoints|
        invariant kept == Lower(checkpoints[..i], row)
      {
        assert checkpoints[..i + 1][..i] == checkpoints[..i];
        if checkpoints[i].row < row {
          kept := kept + [checkpoints[i]];
        }
      }
      assert checkpoints[..|checkpoints|] == checkpoints;
    }

    method DropOne(entries: seq<Checkpoint>) returns (kept: seq<Checkpoint>)
      requires |entries| > 4
      ensures Thinned(entries, kept) && |kept| == |entries| - 1 && forall c :: c in kept ==> c in entries
      ensures |entries| == 5 ==> kept[3] == entries[4] && kept[2] == entries[3]
    {
      hide MediaCount;
      var victim := Victim(entries);
      kept := entries[..victim] + entries[victim + 1..];
      assert IsVictim(entries, victim);
      if |entries| == 5 {
        VictimIsOld(entries, victim);
      }
    }

    /** The first checkpoint of the kind there is too much of, or the first of all. Among five it is not
        the last. */
    method Victim(entries: seq<Checkpoint>) returns (i: nat)
      requires |entries| > 4
      ensures i < |entries| && (|entries| == 5 ==> i < 4 && entries[i].media == (MediaCount(entries) > 2))
      ensures |entries| == 5 ==> forall j :: 0 <= j < i ==> entries[j].media != entries[i].media
    {
      var media := 0;
      for k := 0 to |entries|
        invariant media == MediaCount(entries[..k])
      {
        assert entries[..k + 1][..k] == entries[..k];
        media := media + if entries[k].media then 1 else 0;
      }
      assert entries[..|entries|] == entries;
      i := 0;
      while i < |entries| && entries[i].media != (media > 2)
        invariant i <= |entries| && forall j :: 0 <= j < i ==> entries[j].media != (media > 2)
      {
        i := i + 1;
      }
      if |entries| == 5 && i >= 4 {
        FewOfAKind(entries, 4, media > 2);
        FewOfAKind(entries, 5, media > 2);
      }
      if i == |entries| {
        i := 0;
      }
    }

    /** Go back to a checkpoint's row. Only a fault-free restore with `truncate` also shortens the block
        table. */
    method Restore(cp: Checkpoint, truncate: bool, fault: Fault) returns (ok: bool)
      modifies this`rows, this`stored, this`liveRow
      ensures ok == fault.Fine?
      ensures rows == if fault.Fine? || fault.NoDraft? then Take(old(rows), cp.row) else old(rows)
      ensures stored == if ok && truncate && cp.row < old(stored) then cp.row else old(stored)
      ensures liveRow == if ok then cp.row else old(liveRow)
    {
      if fault.NoState? || fault.NoTarget? {
        return false;
      }
      rows := Take(rows, cp.row);
      if fault.NoDraft? {
        return false;
      }
      if truncate && cp.row < stored {
        stored := cp.row;
      }
      liveRow := cp.row;
      return true;
    }

    /** End a request: nothing to do if it was committed, else roll back to its base row. */
    method FinishRequest(fault: Fault)
      modifies this
      ensures old(committed || rollback.None?) ==> rows == old(rows) && stored == old(stored) && cached == old(cached)
      ensures old(committed || rollback.None?) ==> liveRow == old(liveRow) && committed == old(committed)
      ensures old(committed || rollback.None?) ==> rollback == old(rollback) && rollbackPrompt == old(rollbackPrompt)
      ensures old(committed || rollback.None?) || !fault.Fine? ==> checkpoints == old(checkpoints)
      ensures |old(checkpoints)| <= 4 ==> |checkpoints| <= 4
      ensures old(!committed && rollback.Some?) && fault.Fine? && |old(checkpoints)| <= 4 ==>
                old(rollback).value in checkpoints
      ensures old(!committed && rollback.Some?) && fault.Fine? ==>
                Thinned(Lower(old(checkpoints), old(rollback).value.row) + [old(rollback).value], checkpoints)
      ensures old(!committed && rollback.Some?) ==> rollback.None? && rollbackPrompt.None? && committed == fault.Fine?
      ensures old(!committed && rollback.Some?) && fault.Fine? ==>
                cached == old(rollbackPrompt) && liveRow == old(rollback).value.row
      ensures old(!committed && rollback.Some?) && fault.Fine? ==> stored == Min(old(rollback).value.row, old(stored))
      ensures old(!committed && rollback.Some?) && !fault.Fine? ==>
                cached == old(cached) && liveRow == old(liveRow) && stored == old(stored)
      ensures old(!committed && rollback.Some?) ==>
                rows == if fault.Fine? || fault.NoDraft? then Take(old(rows), old(rollback).value.row) else old(rows)
    {
      hide Thinned, Lower;
      if committed || rollback.None? {
        return;
      }
      var ok := Restore(rollback.value, true, fault);
      if ok {
        cached := rollbackPrompt;
        Remember(rollback.value);
        committed := true;
      }
      rollback, rollbackPrompt := None, None;
    }

    /** Decode rows [begin, end) of the prompt, batch by batch. During a replay the block table already
        holds them, and no checkpoint is taken before an image. */
    method DecodeSpan(prompt: seq<Token>, begin: nat, end: nat, replay: bool, span: Span) returns (ok: bool)
      requires begin <= end <= |prompt| && rows == prompt[..begin] && liveRow == begin
      requires |checkpoints| <= 4 && if replay then end <= stored else stored == begin
      modifies this`rows, this`stored, this`liveRow, this`checkpoints
      ensures liveRow == SpanEnd(span, replay, begin, end) && (ok <==> liveRow == end)
      ensures ok ==> rows == prompt[..end] && stored == if replay then old(stored) else end
      ensures prompt[..begin] <= rows && begin <= stored && Follows(prompt) && |checkpoints| <= 4
      ensures replay ==> checkpoints == old(checkpoints)
      ensures forall c :: c in checkpoints ==>
                c in old(checkpoints) || (c.media && begin <= c.row < end && span.image(c.row))
      ensures (forall k: nat :: !span.image(k)) ==> checkpoints == old(checkpoints)
      // The last image can be gone back to.
      ensures !replay && LastImage(span, begin, end).Some? ==>
                Checkpoint(LastImage(span, begin, end).value, true) in checkpoints
    {
      hide Thinned, Lower;
      var row := begin;
      ghost var last: Option<nat> := None;
      while row < end
        invariant begin <= row <= end && rows == prompt[..row] && stored == if replay then old(stored) else row
        invariant liveRow == row && |checkpoints| <= 4 && (replay ==> checkpoints == old(checkpoints))
        invariant SpanEnd(span, replay, row, end) == SpanEnd(span, replay, begin, end)
        invariant !replay ==>
                    LastImage(span, begin, end) ==
                    if LastImage(span, row, end).Some? then LastImage(span, row, end) else last
        invariant (forall k: nat :: !span.image(k)) ==> checkpoints == old(checkpoints)
        invariant !replay && last.Some? ==> Checkpoint(last.value, true) in checkpoints
        invariant forall c :: c in checkpoints ==>
                  c in old(checkpoints) || (c.media && begin <= c.row < end && span.image(c.row))
      {
        if span.fails(row) {
          rows := rows + span.junk;
          if !replay {
            stored := stored + |span.junk|;
          }
          return false;
        }
        if !replay && span.image(row) {
          if !span.keeps(row) {
            return false;
          }
          Remember(Checkpoint(row, true));
          last := Some(row);
        }
        var next := NextBatch(span, row, end);
        assert prompt[..next] == prompt[..row] + prompt[row..next];
        rows := rows + prompt[row..next];
        if !replay {
          stored := next;
        }
        liveRow := next;
        row := next;
      }
      return true;
    }

    /** The stored checkpoint with the highest row that is at most `keep`. */
    method FindBase(keep: nat) returns (base: Option<Checkpoint>)
      ensures base.Some? ==> base.value in checkpoints && base.value.row <= keep
      ensures forall c :: c in checkpoints && c.row <= keep ==> base.Some? && c.row <= base.value.row
      ensures Highest(checkpoints, keep) == if base.Some? then Some(base.value.row) else None
    {
      base := None;
      for i := 0 to |checkpoints|
        invariant base.Some? ==> base.value in checkpoints && base.value.row <= keep
        invariant forall k :: 0 <= k < i && checkpoints[k].row <= keep ==>
                  base.Some? && checkpoints[k].row <= base.value.row
      {
        if checkpoints[i].row <= keep && (base.None? || checkpoints[i].row > base.value.row) {
          base := Some(checkpoints[i]);
        }
      }
    }

    /** An open request: it can be rolled back to rows that start both its prompt and, if there was one,
        the prompt cached before it. */
    ghost predicate Open(prompt: seq<Token>)
      reads this
    {
      !committed && rollback.Some? &&
      var row := rollback.value.row;
      && row <= |prompt| && row <= stored && prompt[..row] <= rows
      && (if rollbackPrompt.Some? then rollbackPrompt.value == prompt[..row] else row == 0)
    }

    /** The request is open at its base row, with the rows and the cached prompt it reuses. */
    ghost predicate OpenAt(r: Request, base: nat, live: nat, cached0: Option<seq<Token>>)
      requires r.prompt != []
      reads this
    {
      && Open(r.prompt) && rollback.value.row == base <= EvalEnd(r) && |checkpoints| <= 4
      && liveRow == live && cached == cached0
      && rollbackPrompt == if cached.Some? then Some(Take(cached.value, base)) else None
    }

    /** Choose the base and open the transaction. The base is the highest checkpoint of the reusable rows;
        without one everything is forgotten. */
    method OpenRequest(r: Request) returns (ok: bool)
      requires Between() && WellFormed(r)
      modifies this
      ensures ok == old(Opens(r))
      ensures ok ==> Matches() && OpenAt(r, old(BaseRow(r)), old(LiveAtStart(r)), old(CachedAtStart(r)))
      ensures ok && old(Reuses(r)).Some? ==>
                rollback.value in checkpoints && checkpoints == old(checkpoints) && rows == old(rows)
      ensures ok && old(Reuses(r)).None? ==> rollback.value == Checkpoint(0, false) && rows == []
      // The base is the highest checkpoint the request can use; if there is one, nothing is forgotten.
      ensures ok && !r.reset ==>
                forall c :: c in old(checkpoints) && old(Usable(c, r)) ==>
                  && c.row <= rollback.value.row && rollback.value in old(checkpoints)
                  && rows == old(rows) && cached == old(cached)
      ensures ok && rollback.value.row > 0 ==> !r.reset && (var b := rollback.value; old(Usable(b, r)))
      ensures !ok ==> Between() && rows == [] && cached.None? && liveRow == 0
    {
      hide CommonPrefix, Highest, Reuses, Matches, OpenAt;
      HighestUsable(r);
      ok := ChooseBase(r);
    }

    method ChooseBase(r: Request) returns (ok: bool)
      requires Between() && WellFormed(r)
      modifies this
      ensures ok == old(Opens(r))
      ensures ok ==> Matches() && OpenAt(r, old(BaseRow(r)), old(LiveAtStart(r)), old(CachedAtStart(r)))
      ensures ok ==> rollback.Some? && rollback.value.row == old(BaseRow(r))
      ensures ok && old(Reuses(r)).Some? ==> rollback.value in checkpoints && checkpoints == old(checkpoints)
      ensures ok && old(Reuses(r)).Some? ==> rows == old(rows) && cached == old(cached)
      ensures ok && old(Reuses(r)).None? ==> rollback.value == Checkpoint(0, false) && rows == []
      ensures !ok ==> Between() && rows == [] && cached.None? && liveRow == 0
    {
      hide CommonPrefix, Highest;
      if r.reset {
        ClearAll();
      }
      ghost var lcp := CommonPrefix(r.prompt, Cached());
      var keep := Reusable(r, Cached(), liveRow);
      var base := FindBase(keep);
      if base.None? {
        ClearAll();
        if !r.saves(0) {
          return false;
        }
        base := Some(Checkpoint(0, false));
      }
      var row := base.value.row;
      rollback := base;
      rollbackPrompt := if cached.Some? then Some(Take(cached.value, row)) else None;
      committed := false;
      assert row > 0 ==> r.prompt[..row] == r.prompt[..lcp][..row] == Cached()[..lcp][..row] == Cached()[..row];
      return true;
    }

    /** What a request that was not finished leaves behind, before it is undone. */
    ghost predicate Leaves(r: Request, e: End, base: nat, rows0: seq<Token>, live: nat, cached0: Option<seq<Token>>)
      requires WellFormed(r)
      reads this
    {
      match e
      case Unrestored => OpenAt(r, base, live, cached0) && rows == if r.base.NoDraft? then Take(rows0, base) else rows0
      case Halted(row) => OpenAt(r, base, row, cached0) && Follows(Text(r))
      case Unrewound(query) => OpenAt(r, base, EvalEnd(r), cached0) && query <= |r.prompt| && rows == r.prompt[..query]
      case Unrecorded =>
        && Open(r.prompt) && rollback.value.row == base && |checkpoints| <= 4 && cached == Some(Text(r))
        && liveRow == r.nPast && rows == Text(r)[..r.nPast]
        && rollbackPrompt == if cached0.Some? then Some(Take(cached0.value, base)) else None
      case Finished => false
    }

    /** Prefill: restore the base, decode up to the query and through it, and perhaps replay the query. */
    method Prefill(r: Request) returns (ok: bool)
      requires Between() && WellFormed(r)
      modifies this
      ensures ok <==> old(Opens(r)) && r.base.Fine? && Breakdown(r, old(BaseRow(r))).None?
      ensures ok ==> OpenAt(r, old(BaseRow(r)), EvalEnd(r), old(CachedAtStart(r)))
      ensures ok ==> rows == r.prompt[..EvalEnd(r)] && stored == EvalEnd(r)
      ensures ok ==> Marked(r, if old(BaseRow(r)) <= r.query then r.query else old(BaseRow(r)))
      ensures !old(Opens(r)) ==> Between() && rows == [] && cached.None? && liveRow == 0
      ensures !ok && old(Opens(r)) ==>
                Leaves(r, Ends(r, old(BaseRow(r))), old(BaseRow(r)), old(rows)[..old(LiveAtStart(r))],
                       old(LiveAtStart(r)), old(CachedAtStart(r)))
    {
      hide CommonPrefix, Highest, Breakdown, Reuses, Opens, Marked, Usable;
      ok := OpenRequest(r);
      if ok {
        ok := Restore(rollback.value, true, r.base);
        if ok {
          ok := Evaluate(r, rollback.value.row, cached);
        }
      }
    }

    method Evaluate(r: Request, base: nat, ghost cached0: Option<seq<Token>>) returns (ok: bool)
      requires WellFormed(r) && OpenAt(r, base, base, cached0) && r.base.Fine?
      requires rows == r.prompt[..base] && stored == base
      modifies this`rows, this`stored, this`liveRow, this`checkpoints
      ensures ok <==> Breakdown(r, base).None?
      ensures ok ==> Marked(r, QueryRow(r, base))
      ensures ok ==> OpenAt(r, base, EvalEnd(r), cached0) && rows == r.prompt[..EvalEnd(r)] && stored == EvalEnd(r)
      ensures !ok ==> Leaves(r, Breakdown(r, base).value, base, [], 0, cached0)
    {
      hide SpanEnd, Replayed, LastImage, Thinned, Lower;
      var query := QueryRow(r, base);
      ok := DecodeSpan(r.prompt, base, query, false, r.first);
      Longer(r.prompt, r.gen);
      if !ok || !r.saves(1) {
        return false;
      }
      Remember(Checkpoint(query, false));
      ok := Probe(r, base, query, cached0);
    }

    /** The end of the prompt can be gone back to, and the query too unless it spans images. */
    ghost predicate Marked(r: Request, query: nat)
      requires WellFormed(r)
      reads this
    {
      && Newest(Checkpoint(EvalEnd(r), false))
      && (query < EvalEnd(r) && (forall k: nat :: !r.probe.image(k)) ==> Checkpoint(query, false) in checkpoints)
    }

    /** From the query on. */
    method Probe(r: Request, ghost base: nat, query: nat, ghost cached0: Option<seq<Token>>) returns (ok: bool)
      requires WellFormed(r) && OpenAt(r, base, query, cached0) && base <= query <= EvalEnd(r)
      requires rows == r.prompt[..query] && stored == query && Newest(Checkpoint(query, false))
      modifies this`rows, this`stored, this`liveRow, this`checkpoints
      ensures ok <==> Probed(r, query).None?
      ensures ok ==> Marked(r, query)
      ensures ok ==> OpenAt(r, base, EvalEnd(r), cached0) && rows == r.prompt[..EvalEnd(r)] && stored == EvalEnd(r)
      ensures !ok ==> Leaves(r, Probed(r, query).value, base, [], 0, cached0)
    {
      hide SpanEnd, Replayed, LastImage, Thinned, Lower, Marked, Follows;
      assert r.prompt[..query][..base] == r.prompt[..base];
      ok := DecodeSpan(r.prompt, query, EvalEnd(r), false, r.probe);
      assert r.prompt[..EvalEnd(r)][..base] == r.prompt[..base];
      if ok && r.replays {
        ok := Replay(r, base, query, cached0);
        if !ok {
          return;
        }
      }
      Longer(r.prompt, r.gen);
      if !ok || !r.saves(2) {
        return false;
      }
      Conclude(r, query);
    }

    /** Remember the end of the prompt. */
    method Conclude(r: Request, ghost query: nat)
      requires WellFormed(r) && query <= EvalEnd(r) && |checkpoints| <= 4
      requires (forall k: nat :: !r.probe.image(k)) ==> Newest(Checkpoint(query, false))
      modifies this`checkpoints
      ensures |checkpoints| <= 4 && Marked(r, query)
    {
      hide Thinned, Lower;
      if query < EvalEnd(r) && Newest(Checkpoint(query, false)) {
        LowerLast(checkpoints, EvalEnd(r));
      }
      Remember(Checkpoint(EvalEnd(r), false));
    }

    method Replay(r: Request, ghost base: nat, query: nat, ghost cached0: Option<seq<Token>>) returns (ok: bool)
      requires WellFormed(r) && OpenAt(r, base, EvalEnd(r), cached0) && base <= query <= EvalEnd(r)
      requires rows == r.prompt[..EvalEnd(r)] && stored == EvalEnd(r)
      modifies this`rows, this`stored, this`liveRow, this`checkpoints
      ensures (ok <==> Replayed(r, query).None?) && checkpoints == old(checkpoints)
      ensures ok ==> OpenAt(r, base, EvalEnd(r), cached0) && rows == r.prompt[..EvalEnd(r)] && stored == EvalEnd(r)
      ensures !ok ==> Leaves(r, Replayed(r, query).value, base, [], 0, cached0)
    {
      hide LastImage;
      ok := Restore(Checkpoint(query, false), false, r.rewind);
      assert r.prompt[..EvalEnd(r)][..query] == r.prompt[..query];
      assert r.prompt[..query][..base] == r.prompt[..base];
      if ok {
        ok := DecodeSpan(r.prompt, query, EvalEnd(r), true, r.again);
      }
      Longer(r.prompt, r.gen);
    }

    /** Generation computes rows of the prompt followed by the generated tokens. One that fails raises the
        live row too, for the tokens it decoded, and leaves junk. */
    method Generate(r: Request, ghost base: nat, ghost cached0: Option<seq<Token>>) returns (ok: bool)
      requires WellFormed(r) && OpenAt(r, base, EvalEnd(r), cached0)
      requires rows == r.prompt[..EvalEnd(r)] && stored == EvalEnd(r)
      modifies this`rows, this`stored, this`liveRow
      ensures ok == r.generates && OpenAt(r, base, r.nPast, cached0) && Follows(Text(r))
      ensures ok ==> rows == Text(r)[..r.nPast] && stored == r.nPast
    {
      ok := r.generates;
      rows := rows + Text(r)[EvalEnd(r)..r.nPast];
      stored, liveRow := r.nPast, r.nPast;
      assert rows == Text(r)[..r.nPast];
      assert r.prompt[..base] == Text(r)[..r.nPast][..base];
      if !ok {
        rows, stored := rows + r.junk, stored + |r.junk|;
      }
    }

    /** Commit: the active prompt with what was generated becomes the cached prompt. */
    method Commit(r: Request) returns (ok: bool)
      requires WellFormed(r) && Open(r.prompt) && rows == Text(r)[..r.nPast] && stored == r.nPast && |checkpoints| <= 4
      modifies this
      ensures ok == r.saves(3) && cached == Some(Text(r)) && liveRow == r.nPast && rows == old(rows)
      ensures ok ==> Between()
      ensures !ok ==> Open(r.prompt) && |checkpoints| <= 4
      ensures !ok ==> rollback == old(rollback) && rollbackPrompt == old(rollbackPrompt)
    {
      hide Thinned, Lower;
      cached := Some(Text(r));
      liveRow := stored;
      if !r.saves(3) {
        return false;
      }
      Remember(Checkpoint(liveRow, false));
      committed, rollback, rollbackPrompt := true, None, None;
      return true;
    }

    /** Prefill, generate, commit. */
    method Attempt(r: Request) returns (done: bool)
      requires Between() && WellFormed(r)
      modifies this
      ensures done <==> old(Opens(r)) && Ends(r, old(BaseRow(r))).Finished?
      ensures done ==> Between() && cached == Some(Text(r)) && liveRow == r.nPast
      ensures !old(Opens(r)) ==> Between() && rows == [] && cached.None? && liveRow == 0
      ensures !done && old(Opens(r)) ==>
                Leaves(r, Ends(r, old(BaseRow(r))), old(BaseRow(r)), old(rows)[..old(LiveAtStart(r))],
                       old(LiveAtStart(r)), old(CachedAtStart(r)))
    {
      hide CommonPrefix, Highest, Breakdown, Reuses, Opens;
      done := Prefill(r);
      if done {
        done := Generate(r, old(BaseRow(r)), old(CachedAtStart(r)));
        if done {
          done := Commit(r);
        }
      }
    }

    lemma Longer(text: seq<Token>, more: seq<Token>)
      ensures Follows(text) ==> Follows(text + more)
    {
      if Follows(text) {
        assert (text + more)[..liveRow] == text[..liveRow];
      }
    }

    /** However a request ended, it can be rolled back. */
    lemma LeavesOpen(r: Request, e: End, base: nat, rows0: seq<Token>, live: nat, cached0: Option<seq<Token>>)
      requires WellFormed(r) && Leaves(r, e, base, rows0, live, cached0)
      ensures Open(r.prompt) && rollback.value.row == base && |checkpoints| <= 4
      ensures rollbackPrompt == if cached0.Some? then Some(Take(cached0.value, base)) else None
    {
    }

    /** Undo a request that was not finished. If that works, the server is between requests at the base row. */
    method Undo(r: Request, ghost e: End, ghost base: nat, ghost rows0: seq<Token>, ghost cached0: Option<seq<Token>>)
      requires WellFormed(r) && Leaves(r, e, base, rows0, |rows0|, cached0) && r.undo.Fine?
      requires base <= |rows0| && rows0[..base] == r.prompt[..base] && rows0 <= Tokens(cached0)
      modifies this
      ensures Between() && liveRow == base && rows == rows0[..base]
      ensures cached == if cached0.Some? then Some(Take(cached0.value, base)) else None
    {
      hide Leaves;
      LeavesOpen(r, e, base, rows0, |rows0|, cached0);
      FinishRequest(r.undo);
    }

    /** If undoing fails, the live rows start the cached prompt only under a condition on the request. */
    method FailToUndo(r: Request, ghost e: End, ghost base: nat, ghost rows0: seq<Token>,
                      ghost cached0: Option<seq<Token>>)
      requires WellFormed(r) && base <= EvalEnd(r) && Leaves(r, e, base, rows0, |rows0|, cached0) && !r.undo.Fine?
      requires (e.Halted? ==> base <= e.row) && (e.Unrewound? ==> base <= e.query <= EvalEnd(r))
      requires base <= |rows0| && rows0 <= Tokens(cached0)
      modifies this
      ensures rollback.None? && rollbackPrompt.None?
      ensures Follows(Cached()) <==> Agrees(r, e, base, |rows0|, cached0)
    {
      hide CommonPrefix;
      ghost var rows1 := rows;
      FinishRequest(r.undo);
      assert rows == if r.undo.NoDraft? then Take(rows1, base) else rows1;
      if e.Halted? || e.Unrewound? {
        if liveRow <= |rows| {
          Agreement(r, Tokens(cached0));
        }
      }
    }

    /** A request is a transaction. It is committed exactly when it could be opened and nothing on its way
        failed. If it was not and undoing works, the server is back at the base row, with the rows it had up
        to there and the prompt cached before cut to them. No rollback record is left. */
    method Handle(r: Request) returns (done: bool)
      requires Between() && WellFormed(r)
      modifies this
      ensures rollback.None? && rollbackPrompt.None?
      ensures done <==> old(Opens(r)) && Ends(r, old(BaseRow(r))).Finished?
      ensures done ==> Between() && cached == Some(Text(r)) && liveRow == r.nPast
      ensures !done && r.undo.Fine? ==> Between() && liveRow == old(BaseRow(r)) && rows == old(rows)[..old(BaseRow(r))]
      ensures !done && r.undo.Fine? ==>
                cached == if old(CachedAtStart(r)).Some? then Some(old(Cached())[..old(BaseRow(r))]) else None
      // No row is given up that a usable checkpoint could have kept.
      ensures !done && r.undo.Fine? && !r.reset ==>
                forall c :: c in old(checkpoints) && old(Usable(c, r)) ==>
                  c.row <= liveRow && cached.Some? == old(cached).Some?
      ensures !done && r.undo.Fine? && liveRow > 0 ==>
                !r.reset && exists c :: c in old(checkpoints) && old(Usable(c, r)) && c.row == liveRow
      ensures !done && old(Opens(r)) && !r.undo.Fine? ==>
                (Follows(Cached()) <==>
                 Agrees(r, Ends(r, old(BaseRow(r))), old(BaseRow(r)), old(LiveAtStart(r)), old(CachedAtStart(r))))
    {
      hide CommonPrefix, Highest, Reuses, Ends, Agrees, Leaves;
      ghost var base, rows0, cached0, begun := BaseRow(r), rows[..LiveAtStart(r)], CachedAtStart(r), Opens(r);
      StartsAlike(r);
      HighestUsable(r);
      done := Attempt(r);
      if !done && begun {
        LeavesOpen(r, Ends(r, base), base, rows0, |rows0|, cached0);
      }
      if done || rollback.None? {
        FinishRequest(r.undo);
      } else if r.undo.Fine? {
        Undo(r, Ends(r, base), base, rows0, cached0);
      } else {
        FailToUndo(r, Ends(r, base), base, rows0, cached0);
      }
    }

    /** The rows a request starts from are rows of its prompt and of the prompt cached before. */
    lemma StartsAlike(r: Request)
      requires Between() && WellFormed(r)
      ensures BaseRow(r) <= LiveAtStart(r) <= |rows| && rows[..LiveAtStart(r)] <= Tokens(CachedAtStart(r))
      ensures rows[..BaseRow(r)] == r.prompt[..BaseRow(r)]
    {
      WithinPrefix(r.prompt, Cached(), BaseRow(r));
    }

    /** Live rows of the request's text start another text if they are within what both share. */
    lemma Agreement(r: Request, text0: seq<Token>)
      requires Follows(Text(r))
      ensures Follows(text0) <==> liveRow <= CommonPrefix(Text(r), text0)
    {
      hide CommonPrefix;
      if liveRow <= |text0| {
        WithinPrefix(Text(r), text0, liveRow);
      }
    }

    /** A request whose rollback works stores its rows, or keeps what it shares with the rows before; all of
        them, if it continues them. */
    method Serve(r: Request) returns (done: bool)
      requires Between() && WellFormed(r) && r.undo.Fine?
      modifies this
      ensures Between() && (Smooth(r) ==> done)
      ensures done ==> rows == Text(r)[..r.nPast]
      ensures !done ==> rows <= old(rows) && (old(Continues(r, rows)) ==> rows == old(rows))
    {
      hide CommonPrefix, Highest, Reuses, Ends, Agrees, Breakdown, Smooth;
      if Continues(r, rows) {
        ContinuesLive(r);
      }
      SmoothOpens(r);
      done := Handle(r);
    }

    lemma SmoothOpens(r: Request)
      requires WellFormed(r)
      ensures Smooth(r) ==> Opens(r) && Ends(r, BaseRow(r)).Finished?
    {
      if Smooth(r) {
        SmoothFinishes(r, BaseRow(r));
      }
    }

    /** A request that continues the live rows starts from them. */
    lemma ContinuesLive(r: Request)
      requires Between() && WellFormed(r) && Continues(r, rows)
      ensures BaseRow(r) == liveRow
    {
      WithinPrefix(r.prompt, Cached(), liveRow);
      assert Reusable(r, Cached(), liveRow) == liveRow;
    }
  }

  /** The prompt starts with `text` and leaves something to evaluate. */
  predicate Continues(r: Request, text: seq<Token>)
    requires r.prompt != []
  {
    !r.reset && text <= r.prompt && |text| + (if r.spec then 0 else 1) <= EvalEnd(r)
  }

  /** Whether the live rows still start the cached prompt after a failed request that could not be undone,
      by where the request ended: the rows it had computed must be rows of the prompt cached before, and
      if the undoing cut the target down to the base row, there must be none above it. */
  predicate Agrees(r: Request, e: End, base: nat, live: nat, cached0: Option<seq<Token>>)
    requires WellFormed(r)
  {
    var shared := CommonPrefix(Text(r), Tokens(cached0));
    match e
    case Unrestored => r.base.NoDraft? || r.undo.NoDraft? ==> live == base
    case Halted(row) => row <= shared && (r.undo.NoDraft? ==> row == base)
    case Unrewound(query) => EvalEnd(r) <= shared && query == EvalEnd(r) && (r.undo.NoDraft? ==> query == base)
    case Unrecorded => r.undo.NoDraft? ==> r.nPast == base
    case Finished => true
  }

  function Tokens(cached: Option<seq<Token>>): seq<Token> {
    if cached.Some? then cached.value else []
  }

  ghost predicate AllFormed(requests: seq<Request>) {
    forall i :: 0 <= i < |requests| ==> WellFormed(requests[i])
  }

  function Min(a: nat, b: nat): nat { if a < b then a else b }

  /** The rows of the last finished request, or those there were at first. */
  ghost function Committed(requests: seq<Request>, outcomes: seq<bool>, rows0: seq<Token>): seq<Token>
    requires |outcomes| <= |requests| && AllFormed(requests)
  {
    if outcomes == [] then rows0 else
      var n := |outcomes| - 1;
      if outcomes[n] then Text(requests[n])[..requests[n].nPast] else Committed(requests, outcomes[..n], rows0)
  }

  /** All requests since the last finished one continued its rows. */
  ghost predicate Intact(requests: seq<Request>, outcomes: seq<bool>, rows0: seq<Token>)
    requires |outcomes| <= |requests| && AllFormed(requests)
  {
    outcomes == [] ||
    var n := |outcomes| - 1;
    outcomes[n] || (Continues(requests[n], Committed(requests, outcomes[..n], rows0)) &&
                    Intact(requests, outcomes[..n], rows0))
  }

  /** The rows stored are the first rows of what was last committed, and all of it if it is intact. */
  ghost predicate Served(rows: seq<Token>, requests: seq<Request>, outcomes: seq<bool>, rows0: seq<Token>)
    requires |outcomes| <= |requests| && AllFormed(requests)
  {
    && rows <= Committed(requests, outcomes, rows0)
    && (Intact(requests, outcomes, rows0) ==> rows == Committed(requests, outcomes, rows0))
  }

  lemma ServedMore(requests: seq<Request>, outcomes: seq<bool>, rows0: seq<Token>, rows: seq<Token>, done: bool,
                   next: seq<Token>)
    requires |outcomes| < |requests| && AllFormed(requests) && Served(rows, requests, outcomes, rows0)
    requires var r := requests[|outcomes|];
      if done then next == Text(r)[..r.nPast] else next <= rows && (Continues(r, rows) ==> next == rows)
    ensures Served(next, requests, outcomes + [done], rows0)
  {
    var more := outcomes + [done];
    assert more[..|outcomes|] == outcomes;
  }

  /** Over any sequence of requests whose rollbacks work, the rows stored between requests are the first
      rows of the cached prompt and of what was last committed. They are all of it as long as the requests
      that fail continue it. Requests for which nothing goes wrong are finished. */
  method ServeAll(s: Server, requests: seq<Request>) returns (outcomes: seq<bool>)
    requires s.Between() && AllFormed(requests) && forall i :: 0 <= i < |requests| ==> requests[i].undo.Fine?
    modifies s
    ensures s.Between() && |outcomes| == |requests|
    ensures forall i :: 0 <= i < |requests| && Smooth(requests[i]) ==> outcomes[i]
    ensures Served(s.rows, requests, outcomes, old(s.rows))
  {
    hide Served, Smooth;
    outcomes := [];
    NoneServed(requests, s.rows);
    for i := 0 to |requests|
      invariant s.Between() && |outcomes| == i
      invariant forall j :: 0 <= j < i && Smooth(requests[j]) ==> outcomes[j]
      invariant Served(s.rows, requests, outcomes, old(s.rows))
    {
      ghost var rows := s.rows;
      var done := s.Serve(requests[i]);
      ServedMore(requests, outcomes, old(s.rows), rows, done, s.rows);
      outcomes := outcomes + [done];
    }
  }

  lemma NoneServed(requests: seq<Request>, rows: seq<Token>)
    requires AllFormed(requests)
    ensures Served(rows, requests, [], rows)
  {
  }

  /** When undoing fails the property can be lost: the first request on a fresh server computes a row, fails,
      and is not rolled back; the row then counts as live but starts no cached prompt. */
  method FailedRollback(r: Request) returns (s: Server)
    requires WellFormed(r) && r.saves(0) && !r.undo.Fine? && Ends(r, 0).Halted? && Ends(r, 0).row > 0
    ensures fresh(s) && !s.Follows(s.Cached())
  {
    s := new Server();
    var _ := s.Handle(r);
  }

  /** Such a request: one token, decoded without trouble, and nothing generated. */
  function OneToken(t: Token): (r: Request) {
    var span := Span(k => false, k => k + 1, k => false, k => true, []);
    Request([t], false, false, 0, false, span, span, span, k => true, Fine, Fine, NoState, [], 1, false, [])
  }

  method LostRow(t: Token) returns (s: Server)
    ensures fresh(s) && !s.Follows(s.Cached())
  {
    var r := OneToken(t);
    assert Probed(r, 0).None?;
    s := FailedRollback(r);
  }
}
