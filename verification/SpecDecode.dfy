/** Speculative decoding against a target context: draft, verify, accept or roll back.
    The plain one-token loop is the reference; the speculative loop must emit the same tokens. */
module SpecDecode {

  type Token = int

  /** A deterministic language model with its sampling rule. `next` sees the attention rows, the tokens
      folded into the recurrent state, and the tokens the sampler has accepted so far, so a wrong
      rollback of any of the three can change the sampled token. */
  datatype Model = Model(next: (seq<Token>, seq<Token>, seq<Token>) -> Token, eog: Token -> bool)

  /** How the recurrent part of the target is rolled back after a rejected draft. */
  datatype Mode =
    | Replay(capacity: nat)  // recorded updates, folded up to the accepted row
    | Planes(depth: nat)     // `depth` per-token snapshots; host checkpoint beyond that
    | HostCkpt               // host checkpoint for every draft
    | Dense                  // no recurrent state

  /** The host checkpoint is taken, and may be restored, for drafts the mode cannot trim itself. */
  predicate NeedsHost(mode: Mode, nDraft: nat) {
    mode.HostCkpt? || (mode.Planes? && mode.depth > 0 && nDraft > mode.depth)
  }

  /** A hybrid target with no snapshot planes always runs on host checkpoints. */
  predicate ValidMode(mode: Mode) {
    mode.Planes? ==> mode.depth > 0
  }

  /** The next k tokens after `ctx`, end-of-generation tokens included. */
  ghost function Chain(m: Model, ctx: seq<Token>, hist: seq<Token>, k: nat): (s: seq<Token>)
    ensures |s| == k
    decreases k
  {
    if k == 0 then [] else
      var t := m.next(ctx, ctx, hist);
      [t] + Chain(m, ctx + [t], hist + [t], k - 1)
  }

  /** What the plain loop emits: at most k tokens, stopping before end-of-generation. */
  ghost function Plain(m: Model, ctx: seq<Token>, hist: seq<Token>, k: nat): seq<Token>
    decreases k
  {
    if k == 0 then [] else
      var t := m.next(ctx, ctx, hist);
      if m.eog(t) then [] else [t] + Plain(m, ctx + [t], hist + [t], k - 1)
  }

  ghost predicate NoEog(m: Model, s: seq<Token>) {
    forall i :: 0 <= i < |s| ==> !m.eog(s[i])
  }

  lemma {:induction false} ChainSplit(m: Model, ctx: seq<Token>, hist: seq<Token>, j: nat, k: nat)
    ensures Chain(m, ctx, hist, j + k)
         == Chain(m, ctx, hist, j) + Chain(m, ctx + Chain(m, ctx, hist, j), hist + Chain(m, ctx, hist, j), k)
    decreases j
  {
    if j == 0 {
      assert ctx + [] == ctx && hist + [] == hist;
    } else {
      var t := m.next(ctx, ctx, hist);
      var rest := Chain(m, ctx + [t], hist + [t], j - 1);
      ChainSplit(m, ctx + [t], hist + [t], j - 1, k);
      assert ctx + [t] + rest == ctx + ([t] + rest);
      assert hist + [t] + rest == hist + ([t] + rest);
    }
  }

  /** A shorter chain is a prefix of a longer one. */
  lemma ChainPrefix(m: Model, ctx: seq<Token>, hist: seq<Token>, j: nat, k: nat)
    requires j <= k
    ensures Chain(m, ctx, hist, k)[..j] == Chain(m, ctx, hist, j)
  {
    ChainSplit(m, ctx, hist, j, k - j);
  }

  lemma ChainSnoc(m: Model, ctx: seq<Token>, hist: seq<Token>, j: nat)
    ensures var s := Chain(m, ctx, hist, j);
            Chain(m, ctx, hist, j + 1) == s + [m.next(ctx + s, ctx + s, hist + s)]
  {
    var s := Chain(m, ctx, hist, j);
    ChainSplit(m, ctx, hist, j, 1);
    assert Chain(m, ctx + s, hist + s, 1) == [m.next(ctx + s, ctx + s, hist + s)];
  }

  /** Tokens of the chain with no end-of-generation among them start the plain output. */
  lemma {:induction false} ChainIsPlainPrefix(m: Model, ctx: seq<Token>, hist: seq<Token>, j: nat, k: nat)
    requires j <= k && NoEog(m, Chain(m, ctx, hist, j))
    ensures var s := Chain(m, ctx, hist, j);
            Plain(m, ctx, hist, k) == s + Plain(m, ctx + s, hist + s, k - j)
    decreases j
  {
    var s := Chain(m, ctx, hist, j);
    if j == 0 {
      assert ctx + s == ctx && hist + s == hist;
    } else {
      var t := m.next(ctx, ctx, hist);
      var ctx', hist' := ctx + [t], hist + [t];
      var rest := Chain(m, ctx', hist', j - 1);
      assert s == [t] + rest;
      assert !m.eog(s[0]);
      assert NoEog(m, rest) by {
        forall i | 0 <= i < |rest| ensures !m.eog(rest[i]) {
          assert rest[i] == s[i + 1];
        }
      }
      ChainIsPlainPrefix(m, ctx', hist', j - 1, k - 1);
      assert ctx' + rest == ctx + s && hist' + rest == hist + s;
      var tail := Plain(m, ctx + s, hist + s, k - j);
      assert Plain(m, ctx', hist', k - 1) == rest + tail;
      assert [t] + (rest + tail) == s + tail;
    }
  }

  /** The target context: attention rows, and the tokens folded into its recurrent state. */
  class Target {
    const mode: Mode
    var rows: seq<Token>
    var rec: seq<Token>

    constructor (mode: Mode, rows: seq<Token>)
      ensures this.mode == mode && this.rows == rows && this.rec == rows
    {
      this.mode, this.rows, this.rec := mode, rows, rows;
    }

    method Decode(start: nat, batch: seq<Token>)
      requires start == |rows|
      modifies this
      ensures rows == old(rows) + batch && rec == old(rec) + batch
    {
      rows := rows + batch;
      rec := rec + batch;
    }

    /** Folds the first `keep` recorded rows after `base` and drops the rest of the recording. */
    method ReplayCommit(base: nat, keep: nat)
      requires mode.Replay? && base + keep <= |rec|
      modifies this`rec
      ensures rec == old(rec)[..base + keep]
    {
      rec := rec[..base + keep];
    }

    /** Removes every row from `begin` on. The recurrent state follows only as far as its
        snapshot planes reach; a dense target has none. */
    method RemoveFrom(begin: nat)
      modifies this
      ensures rows == if begin <= |old(rows)| then old(rows)[..begin] else old(rows)
      ensures rec == if begin < |old(rec)| && (mode.Dense? ||
                        (mode.Planes? && begin > 0 && |old(rec)| - begin <= mode.depth))
                     then old(rec)[..begin] else old(rec)
    {
      if begin < |rec| && (mode.Dense? || (mode.Planes? && begin > 0 && |rec| - begin <= mode.depth)) {
        rec := rec[..begin];
      }
      if begin <= |rows| {
        rows := rows[..begin];
      }
    }

    method LoadRecurrent(saved: seq<Token>)
      modifies this`rec
      ensures rec == saved
    {
      rec := saved;
    }
  }

  /** The sampler, with the tokens it has accepted. */
  class Sampler {
    var accepted: seq<Token>

    constructor (accepted: seq<Token>)
      ensures this.accepted == accepted
    {
      this.accepted := accepted;
    }

    /** Sample a token from the last of some rows, and accept it. */
    method Next(m: Model, rows: seq<Token>, rec: seq<Token>) returns (id: Token)
      modifies this
      ensures id == m.next(rows, rec, old(accepted)) && accepted == old(accepted) + [id]
    {
      id := m.next(rows, rec, accepted);
      accepted := accepted + [id];
    }
  }

  /** The plain loop: sample, stop at end-of-generation, emit, decode one row. */
  method PlainLoop(m: Model, tgt: Target, prompt: seq<Token>, nPredict: nat) returns (gen: seq<Token>)
    requires tgt.rows == tgt.rec == prompt
    modifies tgt
    ensures gen == Plain(m, prompt, [], nPredict)
    ensures tgt.rows == tgt.rec == prompt + gen
  {
    gen := [];
    var smpl := new Sampler([]);
    assert prompt + [] == prompt;
    for nGen := 0 to nPredict
      invariant |gen| == nGen && smpl.accepted == gen && fresh(smpl)
      invariant tgt.rows == tgt.rec == prompt + gen
      invariant Plain(m, prompt, [], nPredict) == gen + Plain(m, prompt + gen, gen, nPredict - nGen)
    {
      var t := smpl.Next(m, tgt.rows, tgt.rec);
      if m.eog(t) {
        return;
      }
      assert prompt + gen + [t] == prompt + (gen + [t]);
      gen := gen + [t];
      tgt.Decode(|tgt.rows|, [t]);
    }
  }

  /** The contract of sampling a verified draft: the ids are what the model would have produced,
      they agree with the draft up to the last one, and sampling stopped at the first mismatch. */
  ghost predicate Verified(m: Model, ctx: seq<Token>, hist: seq<Token>, draft: seq<Token>, ids: seq<Token>) {
    && 1 <= |ids| <= |draft| + 1
    && ids == Chain(m, ctx, hist, |ids|)
    && (forall i :: 0 <= i < |ids| - 1 ==> ids[i] == draft[i])
    && (|ids| <= |draft| ==> draft[|ids| - 1] != ids[|ids| - 1])
  }

  lemma VerifiedIsUnique(m: Model, ctx: seq<Token>, hist: seq<Token>, draft: seq<Token>, a: seq<Token>, b: seq<Token>)
    requires Verified(m, ctx, hist, draft, a) && Verified(m, ctx, hist, draft, b)
    ensures a == b
  {
    var k := if |a| < |b| then |a| else |b|;
    ChainPrefix(m, ctx, hist, k, |a|);
    ChainPrefix(m, ctx, hist, k, |b|);
    assert a[..k][k - 1] == b[..k][k - 1];
  }

  /** Sample position by position over the rows of one verify batch. Row `base` holds the last
      accepted token; the draft occupies the rows after it. The sampler accepts every id. */
  method SampleAndAccept(m: Model, smpl: Sampler, rows: seq<Token>, rec: seq<Token>, base: nat, draft: seq<Token>)
    returns (ids: seq<Token>)
    requires base < |rows| && rec == rows && rows[base + 1..] == draft
    modifies smpl
    ensures Verified(m, rows[..base + 1], old(smpl.accepted), draft, ids)
    ensures smpl.accepted == old(smpl.accepted) + ids
  {
    ghost var ctx, hist := rows[..base + 1], smpl.accepted;
    ids := [];
    var i := 0;
    while i < |draft|
      invariant 0 <= i <= |draft| && |ids| == i
      invariant ids == draft[..i] && smpl.accepted == hist + ids
      invariant ids == Chain(m, ctx, hist, i)
    {
      assert rows[..base + 1 + i] == ctx + ids;
      var id := smpl.Next(m, rows[..base + 1 + i], rec[..base + 1 + i]);
      ChainSnoc(m, ctx, hist, i);
      ids := ids + [id];
      if draft[i] != id {
        return;
      }
      i := i + 1;
    }
    assert rows == ctx + ids;
    ChainSnoc(m, ctx, hist, i);
    var last := smpl.Next(m, rows, rec);
    ids := ids + [last];
  }

  /** Truncation of the sampled ids: first to the remaining budget, then after the first
      end-of-generation token. */
  ghost predicate TrimmedTo(m: Model, full: seq<Token>, room: nat, ids: seq<Token>) {
    && |ids| <= |full| && |ids| <= room && ids == full[..|ids|]
    && (forall i :: 0 <= i < |ids| - 1 ==> !m.eog(ids[i]))
    && (|ids| < |full| && |ids| < room ==> |ids| > 0 && m.eog(ids[|ids| - 1]))
  }

  method Trim(m: Model, full: seq<Token>, room: nat) returns (ids: seq<Token>)
    requires |full| > 0 && room > 0
    ensures TrimmedTo(m, full, room, ids) && |ids| > 0
  {
    ids := if |full| <= room then full else full[..room];
    for i := 0 to |ids|
      invariant ids == full[..|ids|] && |ids| == if |full| <= room then |full| else room
      invariant forall j :: 0 <= j < i ==> !m.eog(ids[j])
    {
      if m.eog(ids[i]) {
        ids := ids[..i + 1];
        return;
      }
    }
  }

  lemma TrimIsUnique(m: Model, full: seq<Token>, room: nat, a: seq<Token>, b: seq<Token>)
    requires room > 0 && |full| > 0
    requires TrimmedTo(m, full, room, a) && TrimmedTo(m, full, room, b)
    ensures a == b
  {
    var k := if |a| < |b| then |a| else |b|;
    assert forall i :: 0 <= i < k ==> a[i] == full[i] == b[i];
  }

  /** The abort callback as a schedule of poll answers; it answers yes once the schedule is over. */
  predicate Aborts(schedule: seq<bool>, poll: nat) {
    poll >= |schedule| || schedule[poll]
  }

  /** The tokens emitted so far: the start of the chain, with no end-of-generation among them. */
  ghost predicate Emitted(m: Model, prompt: seq<Token>, gen: seq<Token>) {
    gen == Chain(m, prompt, [], |gen|) && NoEog(m, gen)
  }

  /** The model's next token after everything emitted ends the generation. */
  ghost predicate AtEog(m: Model, prompt: seq<Token>, gen: seq<Token>) {
    m.eog(m.next(prompt + gen, prompt + gen, gen))
  }

  /** Emitted tokens are plain tokens, and all of them once the budget or the end is reached. */
  lemma EmittedIsPlain(m: Model, prompt: seq<Token>, gen: seq<Token>, n: nat)
    requires Emitted(m, prompt, gen) && |gen| <= n
    ensures gen <= Plain(m, prompt, [], n)
    ensures |gen| == n || AtEog(m, prompt, gen) ==> gen == Plain(m, prompt, [], n)
  {
    ChainIsPlainPrefix(m, prompt, [], |gen|, n);
    assert [] + gen == gen;
  }

  lemma NothingEmitted(m: Model, prompt: seq<Token>)
    ensures Emitted(m, prompt, [])
  {
  }

  /** One accepted verify pass extends the emitted tokens. */
  lemma EmitMore(m: Model, prompt: seq<Token>, gen: seq<Token>, ids: seq<Token>, after: seq<Token>)
    requires Emitted(m, prompt, gen) && |ids| > 0 && ids == Chain(m, prompt + gen, gen, |ids|)
    requires forall i :: 0 <= i < |ids| - 1 ==> !m.eog(ids[i])
    requires after == gen + if m.eog(ids[|ids| - 1]) then ids[..|ids| - 1] else ids
    ensures Emitted(m, prompt, after)
    ensures m.eog(ids[|ids| - 1]) ==> AtEog(m, prompt, after)
  {
    hide Chain;
    var more := if m.eog(ids[|ids| - 1]) then ids[..|ids| - 1] else ids;
    ChainPrefix(m, prompt + gen, gen, |more|, |ids|);
    ChainSplit(m, prompt, [], |gen|, |more|);
    assert [] + gen == gen && ids[..|ids|] == ids;
    if m.eog(ids[|ids| - 1]) {
      ChainSnoc(m, prompt + gen, gen, |more|);
      assert prompt + gen + more == prompt + after;
    }
  }

  datatype Outcome = Finished | Aborted | Failed
  datatype Stats = Stats(nPast: nat, nGen: nat, nRestore: nat, verifyCalls: nat, polls: nat, outcome: Outcome)

  /** The ids one verify pass keeps: chain tokens that agree with the draft before the last one,
      with no end-of-generation before the last one. */
  ghost predicate Kept(m: Model, ctx: seq<Token>, hist: seq<Token>, draft: seq<Token>, room: nat, ids: seq<Token>) {
    && 1 <= |ids| <= |draft| + 1 && |ids| <= room
    && ids == Chain(m, ctx, hist, |ids|)
    && (forall i :: 0 <= i < |ids| - 1 ==> ids[i] == draft[i] && !m.eog(ids[i]))
  }

  /** The ids a verify pass over `draft` yields, as sampled and then trimmed. */
  ghost predicate Pass(m: Model, ctx: seq<Token>, hist: seq<Token>, draft: seq<Token>, room: nat, ids: seq<Token>) {
    exists full :: Verified(m, ctx, hist, draft, full) && TrimmedTo(m, full, room, ids)
  }

  /** Decode the last token and the draft as one batch, sample every row, and trim the result. The sampler
      has then accepted all that was sampled. */
  method VerifyPass(m: Model, tgt: Target, smpl: Sampler, ctx: seq<Token>, idLast: Token, draft: seq<Token>, room: nat)
    returns (ids: seq<Token>, ghost full: seq<Token>)
    requires tgt.rows == tgt.rec && tgt.rows + [idLast] == ctx && room > 0
    modifies tgt, smpl
    ensures tgt.rows == tgt.rec == ctx + draft
    ensures Kept(m, ctx, old(smpl.accepted), draft, room, ids)
    ensures Verified(m, ctx, old(smpl.accepted), draft, full) && TrimmedTo(m, full, room, ids)
    ensures smpl.accepted == old(smpl.accepted) + full
  {
    var start := |tgt.rows|;
    ghost var hist := smpl.accepted;
    tgt.Decode(start, [idLast] + draft);
    assert tgt.rows == ctx + draft;
    assert tgt.rows[..start + 1] == ctx;
    var sampled := SampleAndAccept(m, smpl, tgt.rows, tgt.rec, start, draft);
    full := sampled;
    ids := Trim(m, sampled, room);
    ChainPrefix(m, ctx, hist, |ids|, |full|);
  }

  /** Keep the verified rows, emit their tokens, and drop the rest of the batch. */
  method AcceptPass(m: Model, tgt: Target, prompt: seq<Token>, promptTgt0: seq<Token>, idLast0: Token,
                    gen0: seq<Token>, draft: seq<Token>, ids: seq<Token>, nPredict: nat)
    returns (promptTgt: seq<Token>, idLast: Token, gen: seq<Token>, hasEos: bool)
    requires ValidMode(tgt.mode) && tgt.rows == tgt.rec == prompt + gen0 + draft
    requires promptTgt0 + [idLast0] == prompt + gen0 && |gen0| < nPredict
    requires Emitted(m, prompt, gen0) && Kept(m, prompt + gen0, gen0, draft, nPredict - |gen0|, ids)
    requires NeedsHost(tgt.mode, |draft|) ==> |ids| == |draft| + 1
    modifies tgt
    ensures tgt.rows == tgt.rec == promptTgt && |promptTgt| == |promptTgt0| + |ids|
    ensures Emitted(m, prompt, gen) && (hasEos ==> AtEog(m, prompt, gen))
    ensures promptTgt + [idLast] == prompt + gen + if hasEos then [idLast] else []
    ensures gen == gen0 + if hasEos then ids[..|ids| - 1] else ids
    ensures hasEos == m.eog(ids[|ids| - 1]) && |gen| <= nPredict
  {
    var start := |promptTgt0|;
    if tgt.mode.Replay? {
      tgt.ReplayCommit(start, |ids|);
    }
    var nPast := start + |ids|;
    assert (prompt + gen0 + draft)[..nPast] == promptTgt0 + [idLast0] + ids[..|ids| - 1];
    promptTgt, idLast, gen, hasEos := Emit(m, prompt, promptTgt0, idLast0, gen0, ids, nPredict);
    EmitMore(m, prompt, gen0, ids, gen);
    tgt.RemoveFrom(nPast);
  }

  /** The drafter: the answer to its k-th request, given the largest draft asked for. */
  type Drafter = (nat, nat) -> seq<Token>

  /** No draft the drafter will ever give needs a host checkpoint. */
  ghost predicate NeverHost(mode: Mode, drafts: Drafter) {
    forall k, n :: !NeedsHost(mode, |drafts(k, n)|)
  }

  ghost predicate ObeysLimit(drafts: Drafter) {
    forall k, n :: |drafts(k, n)| <= n
  }

  /** The largest draft worth asking for. */
  function DraftLimit(nCtx: nat, nPast: nat, room: nat): (n: nat)
    requires room > 0
    ensures n < room && (n > 0 ==> WithinLimit(nCtx, nPast, room, n))
    ensures forall k: nat :: WithinLimit(nCtx, nPast, room, k) ==> k <= n
  {
    var byCtx := nCtx - nPast - 2;
    var n := if byCtx < room - 1 then byCtx else room - 1;
    if n < 0 then 0 else n
  }

  /** A draft of n tokens leaves room for the token after it, in the budget and in the context. */
  predicate WithinLimit(nCtx: nat, nPast: nat, room: nat, n: nat) {
    n < room && nPast + 1 + n < nCtx
  }

  method AskDraft(mode: Mode, drafts: Drafter, asked: nat, nCtx: nat, nPast: nat, room: nat) returns (draft: seq<Token>)
    requires room > 0
    ensures draft == drafts(asked, DraftLimit(nCtx, nPast, room))
    ensures NeverHost(mode, drafts) ==> !NeedsHost(mode, |draft|)
    ensures ObeysLimit(drafts) ==> |draft| < room
  {
    draft := drafts(asked, DraftLimit(nCtx, nPast, room));
  }

  /** The loop variables of the generation loop. The host checkpoint lives as long as a draft
      kept over from a restore needs it. */
  datatype Loop = Loop(promptTgt: seq<Token>, idLast: Token, gen: seq<Token>, hasEos: bool,
                       draft: seq<Token>, ckptTokens: nat, ckptRec: seq<Token>)

  /** Whether the loop goes on. */
  predicate GoesOn(nPredict: nat, v: Loop) {
    |v.gen| < nPredict && !v.hasEos
  }

  /** What holds at each loop head, for the rows stored by the target and the tokens accepted by the
      sampler. What was sampled but not kept leaves the sampler ahead only when the loop is over. */
  ghost predicate AtHead(m: Model, prompt: seq<Token>, nPredict: nat, rows: seq<Token>, accepted: seq<Token>, v: Loop) {
    && rows == v.promptTgt && |v.gen| <= nPredict
    && (GoesOn(nPredict, v) ==> accepted == v.gen)
    && Emitted(m, prompt, v.gen) && (v.hasEos ==> AtEog(m, prompt, v.gen))
    && v.promptTgt + [v.idLast] == prompt + v.gen + (if v.hasEos then [v.idLast] else [])
  }

  /** The host checkpoint describes the rows stored now. */
  ghost predicate CheckpointFits(v: Loop) {
    v.ckptTokens == |v.promptTgt| && v.ckptRec == v.promptTgt
  }

  datatype Step = Accepted | Restored | Cancelled

  /** Verify the current draft, then restore the checkpoint and retry, or accept. In replay mode
      the caller may cancel between the two, and the recording is folded up to nothing. A sampler saved
      before sampling replaces the one that sampled when the draft is retried. */
  method Iterate(m: Model, tgt: Target, smpl0: Sampler, prompt: seq<Token>, nPredict: nat, v: Loop, cancel: bool)
    returns (w: Loop, step: Step, smpl: Sampler)
    requires ValidMode(tgt.mode) && tgt.rec == tgt.rows && AtHead(m, prompt, nPredict, tgt.rows, smpl0.accepted, v)
    requires GoesOn(nPredict, v)
    requires NeedsHost(tgt.mode, |v.draft|) ==> CheckpointFits(v)
    modifies tgt, smpl0
    ensures smpl == smpl0 || fresh(smpl)
    ensures tgt.rec == tgt.rows && (!step.Cancelled? ==> AtHead(m, prompt, nPredict, tgt.rows, smpl.accepted, w))
    ensures step.Accepted? ==> w.draft == [] && |w.gen| + (if w.hasEos then 1 else 0) > |v.gen|
    ensures step.Restored? ==> CheckpointFits(w) && w.gen == v.gen && !w.hasEos
    ensures step.Restored? ==> 0 < |w.draft| <= |v.draft| && NeedsHost(tgt.mode, |v.draft|)
    // A pass that needs the host checkpoint is accepted only as a whole.
    ensures step.Accepted? && NeedsHost(tgt.mode, |v.draft|) ==>
              |w.gen| + (if w.hasEos then 1 else 0) == |v.gen| + |v.draft| + 1
    ensures step.Cancelled? <==> tgt.mode.Replay? && cancel
    ensures step.Cancelled? ==> w == v && tgt.rows == v.promptTgt
  {
    hide Chain, Emitted, AtEog, Verified, NoEog;
    var start, host := |v.promptTgt|, NeedsHost(tgt.mode, |v.draft|);
    smpl := smpl0;
    var saved := smpl0;
    if host {
      saved := new Sampler(smpl0.accepted);
    }
    var ids, full := VerifyPass(m, tgt, smpl0, prompt + v.gen, v.idLast, v.draft, nPredict - |v.gen|);
    if host && |ids| - 1 < |v.draft| {
      tgt.LoadRecurrent(v.ckptRec);
      tgt.RemoveFrom(v.ckptTokens);
      w, step, smpl := v.(draft := ids, promptTgt := v.promptTgt[..v.ckptTokens]), Restored, saved;
      return;
    }
    if tgt.mode.Replay? && cancel {
      tgt.ReplayCommit(start, 0);
      tgt.RemoveFrom(start);
      w, step := v, Cancelled;
      return;
    }
    var promptTgt, idLast, gen, hasEos :=
      AcceptPass(m, tgt, prompt, v.promptTgt, v.idLast, v.gen, v.draft, ids, nPredict);
    w, step := v.(promptTgt := promptTgt, idLast := idLast, gen := gen, hasEos := hasEos, draft := []), Accepted;
  }

  /** kvmem_spec_generate. The drafter may answer anything; `ok(k)` says whether the k-th verify
      decode and its bookkeeping succeeded. `peak` bounds the rows of every verify batch, and `widest` its
      width. `polls` counts the answers of the abort callback that were no. */
  method Generate(m: Model, tgt: Target, prompt: seq<Token>, nPredict: nat, nCtx: nat,
                  drafts: Drafter, ok: nat -> bool, schedule: seq<bool>)
    returns (gen: seq<Token>, st: Stats, ghost peak: nat, ghost widest: nat)
    requires prompt != [] && nPredict > 0 && ValidMode(tgt.mode)
    requires tgt.rows == tgt.rec == prompt[..|prompt| - 1]
    modifies tgt
    // Whatever was drafted, only plain tokens were emitted.
    ensures gen <= Plain(m, prompt, [], nPredict) && |gen| == st.nGen <= nPredict
    // A run that was neither aborted nor failed emitted all of them.
    ensures st.outcome.Finished? ==> gen == Plain(m, prompt, [], nPredict)
    // It fails only at a verify decode that failed, or at a draft too long to be recorded.
    ensures st.outcome.Failed? ==>
              !ok(st.verifyCalls) || (tgt.mode.Replay? && exists k, n :: |drafts(k, n)| + 1 > tgt.mode.capacity)
    // Every pass it counts succeeded, and every batch it decoded could be recorded.
    ensures forall k: nat :: k < st.verifyCalls ==> ok(k)
    ensures tgt.mode.Replay? ==> widest <= tgt.mode.capacity
    // Also after a failed pass, which is taken to store nothing, the rows are the prompt followed
    // by the emitted tokens, up to the row count.
    ensures |prompt| - 1 + st.nGen <= st.nPast <= |prompt| + st.nGen
    ensures tgt.rows == tgt.rec == (prompt + gen)[..st.nPast]
    // Every verify pass without a restore emits a token or ends the loop.
    ensures st.verifyCalls <= st.nGen + st.nRestore + 1
    ensures NeverHost(tgt.mode, drafts) || tgt.mode.Replay? || tgt.mode.Dense? ==> st.nRestore == 0
    // No verify batch reaches past the rows of the prompt and the predicted tokens.
    ensures ObeysLimit(drafts) ==> peak <= |prompt| - 1 + nPredict
    // It stops at the first poll that says so: one before each pass, and in replay mode one after it.
    ensures forall p: nat :: p < st.polls ==> !Aborts(schedule, p)
    ensures st.outcome.Aborted? ==> Aborts(schedule, st.polls)
    ensures st.polls == Polled(tgt.mode, st.verifyCalls) + (if st.outcome.Failed? then 1 else 0) ||
            (st.outcome.Aborted? && tgt.mode.Replay? && st.polls == Polled(tgt.mode, st.verifyCalls) + 1)
  {
    hide AtHead, Plain, NeverHost, ObeysLimit, Aborts, Counted, Bounded;
    HeadAtStart(m, prompt, nPredict);
    NeverHosts(tgt.mode, drafts);
    var v := Loop(prompt[..|prompt| - 1], prompt[|prompt| - 1], [], false, [], 0, []);
    var c := Counts(0, 0, 0, 0);
    var turn := Went;
    var smpl := new Sampler([]);
    ghost var accepted: seq<Token> := [];
    peak, widest := |tgt.rows|, 0;
    NothingCounted(tgt.mode, drafts, ok, schedule, prompt, nPredict, v);

    while GoesOn(nPredict, v)
      invariant fresh(smpl) && tgt.rec == tgt.rows && smpl.accepted == accepted && turn.Went?
      invariant AtHead(m, prompt, nPredict, tgt.rows, accepted, v)
      invariant c.polls <= |schedule| && (v.draft != [] ==> CheckpointFits(v))
      invariant Counted(tgt.mode, drafts, ok, schedule, v, c) && c.polls == Polled(tgt.mode, c.calls)
      invariant Bounded(tgt.mode, drafts, prompt, nPredict, v, peak, widest)
      decreases |schedule| - c.polls
    {
      v, c, turn, smpl, peak, widest :=
        Round(m, tgt, smpl, prompt, nPredict, nCtx, drafts, ok, schedule, v, c, peak, widest);
      if turn.Ended? {
        break;
      }
      accepted := smpl.accepted;
    }
    gen := v.gen;
    st := Stats(|v.promptTgt|, |gen|, c.nRestore, c.calls, c.polls, if turn.Ended? then turn.outcome else Finished);
    HeadRows(m, prompt, nPredict, tgt.rows, accepted, v);
    CountsAre(tgt.mode, drafts, ok, schedule, v, c);
    BoundsAre(tgt.mode, drafts, prompt, nPredict, v, peak, widest);
  }

  datatype Counts = Counts(nRestore: nat, calls: nat, asked: nat, polls: nat)

  datatype Turn = Went | Ended(outcome: Outcome)

  /** The counts of the loop. */
  ghost predicate Counted(mode: Mode, drafts: Drafter, ok: nat -> bool, schedule: seq<bool>, v: Loop, c: Counts) {
    && (NeverHost(mode, drafts) ==> c.nRestore == 0 && v.draft == [])
    && (forall k: nat :: k < c.calls ==> ok(k))
    && c.calls <= |v.gen| + c.nRestore + (if v.hasEos then 1 else 0)
    && Quiet(schedule, c.polls)
  }

  /** The callback said no that many times. */
  ghost predicate Quiet(schedule: seq<bool>, n: nat) {
    forall p: nat :: p < n ==> !Aborts(schedule, p)
  }

  /** The rows and the width of the batches so far. */
  ghost predicate Bounded(mode: Mode, drafts: Drafter, prompt: seq<Token>, nPredict: nat, v: Loop, peak: nat,
                          widest: nat) {
    && (ObeysLimit(drafts) ==> peak <= |prompt| - 1 + nPredict)
    && (ObeysLimit(drafts) && v.draft != [] ==> |v.draft| < nPredict - |v.gen|)
    && (mode.Replay? ==> widest <= mode.capacity)
  }

  lemma CountsAre(mode: Mode, drafts: Drafter, ok: nat -> bool, schedule: seq<bool>, v: Loop, c: Counts)
    requires Counted(mode, drafts, ok, schedule, v, c)
    ensures NeverHost(mode, drafts) ==> c.nRestore == 0
    ensures forall k: nat :: k < c.calls ==> ok(k)
    ensures forall p: nat :: p < c.polls ==> !Aborts(schedule, p)
    ensures c.calls <= |v.gen| + c.nRestore + (if v.hasEos then 1 else 0)
  {
  }

  lemma BoundsAre(mode: Mode, drafts: Drafter, prompt: seq<Token>, nPredict: nat, v: Loop, peak: nat, widest: nat)
    requires Bounded(mode, drafts, prompt, nPredict, v, peak, widest)
    ensures ObeysLimit(drafts) ==> peak <= |prompt| - 1 + nPredict
    ensures mode.Replay? ==> widest <= mode.capacity
  {
  }

  lemma NothingCounted(mode: Mode, drafts: Drafter, ok: nat -> bool, schedule: seq<bool>, prompt: seq<Token>,
                       nPredict: nat, v: Loop)
    requires prompt != [] && v.draft == []
    ensures Counted(mode, drafts, ok, schedule, v, Counts(0, 0, 0, 0))
    ensures Bounded(mode, drafts, prompt, nPredict, v, |prompt| - 1, 0)
  {
  }

  /** One turn of the loop: poll, draft, verify, and restore, accept or give up. */
  method Round(m: Model, tgt: Target, smpl0: Sampler, prompt: seq<Token>, nPredict: nat, nCtx: nat, drafts: Drafter,
               ok: nat -> bool, schedule: seq<bool>, v0: Loop, c0: Counts, ghost peak0: nat, ghost widest0: nat)
    returns (v: Loop, c: Counts, turn: Turn, smpl: Sampler, ghost peak: nat, ghost widest: nat)
    requires ValidMode(tgt.mode) && tgt.rec == tgt.rows && AtHead(m, prompt, nPredict, tgt.rows, smpl0.accepted, v0)
    requires GoesOn(nPredict, v0) && (v0.draft != [] ==> CheckpointFits(v0)) && c0.polls <= |schedule|
    requires Counted(tgt.mode, drafts, ok, schedule, v0, c0) && c0.polls == Polled(tgt.mode, c0.calls)
    requires Bounded(tgt.mode, drafts, prompt, nPredict, v0, peak0, widest0)
    modifies tgt, smpl0
    ensures (smpl == smpl0 || fresh(smpl)) && tgt.rec == tgt.rows
    ensures Counted(tgt.mode, drafts, ok, schedule, v, c)
    ensures Bounded(tgt.mode, drafts, prompt, nPredict, v, peak, widest)
    ensures turn.Went? ==> AtHead(m, prompt, nPredict, tgt.rows, smpl.accepted, v)
    ensures turn.Went? ==> c0.polls < c.polls <= |schedule| && (v.draft != [] ==> CheckpointFits(v))
    ensures turn.Went? ==> c.polls == Polled(tgt.mode, c.calls)
    ensures turn.Ended? ==> v == v0 && tgt.rows == old(tgt.rows) && c.calls == c0.calls && !turn.outcome.Finished?
    ensures turn == Ended(Failed) ==>
              c.polls == c0.polls + 1 &&
              (!ok(c.calls) || (tgt.mode.Replay? && exists k, n :: |drafts(k, n)| + 1 > tgt.mode.capacity))
    ensures turn == Ended(Aborted) ==>
              Aborts(schedule, c.polls) &&
              (c.polls == c0.polls || (tgt.mode.Replay? && c.polls == c0.polls + 1))
  {
    hide AtHead, Aborts, Plain;
    v, c, smpl, peak, widest := v0, c0, smpl0, peak0, widest0;
    if Aborts(schedule, c.polls) {
      turn := Ended(Aborted);
      return;
    }
    NotYet(schedule, c.polls);
    c := c.(polls := c.polls + 1);
    HeadRows(m, prompt, nPredict, tgt.rows, smpl.accepted, v);
    NeverHosts(tgt.mode, drafts);
    var w, recordable := NextDraft(tgt.mode, drafts, c.asked, nCtx, nPredict, v, tgt.rec);
    HeadKept(m, prompt, nPredict, tgt.rows, smpl.accepted, v, w);
    if v.draft == [] {
      c := c.(asked := c.asked + 1);
    }
    if !recordable || !ok(c.calls) {
      turn := Ended(Failed);
      return;
    }
    widest := if |w.draft| + 1 > widest then |w.draft| + 1 else widest;
    peak := if |tgt.rows| + 1 + |w.draft| > peak then |tgt.rows| + 1 + |w.draft| else peak;
    var cancel := Aborts(schedule, c.polls);
    var next, step;
    next, step, smpl := Iterate(m, tgt, smpl, prompt, nPredict, w, cancel);
    if step.Cancelled? {
      turn := Ended(Aborted);
      return;
    }
    v, turn := next, Went;
    if tgt.mode.Replay? {
      NotYet(schedule, c.polls);
    }
    c := c.(calls := c.calls + 1, nRestore := c.nRestore + if step.Restored? then 1 else 0,
            polls := c.polls + if tgt.mode.Replay? then 1 else 0);
  }

  /** Keep the draft of a restore, or ask for one and take note of what the target holds. */
  method NextDraft(mode: Mode, drafts: Drafter, asked: nat, nCtx: nat, nPredict: nat, v: Loop, rec: seq<Token>)
    returns (w: Loop, recordable: bool)
    requires GoesOn(nPredict, v) && rec == v.promptTgt && (v.draft != [] ==> CheckpointFits(v))
    ensures w == v.(draft := w.draft, ckptTokens := w.ckptTokens, ckptRec := w.ckptRec)
    ensures NeedsHost(mode, |w.draft|) ==> CheckpointFits(w)
    ensures v.draft != [] ==> w == v
    ensures v.draft == [] ==>
              w.draft == drafts(asked, DraftLimit(nCtx, |v.promptTgt|, nPredict - |v.gen|))
    ensures v.draft == [] && NeverHost(mode, drafts) ==> !NeedsHost(mode, |w.draft|)
    ensures v.draft == [] && ObeysLimit(drafts) ==> |w.draft| < nPredict - |v.gen|
    ensures recordable <==> (mode.Replay? ==> |w.draft| + 1 <= mode.capacity)
  {
    w := v;
    if v.draft == [] {
      var draft := AskDraft(mode, drafts, asked, nCtx, |v.promptTgt|, nPredict - |v.gen|);
      w := v.(draft := draft, ckptTokens := |v.promptTgt|,
              ckptRec := if NeedsHost(mode, |draft|) then rec else v.ckptRec);
    }
    recordable := mode.Replay? ==> |w.draft| + 1 <= mode.capacity;
  }

  /** A draft and a checkpoint do not matter at the head of the loop. */
  lemma HeadKept(m: Model, prompt: seq<Token>, nPredict: nat, rows: seq<Token>, accepted: seq<Token>, v: Loop, w: Loop)
    requires AtHead(m, prompt, nPredict, rows, accepted, v)
    requires w == v.(draft := w.draft, ckptTokens := w.ckptTokens, ckptRec := w.ckptRec)
    ensures AtHead(m, prompt, nPredict, rows, accepted, w)
  {
  }

  /** What the head of the loop says about rows and emitted tokens. */
  lemma HeadRows(m: Model, prompt: seq<Token>, nPredict: nat, rows: seq<Token>, accepted: seq<Token>, v: Loop)
    requires AtHead(m, prompt, nPredict, rows, accepted, v)
    ensures |v.gen| <= nPredict && v.gen <= Plain(m, prompt, [], nPredict)
    ensures !GoesOn(nPredict, v) ==> v.gen == Plain(m, prompt, [], nPredict)
    ensures rows == v.promptTgt == (prompt + v.gen)[..|v.promptTgt|]
    ensures |v.promptTgt| == |prompt| + |v.gen| - if v.hasEos then 0 else 1
  {
    EmittedIsPlain(m, prompt, v.gen, nPredict);
    StoredRows(prompt, v.gen, v.promptTgt, v.idLast, v.hasEos);
  }

  lemma HeadAtStart(m: Model, prompt: seq<Token>, nPredict: nat)
    requires prompt != []
    ensures AtHead(m, prompt, nPredict, prompt[..|prompt| - 1], [],
                   Loop(prompt[..|prompt| - 1], prompt[|prompt| - 1], [], false, [], 0, []))
  {
    NothingEmitted(m, prompt);
  }

  /** How often the callback is polled for a number of passes that were not cancelled. */
  function Polled(mode: Mode, calls: nat): nat {
    if mode.Replay? then 2 * calls else calls
  }

  lemma AbortsAtEnd(schedule: seq<bool>)
    ensures Aborts(schedule, |schedule|)
  {
  }

  lemma NotYet(schedule: seq<bool>, p: nat)
    requires !Aborts(schedule, p)
    ensures p < |schedule|
  {
  }

  lemma NeverHosts(mode: Mode, drafts: Drafter)
    ensures mode.Replay? || mode.Dense? ==> NeverHost(mode, drafts)
  {
  }

  lemma StoredRows(prompt: seq<Token>, gen: seq<Token>, promptTgt: seq<Token>, idLast: Token, hasEos: bool)
    requires promptTgt + [idLast] == prompt + gen + if hasEos then [idLast] else []
    ensures |promptTgt| == |prompt| + |gen| - if hasEos then 0 else 1
    ensures promptTgt == (prompt + gen)[..|promptTgt|]
  {
    var all := prompt + gen + if hasEos then [idLast] else [];
    assert |promptTgt + [idLast]| == |all|;
    assert promptTgt == (promptTgt + [idLast])[..|promptTgt|] == all[..|promptTgt|];
  }

  /** Hand the verified ids to the caller one by one, stopping at end-of-generation. */
  method Emit(m: Model, prompt: seq<Token>, promptTgt0: seq<Token>, idLast0: Token, gen0: seq<Token>,
              ids: seq<Token>, nPredict: nat)
    returns (promptTgt: seq<Token>, idLast: Token, gen: seq<Token>, hasEos: bool)
    requires promptTgt0 + [idLast0] == prompt + gen0
    requires 0 < |ids| <= nPredict - |gen0|
    requires forall i :: 0 <= i < |ids| - 1 ==> !m.eog(ids[i])
    ensures hasEos == m.eog(ids[|ids| - 1]) && idLast == ids[|ids| - 1]
    ensures gen == gen0 + if hasEos then ids[..|ids| - 1] else ids
    ensures promptTgt == promptTgt0 + [idLast0] + ids[..|ids| - 1]
    ensures promptTgt + [idLast] == prompt + gen + if hasEos then [idLast] else []
  {
    promptTgt, idLast, gen, hasEos := promptTgt0, idLast0, gen0, false;
    for i := 0 to |ids|
      invariant !hasEos && gen == gen0 + ids[..i]
      invariant i == 0 ==> promptTgt == promptTgt0 && idLast == idLast0
      invariant i > 0 ==> idLast == ids[i - 1] && promptTgt == promptTgt0 + [idLast0] + ids[..i - 1]
      invariant i > 0 ==> !m.eog(ids[i - 1])
    {
      promptTgt := promptTgt + [idLast];
      idLast := ids[i];
      if m.eog(idLast) {
        hasEos := true;
        assert i == |ids| - 1;
        break;
      }
      gen := gen + [idLast];
      if |gen| >= nPredict {
        assert i == |ids| - 1;
        break;
      }
    }
  }

  // ----- Host-checkpoint restores -----

  /** After a restore the verified ids become the next draft. Verifying them restores once more
      exactly when they end the generation or use up the budget, and then nothing has changed. */
  lemma RestoreRepeats(m: Model, ctx: seq<Token>, hist: seq<Token>, draft: seq<Token>, room: nat,
                       ids: seq<Token>, again: seq<Token>)
    requires room > 0 && Pass(m, ctx, hist, draft, room, ids) && |ids| - 1 < |draft|
    requires Pass(m, ctx, hist, ids, room, again)
    ensures |again| - 1 < |ids| <==> m.eog(ids[|ids| - 1]) || |ids| == room
    ensures |again| - 1 < |ids| ==> again == ids
  {
    var full :| Verified(m, ctx, hist, draft, full) && TrimmedTo(m, full, room, ids);
    var longer :| Verified(m, ctx, hist, ids, longer) && TrimmedTo(m, longer, room, again);
    var k := if |longer| < |ids| then |longer| else |ids|;
    ChainPrefix(m, ctx, hist, |ids|, |full|);
    ChainPrefix(m, ctx, hist, k, |ids|);
    ChainPrefix(m, ctx, hist, k, |longer|);
    assert ids[k - 1] == ids[..k][k - 1] == longer[..k][k - 1] == longer[k - 1];
    assert |longer| == |ids| + 1 && longer[..|ids|] == ids;
    assert forall i :: 0 <= i < |ids| ==> longer[..|ids|][i] == longer[i];
  }

  /** A run of host-checkpoint iterations that keeps restoring: each draft is the previous one's ids. */
  ghost predicate Restoring(m: Model, ctx: seq<Token>, hist: seq<Token>, room: nat, drafts: seq<seq<Token>>) {
    forall i :: 0 <= i < |drafts| - 1 ==>
      Pass(m, ctx, hist, drafts[i], room, drafts[i + 1]) && |drafts[i + 1]| - 1 < |drafts[i]|
  }

  /** Once a restored draft ends with an end-of-generation token, restoring goes on for ever with
      that same draft; otherwise, when drafts keep below the budget, no second restore follows. */
  lemma {:induction false} RestoreForever(m: Model, ctx: seq<Token>, hist: seq<Token>, room: nat,
                                          drafts: seq<seq<Token>>, n: nat)
    requires room > 0 && |drafts| >= 2 && Restoring(m, ctx, hist, room, drafts) && |drafts[0]| < room
    requires n > 0
    ensures m.eog(drafts[1][|drafts[1]| - 1]) ==>
              Restoring(m, ctx, hist, room, [drafts[0]] + seq(n, i => drafts[1]))
    ensures !m.eog(drafts[1][|drafts[1]| - 1]) ==> |drafts| == 2
  {
    var d := drafts[1];
    assert Pass(m, ctx, hist, drafts[0], room, d) && |d| - 1 < |drafts[0]|;
    PassExists(m, ctx, hist, d, room);
    var again :| Pass(m, ctx, hist, d, room, again);
    RestoreRepeats(m, ctx, hist, drafts[0], room, d, again);
    if |drafts| > 2 {
      assert Pass(m, ctx, hist, drafts[1], room, drafts[2]) && |drafts[2]| - 1 < |drafts[1]|;
      RestoreRepeats(m, ctx, hist, drafts[0], room, d, drafts[2]);
    }
  }

  /** Every verify pass has a result. */
  lemma PassExists(m: Model, ctx: seq<Token>, hist: seq<Token>, draft: seq<Token>, room: nat)
    requires room > 0
    ensures exists ids :: Pass(m, ctx, hist, draft, room, ids)
  {
    var full := VerifiedExists(m, ctx, hist, draft, 1);
    var ids := TrimExists(m, full, if |full| < room then |full| else room, room, 0);
    assert Pass(m, ctx, hist, draft, room, ids);
  }

  lemma VerifiedExists(m: Model, ctx: seq<Token>, hist: seq<Token>, draft: seq<Token>, n: nat)
    returns (full: seq<Token>)
    requires 1 <= n <= |draft| + 1
    requires forall i :: 0 <= i < n - 1 ==> Chain(m, ctx, hist, n)[i] == draft[i]
    ensures Verified(m, ctx, hist, draft, full)
    decreases |draft| + 1 - n
  {
    full := Chain(m, ctx, hist, n);
    if n <= |draft| && full[n - 1] == draft[n - 1] {
      ChainPrefix(m, ctx, hist, n, n + 1);
      var next := Chain(m, ctx, hist, n + 1);
      assert forall i :: 0 <= i < n ==> next[i] == next[..n][i] == full[i];
      full := VerifiedExists(m, ctx, hist, draft, n + 1);
    }
  }

  lemma TrimExists(m: Model, full: seq<Token>, cap: nat, room: nat, i: nat) returns (ids: seq<Token>)
    requires 0 < cap == (if |full| < room then |full| else room) && i <= cap
    requires forall j :: 0 <= j < i ==> !m.eog(full[j])
    ensures TrimmedTo(m, full, room, ids)
    decreases cap - i
  {
    if i < cap && !m.eog(full[i]) {
      ids := TrimExists(m, full, cap, room, i + 1);
    } else {
      ids := full[..if i < cap then i + 1 else cap];
    }
  }

  /** `draft` is restored into `ids`, which ends the generation and is restored n more times. */
  ghost predicate Hangs(m: Model, ctx: seq<Token>, room: nat, draft: seq<Token>, ids: seq<Token>, n: nat) {
    && 0 < |ids| <= |draft| < room
    && m.eog(ids[|ids| - 1])
    && Restoring(m, ctx, [], room, [draft] + seq(n + 1, i => ids))
  }

  /** The loop does hang: one drafted end-of-generation token followed by anything it rejects. */
  lemma HostRestoreHangs(n: nat)
    ensures exists m, ctx, room, draft, ids :: Hangs(m, ctx, room, draft, ids, n)
  {
    var m := Model((a, b, c) => 7, t => t == 7);
    var ctx, room, draft, ids := [1], 5, [7, 1], [7];
    assert Chain(m, ctx, [], 2) == [7] + Chain(m, ctx + [7], [7], 1) == [7, 7];
    assert Verified(m, ctx, [], draft, [7, 7]) && Verified(m, ctx, [], ids, [7, 7]);
    assert TrimmedTo(m, [7, 7], room, ids);
    assert Pass(m, ctx, [], draft, room, ids) && Pass(m, ctx, [], ids, room, ids);
    assert Hangs(m, ctx, room, draft, ids, n);
  }
}
