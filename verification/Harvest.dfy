/** The asynchronous harvest: a producer fills one of two staging slots and hands it to a worker, which
    packs it into the store. Every interleaving of their steps is a run. */
module Harvest {

  /** One captured batch. */
  type Batch = nat

  /** What a staging slot holds. A batch is packed under the row positions the slot carries with it. */
  datatype Slot = Slot(inflight: bool, items: Batch, pos: Batch)

  datatype Producer =
    | Ready
    | Filling(batch: Batch)    // copying into the next slot, outside the lock
    | Direct(batch: Batch)     // the copy failed: packing the batch itself

  datatype Worker =
    | Waiting
    | Popped(slot: nat)        // took a slot from the queue
    | Loaded(slot: nat)        // made the slot's positions current
    | Packed(slot: nat)        // wrote the slot's items
    | Exited

  /** One packing: a batch's items, the positions they were packed under, and which thread did it. */
  datatype Entry = Entry(items: Batch, pos: Batch, direct: bool)

  /** `cur` is the row-position list that packing uses; both threads assign it. */
  datatype State = State(
    slots: seq<Slot>, next: nat, queue: seq<nat>, stop: bool, cur: Batch,
    producer: Producer, worker: Worker,
    submitted: seq<Batch>, packed: seq<Entry>)

  datatype Action =
    | Begin(batch: Batch)   // the next slot is free: start copying
    | Publish               // lock: mark the slot in flight and queue it
    | Fail                  // the copy failed: fall back to packing directly
    | Bypass(batch: Batch)  // nothing to copy with: pack directly at once
    | DirectPack
    | Pop | Load | Pack | Release  // worker
    | Stop | Exit

  predicate Formed(s: State) {
    |s.slots| == 2 && s.next < 2
  }

  predicate Enabled(s: State, a: Action)
    requires Formed(s)
  {
    match a
    case Begin(_) => s.producer.Ready? && !s.stop && !s.slots[s.next].inflight
    case Publish => s.producer.Filling?
    case Fail => s.producer.Filling?
    case Bypass(_) => s.producer.Ready? && !s.stop
    case DirectPack => s.producer.Direct?
    case Pop => s.worker.Waiting? && s.queue != []
    case Load => s.worker.Popped? && s.worker.slot < 2
    case Pack => s.worker.Loaded? && s.worker.slot < 2
    case Release => s.worker.Packed? && s.worker.slot < 2
    case Stop => s.producer.Ready?
    case Exit => s.worker.Waiting? && s.stop && s.queue == []
  }

  /** The copy into a slot is one step: nobody reads a slot before it is published. Publishing also
      turns to the other slot, which only the producer looks at. */
  function Step(s: State, a: Action): (t: State)
    requires Formed(s) && Enabled(s, a)
    ensures Formed(t)
  {
    match a
    case Begin(b) => s.(producer := Filling(b), slots := s.slots[s.next := Slot(false, b, b)])
    case Publish =>
      s.(producer := Ready, slots := s.slots[s.next := s.slots[s.next].(inflight := true)],
         queue := s.queue + [s.next], next := 1 - s.next, submitted := s.submitted + [s.producer.batch])
    case Fail => s.(producer := Direct(s.producer.batch), cur := s.producer.batch)
    case Bypass(b) => s.(producer := Direct(b), cur := b)
    case DirectPack => s.(producer := Ready, packed := s.packed + [Entry(s.producer.batch, s.cur, true)])
    case Pop => s.(worker := Popped(s.queue[0]), queue := s.queue[1..])
    case Load => s.(worker := Loaded(s.worker.slot), cur := s.slots[s.worker.slot].pos)
    case Pack =>
      s.(worker := Packed(s.worker.slot), packed := s.packed + [Entry(s.slots[s.worker.slot].items, s.cur, false)])
    case Release =>
      s.(worker := Waiting, slots := s.slots[s.worker.slot := s.slots[s.worker.slot].(inflight := false)])
    case Stop => s.(stop := true)
    case Exit => s.(worker := Exited)
  }

  function Initial(cur: Batch): State {
    State([Slot(false, 0, 0), Slot(false, 0, 0)], 0, [], false, cur, Ready, Waiting, [], [])
  }

  /** harvest_flush may return. */
  predicate Flushed(s: State)
    requires |s.slots| == 2
  {
    s.queue == [] && !s.slots[0].inflight && !s.slots[1].inflight
  }

  // ----- The invariant -----

  predicate Holds(w: Worker) { w.Popped? || w.Loaded? || w.Packed? }

  /** Slots in flight: queued, or held by the worker until it releases them. */
  function InFlight(s: State): nat {
    |s.queue| + if Holds(s.worker) then 1 else 0
  }

  /** Slots in flight whose items are still to be packed. */
  function Open(s: State): nat {
    |s.queue| + if s.worker.Popped? || s.worker.Loaded? then 1 else 0
  }

  /** At most two slots are in flight, the ones before `next` in turn: the newest is not `next`, the
      second newest is. The worker holds the oldest. */
  ghost predicate Turns(s: State)
    requires Formed(s)
  {
    && InFlight(s) <= 2
    && (|s.queue| >= 1 ==> s.queue[|s.queue| - 1] + s.next == 1)
    && (|s.queue| == 2 ==> s.queue[0] == s.next)
    && (Holds(s.worker) ==> s.worker.slot + s.next == if s.queue == [] then 1 else 2 * s.next)
    && (s.slots[1 - s.next].inflight <==> InFlight(s) >= 1) && (s.slots[s.next].inflight <==> InFlight(s) == 2)
  }

  ghost predicate Inv(s: State) {
    && Formed(s) && Turns(s)
    && (forall i :: 0 <= i < 2 && s.slots[i].inflight ==> s.slots[i].pos == s.slots[i].items)
    && (s.producer.Filling? ==> s.slots[s.next] == Slot(false, s.producer.batch, s.producer.batch))
    && (s.stop ==> s.producer.Ready?)
    && (s.worker.Exited? ==> s.stop && s.queue == [])
  }

  /** Every step of either thread keeps the protocol. */
  lemma InvStep(s: State, a: Action)
    requires Inv(s) && Enabled(s, a)
    ensures Inv(Step(s, a))
  {
    hide Turns, Inv, Step;
    match a
    case Pop => PopTurns(s);
    case Release => ReleaseTurns(s);
    case Publish => PublishTurns(s);
    case _ => OtherTurns(s, a);
  }

  lemma PopTurns(s: State)
    requires Inv(s) && Enabled(s, Pop)
    ensures Inv(Step(s, Pop))
  {
    var t := Step(s, Pop);
    assert InFlight(t) == InFlight(s);
    assert s.queue[0] + s.next == if t.queue == [] then 1 else 2 * s.next;
    assert t.queue != [] ==> t.queue[|t.queue| - 1] == s.queue[|s.queue| - 1];
  }

  lemma ReleaseTurns(s: State)
    requires Inv(s) && Enabled(s, Release)
    ensures Inv(Step(s, Release))
  {
    var t := Step(s, Release);
    assert InFlight(t) + 1 == InFlight(s);
  }

  lemma PublishTurns(s: State)
    requires Inv(s) && Enabled(s, Publish)
    ensures Inv(Step(s, Publish))
  {
    var t := Step(s, Publish);
    assert InFlight(s) <= 1 && InFlight(t) == InFlight(s) + 1;
    assert t.queue[|t.queue| - 1] == s.next == 1 - t.next;
  }

  lemma OtherTurns(s: State, a: Action)
    requires Inv(s) && Enabled(s, a) && !a.Pop? && !a.Release? && !a.Publish?
    ensures Inv(Step(s, a))
  {
    var t := Step(s, a);
    assert InFlight(t) == InFlight(s) && t.queue == s.queue;
  }

  // ----- Order, and each batch once -----

  /** The batches still to be packed, oldest first. */
  ghost function Left(s: State): seq<Batch>
    requires Formed(s)
  {
    if Open(s) == 0 then [] else
      (if Open(s) == 1 then [] else [s.slots[s.next].items]) + [s.slots[1 - s.next].items]
  }

  /** The batches packed by the worker, in order. */
  ghost function ByWorker(packed: seq<Entry>): seq<Batch> {
    if packed == [] then [] else
      ByWorker(packed[..|packed| - 1]) + if packed[|packed| - 1].direct then [] else [packed[|packed| - 1].items]
  }

  lemma ByWorkerMore(packed: seq<Entry>, e: Entry)
    ensures ByWorker(packed + [e]) == ByWorker(packed) + if e.direct then [] else [e.items]
  {
    assert (packed + [e])[..|packed|] == packed;
  }

  /** Submitted batches are packed in submission order, each once, up to those still open. */
  ghost predicate InOrder(s: State) {
    Inv(s) && s.submitted == ByWorker(s.packed) + Left(s)
  }

  lemma InitialInOrder(cur: Batch)
    ensures InOrder(Initial(cur))
  {
  }

  lemma PackOrder(s: State)
    requires InOrder(s) && Enabled(s, Pack)
    ensures InOrder(Step(s, Pack))
  {
    hide ByWorker;
    var t, e := Step(s, Pack), Entry(s.slots[s.worker.slot].items, s.cur, false);
    InvStep(s, Pack);
    ByWorkerMore(s.packed, e);
    assert Left(s) == [e.items] + Left(t);
  }

  lemma PublishOrder(s: State)
    requires InOrder(s) && Enabled(s, Publish)
    ensures InOrder(Step(s, Publish))
  {
    hide ByWorker;
    InvStep(s, Publish);
    assert Left(Step(s, Publish)) == Left(s) + [s.producer.batch];
  }

  lemma OrderStep(s: State, a: Action)
    requires InOrder(s) && Enabled(s, a)
    ensures InOrder(Step(s, a))
  {
    hide ByWorker;
    InvStep(s, a);
    match a
    case Publish => PublishOrder(s);
    case Pack => PackOrder(s);
    case DirectPack => ByWorkerMore(s.packed, Entry(s.producer.batch, s.cur, true));
    case _ => assert Left(Step(s, a)) == Left(s);
  }

  // ----- Runs -----

  ghost predicate Reaches(s: State, acts: seq<Action>, t: State)
    requires Formed(s)
    decreases |acts|
  {
    if acts == [] then s == t else Enabled(s, acts[0]) && Reaches(Step(s, acts[0]), acts[1..], t)
  }

  lemma {:induction false} OrderRun(s: State, acts: seq<Action>, t: State)
    requires InOrder(s) && Reaches(s, acts, t)
    ensures InOrder(t)
    decreases |acts|
  {
    hide ByWorker, Step, Turns;
    if acts != [] {
      OrderStep(s, acts[0]);
      OrderRun(Step(s, acts[0]), acts[1..], t);
    }
  }

  /** Nothing is lost, doubled or reordered: in every interleaving from the start the batches packed by the
      worker are the submitted ones, in submission order, up to those still in a slot. When harvest_flush
      may return, and when the worker has exited, they are all of them. A slot is never refilled while in
      flight. */
  lemma EveryBatchOnce(cur: Batch, acts: seq<Action>, t: State)
    requires Reaches(Initial(cur), acts, t)
    ensures Formed(t) && ByWorker(t.packed) <= t.submitted
    ensures Flushed(t) || t.worker.Exited? ==> Flushed(t) && ByWorker(t.packed) == t.submitted
    ensures t.producer.Filling? ==> !t.slots[t.next].inflight
  {
    hide ByWorker, Step, Reaches;
    InitialInOrder(cur);
    OrderRun(Initial(cur), acts, t);
  }

  // ----- Progress -----

  /** The worker's next action. */
  function WorkerAction(s: State): Action {
    match s.worker
    case Popped(_) => Load
    case Loaded(_) => Pack
    case Packed(_) => Release
    case _ => Pop
  }

  function Work(s: State): nat {
    4 * |s.queue| + (match s.worker case Popped(_) => 3 case Loaded(_) => 2 case Packed(_) => 1 case _ => 0)
  }

  /** While anything is in flight the worker can move, and each move leaves it less to do: neither a
      full slot, nor harvest_flush, nor the final join can wait for ever. */
  lemma WorkerMoves(s: State)
    requires Inv(s) && !Flushed(s)
    ensures Enabled(s, WorkerAction(s)) && Work(Step(s, WorkerAction(s))) < Work(s)
    ensures Step(s, WorkerAction(s)).submitted == s.submitted
  {
    assert InFlight(s) > 0;
  }

  /** From every state of every run the worker alone reaches a flushed state with all batches packed. */
  lemma WorkerDrains(cur: Batch, before: seq<Action>, s: State) returns (acts: seq<Action>, t: State)
    requires Reaches(Initial(cur), before, s)
    ensures Formed(s) && |acts| <= Work(s) && Reaches(s, acts, t)
    ensures Formed(t) && Flushed(t) && ByWorker(t.packed) == t.submitted == s.submitted
  {
    hide ByWorker, Step, Turns, Reaches;
    InitialInOrder(cur);
    OrderRun(Initial(cur), before, s);
    acts, t := Drains(s);
  }

  lemma FlushedAll(s: State)
    requires InOrder(s) && Flushed(s)
    ensures ByWorker(s.packed) == s.submitted
  {
    hide ByWorker;
    assert InFlight(s) == 0;
  }

  lemma Drains(s: State) returns (acts: seq<Action>, t: State)
    requires InOrder(s)
    ensures |acts| <= Work(s) && Reaches(s, acts, t) && InOrder(t)
    ensures Flushed(t) && ByWorker(t.packed) == t.submitted == s.submitted
    decreases Work(s)
  {
    hide ByWorker, Step, Turns;
    if Flushed(s) {
      acts, t := [], s;
      FlushedAll(s);
    } else {
      var a := WorkerAction(s);
      WorkerMoves(s);
      OrderStep(s, a);
      acts, t := Drains(Step(s, a));
      assert ([a] + acts)[1..] == acts;
      acts := [a] + acts;
    }
  }

  // ----- Positions -----

  /** A direct packing begins only when the worker has nothing left to pack. */
  predicate Quiet(s: State, a: Action) {
    a.Fail? || a.Bypass? ==> Open(s) == 0
  }

  ghost predicate RightPositions(packed: seq<Entry>) {
    forall k :: 0 <= k < |packed| ==> packed[k].pos == packed[k].items
  }

  ghost predicate PlacesRight(s: State) {
    && Inv(s) && RightPositions(s.packed)
    && (s.producer.Direct? ==> Open(s) == 0 && s.cur == s.producer.batch)
    && (s.worker.Loaded? ==> s.worker.slot < 2 && s.cur == s.slots[s.worker.slot].pos)
  }

  lemma QuietStep(s: State, a: Action)
    requires PlacesRight(s) && Enabled(s, a) && Quiet(s, a)
    ensures PlacesRight(Step(s, a))
  {
    InvStep(s, a);
  }

  ghost predicate AllQuiet(s: State, acts: seq<Action>)
    requires Formed(s)
    decreases |acts|
  {
    acts == [] || (Enabled(s, acts[0]) && Quiet(s, acts[0]) && AllQuiet(Step(s, acts[0]), acts[1..]))
  }

  /** Over every run whose direct packings are quiet, every batch is packed under its own positions. */
  lemma QuietRunsPlaceRight(cur: Batch, acts: seq<Action>, t: State)
    requires Reaches(Initial(cur), acts, t) && AllQuiet(Initial(cur), acts)
    ensures RightPositions(t.packed)
  {
    InitialInOrder(cur);
    QuietRun(Initial(cur), acts, t);
  }

  lemma {:induction false} QuietRun(s: State, acts: seq<Action>, t: State)
    requires PlacesRight(s) && Reaches(s, acts, t) && AllQuiet(s, acts)
    ensures RightPositions(t.packed)
    decreases |acts|
  {
    hide Step, Turns;
    if acts != [] {
      QuietStep(s, acts[0]);
      QuietRun(Step(s, acts[0]), acts[1..], t);
    }
  }

  /** The two threads share the current positions without a lock: whenever a direct packing of a batch
      begins while the worker still has another batch to pack, some interleaving packs one of the two
      under the other's positions. */
  lemma LoudPackingMixes(s: State, a: Action, b: Batch) returns (acts: seq<Action>, t: State)
    requires Inv(s) && Enabled(s, a) && !Quiet(s, a) && Step(s, a).producer == Direct(b)
    requires forall i :: 0 <= i < 2 && s.slots[i].inflight ==> s.slots[i].items != b
    ensures Reaches(Step(s, a), acts, t) && !RightPositions(t.packed)
  {
    var d := Step(s, a);
    InvStep(s, a);
    if s.worker.Loaded? {
      acts, t := [Pack], Step(d, Pack);
      MixedLast(d.packed, t.packed);
      OneAct(d, Pack);
    } else {
      acts, t := MixFrom(d, b);
    }
  }

  lemma MixedLast(before: seq<Entry>, packed: seq<Entry>)
    requires |packed| == |before| + 1 && packed[|before|].pos != packed[|before|].items
    ensures !RightPositions(packed)
  {
  }

  lemma OneAct(s: State, a: Action)
    requires Formed(s) && Enabled(s, a)
    ensures Reaches(s, [a], Step(s, a))
  {
    assert [a][1..] == [];
  }

  lemma MixFrom(d: State, b: Batch) returns (acts: seq<Action>, t: State)
    requires Inv(d) && d.producer == Direct(b) && Open(d) > 0 && !d.worker.Loaded?
    requires forall i :: 0 <= i < 2 && d.slots[i].inflight ==> d.slots[i].items != b
    ensures Reaches(d, acts, t) && !RightPositions(t.packed)
    decreases Work(d)
  {
    var a := WorkerAction(d);
    InvStep(d, a);
    var e := Step(d, a);
    if d.worker.Popped? {
      t := Step(e, DirectPack);
      acts := [DirectPack];
      OneAct(e, DirectPack);
      MixedLast(e.packed, t.packed);
    } else {
      acts, t := MixFrom(e, b);
    }
    assert ([a] + acts)[1..] == acts;
    acts := [a] + acts;
  }

  lemma {:induction false} Joined(s: State, before: seq<Action>, u: State, acts: seq<Action>, t: State)
    requires Formed(s) && Reaches(s, before, u) && Formed(u) && Reaches(u, acts, t)
    ensures Reaches(s, before + acts, t)
    decreases |before|
  {
    hide Step;
    if before == [] {
      assert before + acts == acts;
    } else {
      Joined(Step(s, before[0]), before[1..], u, acts, t);
      assert (before + acts)[1..] == before[1..] + acts;
    }
  }

  /** The worker has taken a first batch, and is about to pack it. */
  lemma OneTaken(cur: Batch, b: Batch) returns (u: State)
    ensures Inv(u) && Reaches(Initial(cur), [Begin(b), Publish, Pop], u)
    ensures u.producer.Ready? && !u.stop && u.next == 1 && !u.slots[1].inflight && u.packed == []
    ensures u.worker == Popped(0) && u.slots[0].items == u.slots[0].pos == b
  {
    var s1 := Step(Initial(cur), Begin(b));
    var s2 := Step(s1, Publish);
    u := Step(s2, Pop);
    assert Reaches(s2, [Pop], u);
    assert Reaches(s1, [Publish, Pop], u);
  }

  /** It does happen: the copy of a second batch fails then. */
  lemma SecondCopyFails(cur: Batch, b: Batch, c: Batch) returns (acts: seq<Action>, t: State)
    ensures acts == [Begin(b), Publish, Pop] + [Begin(c), Fail, Load, DirectPack]
    ensures Reaches(Initial(cur), acts, t) && t.packed == [Entry(c, b, true)]
  {
    hide Turns;
    var u := OneTaken(cur, b);
    var s4 := Step(u, Begin(c));
    var s5 := Step(s4, Fail);
    var s6 := Step(s5, Load);
    t := Step(s6, DirectPack);
    assert Reaches(s6, [DirectPack], t);
    assert Reaches(s5, [Load, DirectPack], t);
    assert Reaches(s4, [Fail, Load, DirectPack], t);
    assert Reaches(u, [Begin(c), Fail, Load, DirectPack], t);
    acts := [Begin(b), Publish, Pop] + [Begin(c), Fail, Load, DirectPack];
    Joined(Initial(cur), [Begin(b), Publish, Pop], u, [Begin(c), Fail, Load, DirectPack], t);
  }
}
