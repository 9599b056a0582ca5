/** What the order of accesses in the thread pool is for: the pool with the gate reset and the freeing of a
    worker exchanged, or without the dispatcher's second look at the queue, loses tasks. */
module ThreadPoolOrder {
  import opened Bits
  import R = Ring
  import opened ThreadPool
  import PI = ThreadPoolInvariant

  datatype Order =
    | AsWritten
    | FreeFirst   // a worker frees itself before it resets its gate
    | NoRecheck   // the dispatcher does not look again after resetting its gate

  /** The steps at which the variants differ from the program. */
  predicate Differs(v: Order, p: Pool, a: Step)
    requires |p.calls| == |p.ring.wr| && Enabled(p, a)
  {
    match v
    case AsWritten => false
    case FreeFirst =>
      a.Work? && (p.workers[a.i].pc.WClear? || p.workers[a.i].pc.WFree? || p.workers[a.i].pc.WReset?)
    case NoRecheck => a.Dispatch? && p.disp.DReset?
  }

  function ApplyIn(v: Order, p: Pool, a: Step): (r: Pool)
    requires Shape(p) && Enabled(p, a)
  {
    if !Differs(v, p, a) then Apply(p, a)
    else if v.NoRecheck? then p.(flag := 0, disp := DTop)
    else
      var w := p.workers[a.i];
      p.(workers := p.workers[a.i :=
      if w.pc.WClear? then w.(pc := WFree, task := None)
      else if w.pc.WFree? then w.(pc := WReset, poolFlag := 0)
      else w.(pc := WTop, flag := 0)])
  }

  ghost predicate LegalIn(v: Order, p: Pool, steps: seq<Step>)
    decreases |steps|
  {
    Shape(p) && (steps == [] || (Enabled(p, steps[0]) && LegalIn(v, ApplyIn(v, p, steps[0]), steps[1..])))
  }

  ghost function RunIn(v: Order, p: Pool, steps: seq<Step>): (r: Pool)
    requires LegalIn(v, p, steps)
    decreases |steps|
  {
    if steps == [] then p else RunIn(v, ApplyIn(v, p, steps[0]), steps[1..])
  }

  /** Some run of the variant, with n workers, ends in state p. */
  ghost predicate ReachedBy(v: Order, n: nat, words: nat, stale: seq<Payload>, steps: seq<Step>, p: Pool) {
    n > 0 && R.GoodStart(words, stale) && LegalIn(v, Init(n, words, stale), steps)
    && RunIn(v, Init(n, words, stale), steps) == p
  }

  ghost predicate Reachable(v: Order, p: Pool) {
    exists n: nat, words: nat, stale: seq<Payload>, steps: seq<Step> :: ReachedBy(v, n, words, stale, steps, p)
  }

  /** No task waits for a sleeping thread that nobody is going to wake: a sleeping dispatcher with its flag
      down has only unclaimed tasks whose flag store is to come, and a sleeping worker with its flag down has
      no task, unless the dispatcher is about to raise the flag. */
  ghost predicate Delivers(p: Pool) {
    && (p.disp.DParked? && p.flag == 0 ==> forall t: nat | |p.ring.rd| <= t < |p.ring.wr| :: Late(p, t))
    && (forall i: nat | i < |p.workers| && p.workers[i].pc.WParked? && p.workers[i].flag == 0 ::
          p.workers[i].task.None? || (p.disp.DStore? && p.id == i))
  }

  ghost predicate AlwaysDelivers(v: Order) {
    forall p: Pool | Reachable(v, p) :: Delivers(p)
  }

  /** The program's order delivers every task, and neither variant does. */
  lemma OrderMatters(v: Order)
    ensures AlwaysDelivers(v) <==> v.AsWritten?
  {
    match v
    case AsWritten =>
      forall p: Pool | Reachable(v, p) ensures Delivers(p) { AsWrittenDelivers(p); }
    case NoRecheck => var p := TaskIsForgotten();
    case FreeFirst => var p := ActivationIsErased();
  }

  lemma {:induction false} AsWrittenKeepsInv(p: Pool, steps: seq<Step>)
    requires Inv(p) && LegalIn(AsWritten, p, steps)
    ensures Inv(RunIn(AsWritten, p, steps))
    decreases |steps|
  {
    if steps == [] {
    } else {
      PI.StepKeepsInv(p, steps[0]);
      AsWrittenKeepsInv(ApplyIn(AsWritten, p, steps[0]), steps[1..]);
    }
  }

  lemma AsWrittenDelivers(p: Pool)
    requires Reachable(AsWritten, p)
    ensures Delivers(p)
  {
    var n: nat, words: nat, stale: seq<Payload>, steps: seq<Step> :| ReachedBy(AsWritten, n, words, stale, steps, p);
    PI.InitInv(n, words, stale);
    AsWrittenKeepsInv(Init(n, words, stale), steps);
    forall i: nat | i < |p.workers| && p.workers[i].pc.WParked? && p.workers[i].flag == 0
      ensures p.workers[i].task.None? || (p.disp.DStore? && p.id == i)
    {
      assert WorkerInv(p, i);
    }
  }

  /* ------------------------------ Going on ------------------------------ */

  lemma {:induction false} RunSnoc(v: Order, p: Pool, steps: seq<Step>, a: Step)
    requires LegalIn(v, p, steps)
    requires Shape(RunIn(v, p, steps)) && Enabled(RunIn(v, p, steps), a) && Shape(ApplyIn(v, RunIn(v, p, steps), a))
    ensures LegalIn(v, p, steps + [a]) && RunIn(v, p, steps + [a]) == ApplyIn(v, RunIn(v, p, steps), a)
    decreases |steps|
  {
    if steps == [] {
      assert ([] + [a])[1..] == [];
    } else {
      assert (steps + [a])[1..] == steps[1..] + [a];
      RunSnoc(v, ApplyIn(v, p, steps[0]), steps[1..], a);
    }
  }

  /** The run makes none of the steps at which the variant differs from the program. */
  ghost predicate Faithful(v: Order, p: Pool, steps: seq<Step>)
    decreases |steps|
  {
    Shape(p) && (steps == [] ||
                 (Enabled(p, steps[0]) && !Differs(v, p, steps[0]) && Faithful(v, Apply(p, steps[0]), steps[1..])))
  }

  lemma {:induction false} FaithfulKeepsInv(v: Order, p: Pool, steps: seq<Step>)
    requires Inv(p) && Faithful(v, p, steps) && LegalIn(v, p, steps)
    ensures Inv(RunIn(v, p, steps))
    decreases |steps|
  {
    if steps == [] {
    } else {
      PI.StepKeepsInv(p, steps[0]);
      FaithfulKeepsInv(v, Apply(p, steps[0]), steps[1..]);
    }
  }

  lemma {:induction false} FaithfulSnoc(v: Order, p: Pool, steps: seq<Step>, a: Step)
    requires Faithful(v, p, steps) && LegalIn(v, p, steps) && Shape(RunIn(v, p, steps))
    requires Enabled(RunIn(v, p, steps), a) && !Differs(v, RunIn(v, p, steps), a) && Shape(Apply(RunIn(v, p, steps), a))
    ensures Faithful(v, p, steps + [a])
    decreases |steps|
  {
    if steps == [] {
      assert ([] + [a])[1..] == [];
    } else {
      assert (steps + [a])[1..] == steps[1..] + [a];
      FaithfulSnoc(v, Apply(p, steps[0]), steps[1..], a);
    }
  }

  /** Reached by a run of the variant that is, so far, also a run of the program. */
  ghost predicate Good(v: Order, p: Pool) {
    exists n: nat, words: nat, stale: seq<Payload>, steps: seq<Step> ::
      ReachedBy(v, n, words, stale, steps, p) && Faithful(v, Init(n, words, stale), steps)
  }

  lemma GoodStep(v: Order, p: Pool, a: Step, q: Pool)
    requires Good(v, p)
    requires Shape(p) ==> Enabled(p, a) && !Differs(v, p, a) && Apply(p, a) == q
    ensures Good(v, q)
  {
    var n: nat, words: nat, stale: seq<Payload>, steps: seq<Step> :|
      ReachedBy(v, n, words, stale, steps, p) && Faithful(v, Init(n, words, stale), steps);
    FaithfulStep(v, n, words, stale, steps, p, a, q);
    assert ReachedBy(v, n, words, stale, steps + [a], q);
  }

  lemma FaithfulStep(v: Order, n: nat, words: nat, stale: seq<Payload>, steps: seq<Step>, p: Pool, a: Step, q: Pool)
    requires ReachedBy(v, n, words, stale, steps, p) && Faithful(v, Init(n, words, stale), steps)
    requires Shape(p) ==> Enabled(p, a) && !Differs(v, p, a) && Apply(p, a) == q
    ensures ReachedBy(v, n, words, stale, steps + [a], q) && Faithful(v, Init(n, words, stale), steps + [a])
  {
    var p0 := Init(n, words, stale);
    assert Inv(p0) by { PI.InitInv(n, words, stale); }
    FaithfulShapes(v, p0, steps, p, a);
    FaithfulSnoc(v, p0, steps, a);
    RunSnoc(v, p0, steps, a);
  }

  lemma FaithfulShapes(v: Order, p0: Pool, steps: seq<Step>, p: Pool, a: Step)
    requires Inv(p0) && Faithful(v, p0, steps) && LegalIn(v, p0, steps) && RunIn(v, p0, steps) == p
    requires Shape(p) ==> Enabled(p, a)
    ensures Shape(p) && Shape(Apply(p, a))
  {
    FaithfulKeepsInv(v, p0, steps);
    PI.StepKeepsInv(p, a);
  }

  /** A step that touches neither the ring nor the calls, of the program or of the variant. */
  lemma QuietStep(v: Order, p: Pool, a: Step, q: Pool)
    requires Reachable(v, p)
    requires Shape(p) ==> Enabled(p, a) && ApplyIn(v, p, a) == q
    requires |q.workers| == |p.workers| && |q.place| == |p.place|
    requires q == p.(flag := q.flag, disp := q.disp, workers := q.workers, place := q.place, handed := q.handed)
    requires q.disp == p.disp || (!p.disp.DTake? && !q.disp.DTake? && !q.disp.DClaim?)
    ensures Reachable(v, q)
  {
    var n: nat, words: nat, stale: seq<Payload>, steps: seq<Step> :| ReachedBy(v, n, words, stale, steps, p);
    EndHasShape(v, Init(n, words, stale), steps);
    assert Shape(q);
    RunSnoc(v, Init(n, words, stale), steps, a);
    assert ReachedBy(v, n, words, stale, steps + [a], q);
  }

  lemma {:induction false} EndHasShape(v: Order, p: Pool, steps: seq<Step>)
    requires LegalIn(v, p, steps)
    ensures Shape(RunIn(v, p, steps))
    decreases |steps|
  {
    if steps == [] {
    } else {
      EndHasShape(v, ApplyIn(v, p, steps[0]), steps[1..]);
    }
  }

  /* ------------------------- One worker, ring of two ------------------------- */

  /** An open pool with one worker. */
  function One(ring: R.State, calls: seq<CallPc>, flag: nat, d: DispatcherPc, w: Worker, place: seq<Place>,
               handed: seq<Task>, executed: seq<Task>): (p: Pool)
  {
    Pool(ring, calls, flag, true, d, 0, [w], Open, place, handed, executed)
  }

  function Small(seqs: seq<nat>, wr: seq<R.WriteOp>, rd: seq<R.ReadOp>, log: seq<nat>): (s: R.State) {
    R.State(2, 0, seqs, [[], []], wr, rd, log)
  }

  function Sent(ph: R.WritePhase): (op: R.WriteOp) {
    R.WriteOp(1, [], ph)
  }

  function Got(ph: R.ReadPhase): (op: R.ReadOp) {
    R.ReadOp(DISPATCHER, ph)
  }

  const IDLE: Worker := Worker(WTop, 0, 0, None, true)
  const FIRST: Task := Task(0, [])
  const SECOND: Task := Task(1, [])

  /** A producer has submitted the first task and has returned. */
  function Submitted(): (p: Pool) {
    One(Small([1, 1], [Sent(R.Published)], [], []), [Done], 1, DTop, IDLE, [Queued], [], [])
  }

  function Claimed(): (p: Pool) {
    One(Small([0, 1], [Sent(R.Waiting)], [], []), [InRing], 0, DTop, IDLE, [Queued], [], [])
  }

  lemma ReachInit(v: Order)
    ensures Good(v, One(Small([0, 1], [], [], []), [], 0, DTop, IDLE, [], [], []))
  {
    var p := Init(1, 0, [[], []]);
    assert Good(v, p) by {
      PI.InitInv(1, 0, [[], []]);
      assert ReachedBy(v, 1, 0, [[], []], [], p);
    }
    assert p == One(Small([0, 1], [], [], []), [], 0, DTop, IDLE, [], [], []);
  }

  lemma ReachClaimed(v: Order)
    ensures Good(v, Claimed())
  {
    ReachInit(v);
    GoodStep(v, One(Small([0, 1], [], [], []), [], 0, DTop, IDLE, [], [], []), Submit(1, []), Claimed());
  }

  lemma ReachFilling(v: Order)
    ensures Good(v, Claimed().(ring := Small([0, 1], [Sent(R.Filling(0))], [], [])))
  {
    ReachClaimed(v);
    GoodStep(v, Claimed(), Produce(0), Claimed().(ring := Small([0, 1], [Sent(R.Filling(0))], [], [])));
  }

  lemma ReachPublished(v: Order)
    ensures Good(v, Submitted().(flag := 0, calls := [ToStore]))
  {
    var p := Claimed().(ring := Small([0, 1], [Sent(R.Filling(0))], [], []));
    assert Good(v, p) by { ReachFilling(v); }
    var q := Submitted().(flag := 0, calls := [ToStore]);
    assert q == p.(ring := q.ring, calls := q.calls);
    GoodStep(v, p, Produce(0), q);
  }

  lemma ReachSubmitted(v: Order)
    ensures Good(v, Submitted())
  {
    ReachPublished(v);
    SignalDispatcher(v, Submitted().(flag := 0, calls := [ToStore]), 0);
    assert [ToStore][0 := Done] == [Done];
  }

  /** A producer signals the dispatcher, which is not asleep. */
  lemma SignalDispatcher(v: Order, p: Pool, t: nat)
    requires Good(v, p) && !p.disp.DParked? && t < |p.calls| && p.calls[t].ToStore?
    ensures Good(v, p.(flag := 1, calls := p.calls[t := Done]))
  {
    var q := p.(flag := 1, calls := p.calls[t := ToWake]);
    assert Good(v, q) by { GoodStep(v, p, Produce(t), q); }
    assert q.calls[t := Done] == p.calls[t := Done];
    GoodStep(v, q, Produce(t), p.(flag := 1, calls := p.calls[t := Done]));
  }

  /** The dispatcher goes through its open gate. */
  lemma ThroughGate(v: Order, p: Pool)
    requires Good(v, p) && p.disp.DTop? && p.running && p.flag == 1
    ensures Good(v, p.(disp := DRunning))
  {
    assert Good(v, p.(disp := DLoad)) by { GoodStep(v, p, Dispatch, p.(disp := DLoad)); }
    GoodStep(v, p.(disp := DLoad), Dispatch, p.(disp := DRunning));
  }

  /** The dispatcher looks into the queue. */
  lemma Look(v: Order, p: Pool)
    requires Good(v, p) && p.disp.DRunning? && p.running
    ensures Good(v, p.(disp := if |p.ring.wr| == |p.ring.rd| then DOuterW else DClaim))
  {
    var n := |p.ring.wr|;
    assert Good(v, p.(disp := DEmptyR(n))) by { StartLook(v, p); }
    GoodStep(v, p.(disp := DEmptyR(n)), Dispatch, p.(disp := if n == |p.ring.rd| then DOuterW else DClaim));
  }

  lemma StartLook(v: Order, p: Pool)
    requires Good(v, p) && p.disp.DRunning? && p.running
    ensures Good(v, p.(disp := DEmptyR(|p.ring.wr|)))
  {
    assert Good(v, p.(disp := DEmptyW)) by { GoodStep(v, p, Dispatch, p.(disp := DEmptyW)); }
    GoodStep(v, p.(disp := DEmptyW), Dispatch, p.(disp := DEmptyR(|p.ring.wr|)));
  }

  /** The dispatcher has dequeued the first task. */
  function Dequeued(): (p: Pool) {
    One(Small([2, 1], [Sent(R.Published)], [Got(R.Returned([]))], [0]), [Done], 1, DScan(FIRST), IDLE,
        [AtDispatcher], [], [])
  }

  function Taking(ph: R.ReadPhase): (p: Pool) {
    Dequeued().(ring := Small([1, 1], [Sent(R.Published)], [Got(ph)], []), disp := DTake(0))
  }

  lemma ReachClaiming(v: Order)
    ensures Good(v, Submitted().(disp := DClaim))
  {
    ReachSubmitted(v);
    ThroughGate(v, Submitted());
    Look(v, Submitted().(disp := DRunning));
  }

  lemma ReachTaking(v: Order)
    ensures Good(v, Taking(R.Awaiting))
  {
    ReachClaiming(v);
    GoodStep(v, Submitted().(disp := DClaim), Dispatch, Taking(R.Awaiting));
  }

  lemma ReachCopying(v: Order)
    ensures Good(v, Taking(R.Copying([])))
  {
    ReachTaking(v);
    GoodStep(v, Taking(R.Awaiting), Dispatch, Taking(R.Copying([])));
  }

  lemma ReachDequeued(v: Order)
    ensures Good(v, Dequeued())
  {
    ReachCopying(v);
    GoodStep(v, Taking(R.Copying([])), Dispatch, Dequeued());
  }

  /** The first task is with the worker, whose gate is open. */
  function Handed(): (p: Pool) {
    Dequeued().(disp := DRunning, workers := [Worker(WTop, 1, 1, Some(FIRST), true)],
    place := [AtWorker(0)], handed := [FIRST])
  }

  lemma ReachGiving(v: Order)
    ensures Good(v, Dequeued().(disp := DGive(FIRST), workers := [IDLE.(poolFlag := 1)]))
  {
    ReachDequeued(v);
    GoodStep(v, Dequeued(), Dispatch, Dequeued().(disp := DGive(FIRST), workers := [IDLE.(poolFlag := 1)]));
  }

  lemma ReachGiven(v: Order)
    ensures Good(v, Handed().(disp := DStore, workers := [Worker(WTop, 0, 1, Some(FIRST), true)]))
  {
    ReachGiving(v);
    GoodStep(v, Dequeued().(disp := DGive(FIRST), workers := [IDLE.(poolFlag := 1)]), Dispatch,
      Handed().(disp := DStore, workers := [Worker(WTop, 0, 1, Some(FIRST), true)]));
  }

  /** The dispatcher signals its only worker, which is not asleep. */
  lemma Signal(v: Order, p: Pool)
    requires Good(v, p) && p.disp.DStore? && p.id == 0 && |p.workers| == 1 && !p.workers[0].pc.WParked?
    ensures Good(v, p.(workers := [p.workers[0].(flag := 1)], disp := DRunning))
  {
    var q := p.(workers := [p.workers[0].(flag := 1)], disp := DWake);
    assert Good(v, q) by { GoodStep(v, p, Dispatch, q); }
    assert SlotOf(1, 1) == 0;
    GoodStep(v, q, Dispatch, q.(disp := DRunning));
  }

  lemma ReachHanded(v: Order)
    ensures Good(v, Handed())
  {
    ReachGiven(v);
    Signal(v, Handed().(disp := DStore, workers := [Worker(WTop, 0, 1, Some(FIRST), true)]));
  }

  /** The ring with one value returned and a second enqueue at the given point. */
  function SecondRing(next: nat, ph: R.WritePhase): (s: R.State) {
    Small([2, next], [Sent(R.Published), Sent(ph)], [Got(R.Returned([]))], [0])
  }

  /** The producer submits a second task and publishes it. */
  lemma ReachSecond(v: Order, p: Pool)
    requires Good(v, p) && p.close.Open? && p.calls == [Done]
    requires p.ring == Small([2, 1], [Sent(R.Published)], [Got(R.Returned([]))], [0])
    ensures Good(v, p.(ring := SecondRing(2, R.Published), calls := [Done, ToStore], place := p.place + [Queued]))
  {
    var q := p.(ring := SecondRing(1, R.Waiting), calls := [Done, InRing], place := p.place + [Queued]);
    assert Good(v, q) by { GoodStep(v, p, Submit(1, []), q); }
    PublishSecond(v, q);
  }

  lemma PublishSecond(v: Order, p: Pool)
    requires Good(v, p) && p.calls == [Done, InRing] && p.ring == SecondRing(1, R.Waiting)
    ensures Good(v, p.(ring := SecondRing(2, R.Published), calls := [Done, ToStore]))
  {
    FillSecond(v, p);
    GoodStep(v, p.(ring := SecondRing(1, R.Filling(0))), Produce(1),
      p.(ring := SecondRing(2, R.Published), calls := [Done, ToStore]));
  }

  lemma FillSecond(v: Order, p: Pool)
    requires Good(v, p) && p.calls == [Done, InRing] && p.ring == SecondRing(1, R.Waiting)
    ensures Good(v, p.(ring := SecondRing(1, R.Filling(0))))
  {
    GoodStep(v, p, Produce(1), p.(ring := SecondRing(1, R.Filling(0))));
  }

  /* --------------------------- Without the recheck --------------------------- */

  /** The dispatcher finds the queue empty once more and is about to reset its gate. */
  lemma LookAgain(v: Order, p: Pool)
    requires Good(v, p) && p.disp.DOuterW? && |p.ring.wr| == |p.ring.rd|
    ensures Good(v, p.(disp := DReset))
  {
    var q := p.(disp := DOuterR(|p.ring.wr|));
    assert Good(v, q) by { GoodStep(v, p, Dispatch, q); }
    GoodStep(v, q, Dispatch, p.(disp := DReset));
  }

  lemma ReachReset(v: Order)
    ensures Good(v, Handed().(disp := DReset))
  {
    ReachHanded(v);
    Look(v, Handed());
    LookAgain(v, Handed().(disp := DOuterW));
  }

  /** A second task, submitted and signalled between the dispatcher's look at the queue and its reset. */
  lemma ReachSignalled(v: Order) returns (p: Pool)
    ensures Good(v, p) && p.disp.DReset? && p.running && p.close.Open?
    ensures p.calls == [Done, Done] && |p.ring.rd| == 1 && |p.ring.wr| == 2
  {
    var p0 := Handed().(disp := DReset);
    var p1 := p0.(ring := SecondRing(2, R.Published), calls := [Done, ToStore], place := p0.place + [Queued]);
    assert Good(v, p1) by {
      ReachReset(v);
      ReachSecond(v, p0);
    }
    SignalDispatcher(v, p1, 1);
    p := p1.(flag := 1, calls := p1.calls[1 := Done]);
  }

  /** A dispatcher at its closed gate goes to sleep. */
  lemma DispatcherSleeps(p: Pool)
    requires Reachable(NoRecheck, p) && p.disp.DTop? && p.running && p.flag == 0
    ensures Reachable(NoRecheck, p.(disp := DParked))
  {
    DispatcherCalls(p);
    QuietStep(NoRecheck, p.(disp := DCall), Dispatch, p.(disp := DParked));
  }

  lemma DispatcherCalls(p: Pool)
    requires Reachable(NoRecheck, p) && p.disp.DTop? && p.running && p.flag == 0
    ensures Reachable(NoRecheck, p.(disp := DCall))
  {
    var q := p.(disp := DLoad);
    assert Reachable(NoRecheck, q) by { QuietStep(NoRecheck, p, Dispatch, q); }
    QuietStep(NoRecheck, q, Dispatch, p.(disp := DCall));
  }

  /** Without the recheck, whatever the number of workers: in every reachable state in which a task was
      submitted and signalled after the dispatcher's last look and before its reset, the dispatcher goes to
      sleep with that task in the queue, although every signal has been given. */
  lemma RaceForgets(p: Pool)
    requires Reachable(NoRecheck, p) && p.disp.DReset? && p.running && AllCallsDone(p)
    requires |p.ring.rd| < |p.ring.wr| == |p.calls|
    ensures
      var r := p.(flag := 0, disp := DParked);
      Reachable(NoRecheck, r) && !Delivers(r)
  {
    var q, r := p.(flag := 0, disp := DTop), p.(flag := 0, disp := DParked);
    assert Reachable(NoRecheck, q) by { QuietStep(NoRecheck, p, Dispatch, q); }
    DispatcherSleeps(q);
    assert !Late(r, |p.ring.rd|);
  }

  /** And there is such a state. */
  lemma TaskIsForgotten() returns (p: Pool)
    ensures Reachable(NoRecheck, p) && !Delivers(p)
    ensures p.disp.DParked? && p.flag == 0 && |p.ring.rd| < |p.ring.wr| && AllCallsDone(p) && p.close.Open?
  {
    var q := ReachSignalled(NoRecheck);
    RaceForgets(q);
    p := q.(flag := 0, disp := DParked);
  }

  /* ----------------------- With the freeing first ----------------------- */

  /** The worker has run the first task and is about to clear it. */
  function AtClear(): (p: Pool) {
    Handed().(workers := [Worker(WClear, 1, 1, Some(FIRST), true)], place := [Executed(0)], executed := [FIRST])
  }

  /** The only worker goes through its open gate and starts its task. */
  lemma StartTask(v: Order, p: Pool)
    requires Good(v, p) && |p.workers| == 1 && p.workers[0].pc.WTop? && p.workers[0].running && p.workers[0].flag == 1
    requires p.workers[0].task.Some? && !Lost(p.workers[0])
    ensures Good(v, p.(workers := [p.workers[0].(pc := WExec)]))
  {
    var w := p.workers[0];
    var q := p.(workers := [w.(pc := WTest)]);
    assert Good(v, q) by { ThroughWorkerGate(v, p); }
    GoodStep(v, q, Work(0), p.(workers := [w.(pc := WExec)]));
  }

  lemma ThroughWorkerGate(v: Order, p: Pool)
    requires Good(v, p) && |p.workers| == 1 && p.workers[0].pc.WTop? && p.workers[0].running && p.workers[0].flag == 1
    ensures Good(v, p.(workers := [p.workers[0].(pc := WTest)]))
  {
    var w := p.workers[0];
    var q := p.(workers := [w.(pc := WLoad)]);
    assert Good(v, q) by { GoodStep(v, p, Work(0), q); }
    GoodStep(v, q, Work(0), p.(workers := [w.(pc := WTest)]));
  }

  lemma ReachAtClear(v: Order)
    ensures Good(v, AtClear())
  {
    var p := Handed().(workers := [Worker(WExec, 1, 1, Some(FIRST), true)]);
    assert Good(v, p) by {
      ReachHanded(v);
      StartTask(v, Handed());
    }
    GoodStep(v, p, Work(0), AtClear());
  }

  /** Meanwhile the producer has published a second task and the dispatcher has claimed it. */
  lemma ReachSecondClaim(v: Order) returns (p: Pool)
    ensures Good(v, p) && p.disp.DClaim? && p.id == 0 && p.running && p.workers == AtClear().workers
    ensures p.ring == SecondRing(2, R.Published) && p.place == [Executed(0), Queued]
  {
    var q := AtClear();
    p := q.(ring := SecondRing(2, R.Published), calls := [Done, ToStore], place := q.place + [Queued]);
    assert Good(v, p) by {
      ReachAtClear(v);
      ReachSecond(v, q);
    }
    Look(v, p);
    p := p.(disp := DClaim);
  }

  function SecondTaken(next: nat, ph: R.ReadPhase, log: seq<nat>): (s: R.State) {
    Small([2, next], [Sent(R.Published), Sent(R.Published)], [Got(R.Returned([])), Got(ph)], log)
  }

  /** The dispatcher dequeues the second task and looks for a worker. */
  lemma ReachSearching(v: Order) returns (p: Pool)
    ensures Good(v, p) && p.disp == DScan(SECOND) && p.id == 0 && p.running && p.workers == AtClear().workers
    ensures |p.place| == 2
  {
    var p0 := ReachSecondClaim(v);
    var p1 := p0.(ring := SecondTaken(2, R.Awaiting, [0]), place := [Executed(0), AtDispatcher], disp := DTake(1));
    assert Good(v, p1) by { GoodStep(v, p0, Dispatch, p1); }
    p := p1.(ring := SecondTaken(3, R.Returned([]), [0, 1]), disp := DScan(SECOND));
    TakeSecond(v, p1);
  }

  lemma TakeSecond(v: Order, p: Pool)
    requires Good(v, p) && p.disp == DTake(1) && p.ring == SecondTaken(2, R.Awaiting, [0])
    ensures Good(v, p.(ring := SecondTaken(3, R.Returned([]), [0, 1]), disp := DScan(SECOND)))
  {
    CopySecond(v, p);
    GoodStep(v, p.(ring := SecondTaken(2, R.Copying([]), [0])), Dispatch,
      p.(ring := SecondTaken(3, R.Returned([]), [0, 1]), disp := DScan(SECOND)));
  }

  lemma CopySecond(v: Order, p: Pool)
    requires Good(v, p) && p.disp == DTake(1) && p.ring == SecondTaken(2, R.Awaiting, [0])
    ensures Good(v, p.(ring := SecondTaken(2, R.Copying([]), [0])))
  {
    GoodStep(v, p, Dispatch, p.(ring := SecondTaken(2, R.Copying([]), [0])));
  }

  /** The worker frees itself, before it has reset its gate. */
  lemma ReachFreed() returns (p: Pool)
    ensures Reachable(FreeFirst, p) && p.disp == DScan(SECOND) && p.id == 0 && p.running && |p.place| == 2
    ensures p.workers == [Worker(WReset, 1, 0, None, true)]
  {
    var q := ReachSearching(FreeFirst);
    var q1 := q.(workers := [Worker(WFree, 1, 1, None, true)]);
    assert Reachable(FreeFirst, q1) by { QuietStep(FreeFirst, q, Work(0), q1); }
    p := q.(workers := [Worker(WReset, 1, 0, None, true)]);
    QuietStep(FreeFirst, q1, Work(0), p);
  }

  /** The dispatcher hands it the second task. */
  lemma ReachSecondGiven() returns (p: Pool)
    ensures Reachable(FreeFirst, p) && p.running && p.disp.DStore? && p.id == 0
    ensures p.workers == [Worker(WReset, 1, 1, Some(SECOND), true)]
  {
    var q := ReachFreed();
    var q1 := q.(workers := [Worker(WReset, 1, 1, None, true)], disp := DGive(SECOND));
    assert Reachable(FreeFirst, q1) by { QuietStep(FreeFirst, q, Dispatch, q1); }
    p := q.(workers := [Worker(WReset, 1, 1, Some(SECOND), true)], disp := DStore,
    place := q.place[1 := AtWorker(0)], handed := q.handed + [SECOND]);
    QuietStep(FreeFirst, q1, Dispatch, p);
  }

  /** The dispatcher opens its gate, which is still open. */
  lemma ReachReassigned() returns (p: Pool)
    ensures Reachable(FreeFirst, p) && p.running && p.disp.DRunning?
    ensures p.workers == [Worker(WReset, 1, 1, Some(SECOND), true)]
  {
    var q := ReachSecondGiven();
    StoreAgain(q);
    p := q.(disp := DRunning);
    assert SlotOf(1, 1) == 0;
    QuietStep(FreeFirst, q.(disp := DWake), Dispatch, p);
  }

  lemma StoreAgain(p: Pool)
    requires Reachable(FreeFirst, p) && p.disp.DStore? && p.id == 0 && |p.workers| == 1 && p.workers[0].flag == 1
    ensures Reachable(FreeFirst, p.(disp := DWake))
  {
    QuietStep(FreeFirst, p, Dispatch, p.(disp := DWake));
  }

  /** A worker at its closed gate goes to sleep. */
  lemma FallAsleep(p: Pool, i: nat)
    requires Reachable(FreeFirst, p) && i < |p.workers|
    requires p.workers[i].pc.WTop? && p.workers[i].running && p.workers[i].flag == 0
    ensures Reachable(FreeFirst, p.(workers := p.workers[i := p.workers[i].(pc := WParked)]))
  {
    var q := p.(workers := p.workers[i := p.workers[i].(pc := WCall)]);
    var r := p.(workers := p.workers[i := p.workers[i].(pc := WParked)]);
    assert Reachable(FreeFirst, q) by { WorkerCalls(p, i); }
    assert q.workers[i := r.workers[i]] == r.workers;
    QuietStep(FreeFirst, q, Work(i), r);
  }

  lemma WorkerCalls(p: Pool, i: nat)
    requires Reachable(FreeFirst, p) && i < |p.workers|
    requires p.workers[i].pc.WTop? && p.workers[i].running && p.workers[i].flag == 0
    ensures Reachable(FreeFirst, p.(workers := p.workers[i := p.workers[i].(pc := WCall)]))
  {
    var q := p.(workers := p.workers[i := p.workers[i].(pc := WLoad)]);
    var r := p.(workers := p.workers[i := p.workers[i].(pc := WCall)]);
    assert Reachable(FreeFirst, q) by { QuietStep(FreeFirst, p, Work(i), q); }
    assert q.workers[i := r.workers[i]] == r.workers;
    QuietStep(FreeFirst, q, Work(i), r);
  }

  /** With the freeing first, whatever the number of workers: in every reachable state in which a worker has been
      given its next task and activated before its reset, the reset erases that activation and the worker
      goes to sleep with the task. */
  lemma RaceErases(p: Pool, i: nat)
    requires Reachable(FreeFirst, p) && i < |p.workers|
    requires p.workers[i].pc.WReset? && p.workers[i].running && p.workers[i].task.Some?
    requires !(p.disp.DStore? && p.id == i)
    ensures
      var r := p.(workers := p.workers[i := p.workers[i].(pc := WParked, flag := 0)]);
      Reachable(FreeFirst, r) && !Delivers(r)
  {
    var q := p.(workers := p.workers[i := p.workers[i].(pc := WTop, flag := 0)]);
    var r := p.(workers := p.workers[i := p.workers[i].(pc := WParked, flag := 0)]);
    assert Reachable(FreeFirst, q) by { QuietStep(FreeFirst, p, Work(i), q); }
    FallAsleep(q, i);
    assert q.workers[i := r.workers[i]] == r.workers;
    assert r.workers[i].pc.WParked?;
  }

  /** And there is such a state. */
  lemma ActivationIsErased() returns (p: Pool)
    ensures Reachable(FreeFirst, p) && !Delivers(p) && p.disp.DRunning?
    ensures |p.workers| == 1 && p.workers[0].pc.WParked? && p.workers[0].flag == 0 && p.workers[0].task == Some(SECOND)
  {
    var q := ReachReassigned();
    RaceErases(q, 0);
    p := q.(workers := q.workers[0 := q.workers[0].(pc := WParked, flag := 0)]);
  }
}
