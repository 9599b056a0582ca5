/** What holds in every run of the thread pool. */
module ThreadPoolTheorems {
  import opened Bits
  import R = Ring
  import RP = RingProgress
  import opened ThreadPool
  import PI = ThreadPoolInvariant

  ghost predicate Legal(p: Pool, steps: seq<Step>)
    requires Inv(p)
    decreases |steps|
  {
    steps == [] || (Enabled(p, steps[0]) && (PI.StepKeepsInv(p, steps[0]); Legal(Apply(p, steps[0]), steps[1..])))
  }

  ghost function Run(p: Pool, steps: seq<Step>): (r: Pool)
    requires Inv(p) && Legal(p, steps)
    ensures Inv(r) && |r.workers| == |p.workers|
    decreases |steps|
  {
    if steps == [] then p
    else
      PI.StepKeepsInv(p, steps[0]);
      PI.StepKeepsThreads(p, steps[0]);
      Run(Apply(p, steps[0]), steps[1..])
  }

  /** A constructed pool with n workers. */
  ghost function Start(n: nat, words: nat, stale: seq<Payload>): (p: Pool)
    requires n > 0 && R.GoodStart(words, stale)
    ensures Inv(p) && p.close.Open? && |p.workers| == n
  {
    PI.InitInv(n, words, stale);
    Init(n, words, stale)
  }

  /* ---------------------------- Conservation ---------------------------- */

  /** Where a submitted task can be. */
  datatype Whereabouts =
    | WithProducer        // its enqueue has not published it
    | InQueue             // published, and not yet returned by the dispatcher's dequeue
    | WithDispatcher      // in the dispatcher's local variable
    | Assigned(i: nat)    // in the variable of worker i, not started
    | Executing(i: nat)   // being run by worker i
    | Ran(j: nat)         // at this position of the execution log

  ghost predicate IsAt(p: Pool, t: nat, where: Whereabouts) {
    match where
    case WithProducer => t < |p.calls| && p.calls[t].InRing?
    case InQueue => t < |p.calls| && !p.calls[t].InRing? && (|p.ring.rd| <= t || p.disp == DTake(t))
    case WithDispatcher => (p.disp.DScan? || p.disp.DGive?) && p.disp.task.ticket == t
    case Assigned(i) =>
      && i < |p.workers| && WorkerHolds(p.workers[i]) && !p.workers[i].pc.WExec?
      && p.workers[i].task.value.ticket == t
    case Executing(i) =>
      && i < |p.workers| && WorkerHolds(p.workers[i]) && p.workers[i].pc.WExec?
      && p.workers[i].task.value.ticket == t
    case Ran(j) => j < |p.executed| && p.executed[j].ticket == t
  }

  ghost predicate AtOnePlace(p: Pool, t: nat) {
    exists where: Whereabouts :: IsAt(p, t, where) && forall other: Whereabouts | IsAt(p, t, other) :: other == where
  }

  /** No task is lost and none is doubled: in every run, including destruction, every submitted task
      is at exactly one place, whoever has it has the submitted body, and tasks have been handed to
      workers in ticket order. */
  lemma TasksAreConserved(n: nat, words: nat, stale: seq<Payload>, steps: seq<Step>)
    requires n > 0 && R.GoodStart(words, stale) && Legal(Start(n, words, stale), steps)
    ensures
      var p := Run(Start(n, words, stale), steps);
      && (forall t: nat | t < |p.ring.wr| :: AtOnePlace(p, t))
      && (forall i | 0 <= i < |p.workers| && p.workers[i].task.Some? :: RightTask(p, p.workers[i].task.value))
      && (forall j | 0 <= j < |p.executed| :: RightTask(p, p.executed[j]))
      && (forall j | 0 <= j < |p.handed| :: p.handed[j].ticket == j && RightTask(p, p.handed[j]))
      && |p.handed| <= |p.ring.rd| <= |p.ring.wr|
  {
    var p := Run(Start(n, words, stale), steps);
    forall t: nat | t < |p.ring.wr| ensures AtOnePlace(p, t) {
      OnePlace(p, t);
      assert IsAt(p, t, Where(p, t));
    }
  }

  ghost function Where(p: Pool, t: nat): (where: Whereabouts)
    requires Shape(p) && t < |p.ring.wr|
  {
    if p.calls[t].InRing? then WithProducer
    else match p.place[t]
      case Queued => InQueue
      case AtDispatcher => if p.disp.DTake? then InQueue else WithDispatcher
      case AtWorker(i) => if i < |p.workers| && p.workers[i].pc.WExec? then Executing(i) else Assigned(i)
      case Executed(j) => Ran(j)
  }

  /** What the dispatcher's dequeue has returned was published. */
  lemma ReturnedIsPublished(p: Pool, t: nat)
    requires Shape(p) && t < |p.ring.rd| && p.disp != DTake(t)
    ensures !p.calls[t].InRing?
  {
    assert R.ReadMeaning(p.ring, t);
  }

  lemma OnePlace(p: Pool, t: nat)
    requires Inv(p) && t < |p.ring.wr|
    ensures IsAt(p, t, Where(p, t))
    ensures forall other: Whereabouts | IsAt(p, t, other) :: other == Where(p, t)
  {
    assert PlaceMeaning(p, t);
    if t < |p.ring.rd| && p.disp != DTake(t) { ReturnedIsPublished(p, t); }
    forall other: Whereabouts | IsAt(p, t, other) ensures other == Where(p, t) {
      match other
      case Assigned(i) => assert WorkerHolds(p.workers[i]);
      case Executing(i) => assert WorkerHolds(p.workers[i]);
      case Ran(j) => assert RightTask(p, p.executed[j]);
      case _ =>
    }
  }

  /* ------------------------------ Wake-ups ------------------------------ */

  /** No lost wake-up: whenever the dispatcher is parked, or about to park, with the task flag down,
      every task it has not claimed belongs to a producer that has still to store the flag; and if it
      is parked with the flag up, a wake is on its way. */
  lemma NoLostWakeup(n: nat, words: nat, stale: seq<Payload>, steps: seq<Step>)
    requires n > 0 && R.GoodStart(words, stale) && Legal(Start(n, words, stale), steps)
    ensures
      var p := Run(Start(n, words, stale), steps);
      && (AtGate(p.disp) && p.flag == 0 ==>
            forall t: nat | |p.ring.rd| <= t < |p.ring.wr| :: Late(p, t))
      && (p.disp.DParked? && p.flag == 1 ==> p.close.CWake? || exists t: nat :: t < |p.calls| && p.calls[t].ToWake?)
      && (forall i: nat | i < |p.workers| && p.workers[i].pc.WParked? && p.workers[i].flag == 1 ::
            (p.disp.DWake? && p.id == i) || p.close == KWake(i))
  {
    var p := Run(Start(n, words, stale), steps);
    forall i: nat | i < |p.workers| && p.workers[i].pc.WParked? && p.workers[i].flag == 1
      ensures (p.disp.DWake? && p.id == i) || p.close == KWake(i)
    {
      assert WorkerInv(p, i);
    }
  }

  /** The handoff: before destruction a free worker has no task and its flag down; the dispatcher never
      touches a task variable while the worker tests, runs or clears it; a worker resets its gate only
      when no task is waiting in it, so no activation is erased; and a task that waits in a worker has
      its flag up, unless the dispatcher is just about to raise it. */
  lemma HandoffIsSafe(n: nat, words: nat, stale: seq<Payload>, steps: seq<Step>, i: nat)
    requires n > 0 && R.GoodStart(words, stale) && Legal(Start(n, words, stale), steps)
    requires i < |Run(Start(n, words, stale), steps).workers|
    ensures
      var p := Run(Start(n, words, stale), steps);
      var w := p.workers[i];
      && (p.close.Open? && w.poolFlag == 0 ==> w.task.None? && w.flag == 0)
      && (p.disp.DGive? && p.id == i ==> w.task.None? && !w.pc.WTest? && !w.pc.WExec? && !w.pc.WClear?)
      && (w.pc.WReset? ==> w.task.None? && w.poolFlag == 1 && !((p.disp.DGive? || p.disp.DStore?) && p.id == i))
      && (w.task.Some? && Waits(w.pc) ==> w.flag == 1 || (p.disp.DStore? && p.id == i))
  {
    assert WorkerInv(Run(Start(n, words, stale), steps), i);
  }

  /* ------------------------------ Quiescence ------------------------------ */

  /** The worker goes round its loop with an empty task: its gate is open and it finds nothing to run. */
  predicate Spins(w: Worker) {
    Lost(w) && w.running && w.flag == 1 && (w.pc.WTop? || w.pc.WLoad? || w.pc.WTest?)
  }

  ghost predicate SomeoneFree(p: Pool) {
    exists i: nat :: i < |p.workers| && p.workers[i].poolFlag == 0
  }

  /** A step that is neither a new submission, the decision to destroy the pool, a spurious wake-up, a
      failing load of a ring guard, a compare-exchange of the scan while every worker is taken, nor a
      step of a worker going round with an empty task. */
  ghost predicate Productive(p: Pool, a: Step)
    requires Shape(p)
  {
    match a
    case Produce(t) =>
      Enabled(p, a) && (p.calls[t].InRing? && p.ring.wr[t].phase.Waiting? ==> R.WriteGuard(p.ring, t))
    case Dispatch =>
      && Enabled(p, a)
      && (p.disp.DTake? && p.ring.rd[p.disp.t].phase.Awaiting? ==> R.ReadGuard(p.ring, p.disp.t))
      && (p.disp.DScan? ==> SomeoneFree(p))
    case Work(i) => Enabled(p, a) && !Spins(p.workers[i])
    case Close => Enabled(p, a) && !p.close.Open?
    case _ => false
  }

  ghost predicate Stuck(p: Pool)
    requires Shape(p)
  {
    forall a: Step :: !Productive(p, a)
  }

  lemma StuckRing(p: Pool)
    requires Inv(p) && Stuck(p)
    ensures RP.BlockedExactly(p.ring)
  {
    forall a: R.Step ensures !RP.Productive(p.ring, a) {
      match a
      case AdvanceWrite(t) => assert !Productive(p, Produce(t));
      case AdvanceRead(t) => assert !Productive(p, Dispatch);
      case _ =>
    }
    RP.StuckIff(p.ring);
  }

  /** With nothing productive left, a worker sleeps, has left its loop, or goes round with an empty task. */
  lemma StuckWorker(p: Pool, i: nat)
    requires Inv(p) && Stuck(p) && i < |p.workers|
    ensures p.workers[i].pc.WParked? || p.workers[i].pc.WExit? || Spins(p.workers[i])
    ensures !p.disp.DGive? && !p.disp.DStore? && !p.disp.DWake? && p.close != KWake(i)
    ensures p.workers[i].pc.WParked? ==>
              p.workers[i].flag == 0 && p.workers[i].poolFlag == 0 && p.workers[i].task.None? && p.workers[i].running
  {
    assert !Productive(p, Work(i)) && !Productive(p, Dispatch) && !Productive(p, Close);
    assert WorkerInv(p, i);
  }

  /** The dispatcher searches for ever: it has a task, and every worker goes round with an empty one. */
  ghost predicate Starved(p: Pool) {
    p.disp.DScan? && forall i: nat | i < |p.workers| :: Spins(p.workers[i])
  }

  lemma StuckDispatcher(p: Pool)
    requires Inv(p) && Stuck(p)
    ensures p.disp.DParked? || p.disp.DExit? || Starved(p)
    ensures p.disp.DExit? ==> !p.running
  {
    StuckRing(p);
    StuckWorker(p, p.id);
    assert !Productive(p, Dispatch);
    if p.disp.DScan? {
      forall i: nat | i < |p.workers| ensures Spins(p.workers[i]) {
        StuckWorker(p, i);
        assert WorkerInv(p, i);
      }
    }
  }

  lemma StuckCallsDone(p: Pool)
    requires Inv(p) && Stuck(p) && p.close.Open? && !p.disp.DScan?
    ensures AllCallsDone(p) && |p.ring.rd| == |p.ring.wr| && p.disp.DParked?
  {
    StuckDispatcher(p);
    StuckRing(p);
    forall t: nat | t < |p.calls| ensures !p.calls[t].ToStore? && !p.calls[t].ToWake? {
      assert !Productive(p, Produce(t));
    }
    assert |p.ring.rd| == |p.ring.wr| || p.flag == 1 || Late(p, |p.ring.rd|);
  }

  /** Task t has been executed, with the body that was submitted. */
  ghost predicate HasRun(p: Pool, t: nat)
    requires t < |p.ring.wr|
  {
    exists j: nat :: j < |p.executed| && p.executed[j] == Task(t, p.ring.wr[t].value)
  }

  lemma HasRunIffLogged(p: Pool, t: nat)
    requires Inv(p) && t < |p.ring.wr|
    ensures HasRun(p, t) <==> Where(p, t).Ran?
    ensures HasRun(p, t) ==> !EmptyBody(p.ring.wr[t].value)
  {
    OnePlace(p, t);
    if Where(p, t).Ran? { assert RightTask(p, p.executed[Where(p, t).j]); }
    if HasRun(p, t) {
      var j: nat :| j < |p.executed| && p.executed[j] == Task(t, p.ring.wr[t].value);
      assert IsAt(p, t, Ran(j));
    }
  }

  lemma {:induction false} EmptyCountMonotone(wr: seq<R.WriteOp>, t: nat, u: nat)
    requires t <= u <= |wr|
    ensures EmptyCount(wr, t) <= EmptyCount(wr, u)
    decreases u
  {
    if t == u {
    } else {
      EmptyCountMonotone(wr, t, u - 1);
    }
  }

  lemma StuckOpenWorker(p: Pool, i: nat)
    requires Inv(p) && Stuck(p) && p.close.Open? && i < |p.workers|
    ensures if Lost(p.workers[i]) then Spins(p.workers[i]) else p.workers[i].pc.WParked?
  {
    StuckWorker(p, i);
    assert WorkerInv(p, i);
  }

  /** What has been handed over is with a worker or has been run. */
  lemma HandedPlace(p: Pool, t: nat)
    requires Shape(p) && PlaceInv(p) && HandedInv(p) && t < |p.handed|
    ensures t < |p.ring.rd| && p.disp != DTake(t) && (p.place[t].AtWorker? || p.place[t].Executed?)
  {
    assert PlaceMeaning(p, t);
  }

  /** With nothing productive left, a task that is with a worker is empty. */
  lemma StuckAssigned(p: Pool, t: nat)
    requires Inv(p) && Stuck(p) && p.close.Open? && t < |p.ring.wr| && p.place[t].AtWorker?
    ensures EmptyBody(p.ring.wr[t].value)
  {
    assert PlaceMeaning(p, t);
    var i := p.place[t].i;
    StuckOpenWorker(p, i);
    assert RightTask(p, p.workers[i].task.value);
    StuckWorker(p, i);
  }

  lemma HandedHasRun(p: Pool, t: nat)
    requires Inv(p) && t < |p.handed|
    ensures t < |p.ring.wr| && (p.place[t].AtWorker? <==> !HasRun(p, t))
  {
    HandedPlace(p, t);
    ReturnedIsPublished(p, t);
    HasRunIffLogged(p, t);
  }

  lemma HandedCount(p: Pool, t: nat)
    requires |p.handed| <= |p.ring.wr| && LostInv(p) && t < |p.handed|
    ensures EmptyCount(p.ring.wr, t) < |p.workers|
  {
    EmptyCountMonotone(p.ring.wr, t, |p.handed| - 1);
  }

  lemma StuckHandedHasRun(p: Pool, t: nat)
    requires Inv(p) && Stuck(p) && p.close.Open? && t < |p.handed|
    ensures t < |p.ring.wr| && (HasRun(p, t) <==> !EmptyBody(p.ring.wr[t].value))
  {
    HandedHasRun(p, t);
    if HasRun(p, t) { HasRunIffLogged(p, t); } else { StuckAssigned(p, t); }
  }

  /** What has not been handed over came after as many empty tasks as there are workers. */
  lemma StuckNotHanded(p: Pool, t: nat)
    requires Inv(p) && Stuck(p) && p.close.Open? && |p.handed| <= t < |p.ring.wr|
    ensures !HasRun(p, t) && EmptyCount(p.ring.wr, t) >= |p.workers|
  {
    StuckDispatcher(p);
    if !p.disp.DScan? { StuckCallsDone(p); }
    EmptyCountMonotone(p.ring.wr, |p.handed|, t);
    PI.LostCountBound(p.workers);
    HasRunIffLogged(p, t);
    assert PlaceMeaning(p, t);
  }

  /** Every submission came after fewer empty tasks than there are workers. */
  ghost predicate WorkerLeft(p: Pool) {
    p.ring.wr == [] || EmptyCount(p.ring.wr, |p.ring.wr| - 1) < |p.workers|
  }

  /** With nothing productive left, task t has been run exactly if it has a target and came after fewer
      empty tasks than there are workers. */
  lemma StuckHasRun(p: Pool, t: nat)
    requires Inv(p) && Stuck(p) && p.close.Open? && t < |p.ring.wr|
    ensures HasRun(p, t) <==> !EmptyBody(p.ring.wr[t].value) && EmptyCount(p.ring.wr, t) < |p.workers|
  {
    if t < |p.handed| {
      StuckHandedHasRun(p, t);
      HandedCount(p, t);
    } else {
      StuckNotHanded(p, t);
    }
  }

  lemma StarvedMeansNoneLeft(p: Pool)
    requires Inv(p) && Starved(p)
    ensures !WorkerLeft(p)
  {
    PI.LostCountBound(p.workers);
    EmptyCountMonotone(p.ring.wr, |p.handed|, |p.ring.wr| - 1);
  }

  lemma StuckThreads(p: Pool)
    requires Inv(p) && Stuck(p) && p.close.Open?
    ensures if WorkerLeft(p) then AllCallsDone(p) && p.disp.DParked? else Starved(p)
  {
    StuckDispatcher(p);
    if p.disp.DScan? {
      StarvedMeansNoneLeft(p);
    } else {
      StuckCallsDone(p);
      if p.ring.wr != [] { HandedCount(p, |p.ring.wr| - 1); }
    }
  }

  lemma ExecutedOnce(p: Pool, j: nat, k: nat)
    requires Inv(p) && j < k < |p.executed|
    ensures p.executed[j].ticket != p.executed[k].ticket
  {
    assert RightTask(p, p.executed[j]) && RightTask(p, p.executed[k]);
  }

  /** The pool finishes its work, as far as empty tasks let it.  In every run without destruction, in a
      state with no productive step left: exactly those tasks have been executed, once each, that have a
      target and were submitted after fewer empty tasks than there are workers.  If no submission came
      after that many empty tasks, every assignTask call has returned, the dispatcher sleeps and so does
      every worker that got no empty task; otherwise the dispatcher searches for a worker for ever. */
  lemma PoolQuiesces(n: nat, words: nat, stale: seq<Payload>, steps: seq<Step>)
    requires n > 0 && R.GoodStart(words, stale) && Legal(Start(n, words, stale), steps)
    requires Stuck(Run(Start(n, words, stale), steps)) && Run(Start(n, words, stale), steps).close.Open?
    ensures
      var p := Run(Start(n, words, stale), steps);
      && (forall t: nat | t < |p.ring.wr| ::
            HasRun(p, t) <==> !EmptyBody(p.ring.wr[t].value) && EmptyCount(p.ring.wr, t) < n)
      && (forall j, k | 0 <= j < k < |p.executed| :: p.executed[j].ticket != p.executed[k].ticket)
      && (if WorkerLeft(p) then AllCallsDone(p) && p.disp.DParked? else Starved(p))
      && (forall i: nat | i < |p.workers| ::
            if Lost(p.workers[i]) then Spins(p.workers[i]) else p.workers[i].pc.WParked?)
  {
    var p := Run(Start(n, words, stale), steps);
    StuckThreads(p);
    forall j, k | 0 <= j < k < |p.executed| ensures p.executed[j].ticket != p.executed[k].ticket {
      ExecutedOnce(p, j, k);
    }
    forall i: nat | i < |p.workers|
      ensures if Lost(p.workers[i]) then Spins(p.workers[i]) else p.workers[i].pc.WParked?
    {
      StuckOpenWorker(p, i);
    }
    forall t: nat | t < |p.ring.wr|
      ensures HasRun(p, t) <==> !EmptyBody(p.ring.wr[t].value) && EmptyCount(p.ring.wr, t) < n
    {
      StuckHasRun(p, t);
    }
  }

  lemma {:induction false} NoneEmpty(wr: seq<R.WriteOp>, t: nat)
    requires t <= |wr| && forall u | 0 <= u < |wr| :: !EmptyBody(wr[u].value)
    ensures EmptyCount(wr, t) == 0
  {
    if t == 0 {
    } else {
      NoneEmpty(wr, t - 1);
    }
  }

  /** Without empty tasks everything has been executed, every call has returned and everybody sleeps. */
  lemma PoolRunsEverything(n: nat, words: nat, stale: seq<Payload>, steps: seq<Step>)
    requires n > 0 && R.GoodStart(words, stale) && Legal(Start(n, words, stale), steps)
    requires Stuck(Run(Start(n, words, stale), steps)) && Run(Start(n, words, stale), steps).close.Open?
    requires
      var wr := Run(Start(n, words, stale), steps).ring.wr;
      forall t | 0 <= t < |wr| :: !EmptyBody(wr[t].value)
    ensures
      var p := Run(Start(n, words, stale), steps);
      && (forall t: nat | t < |p.ring.wr| :: HasRun(p, t))
      && AllCallsDone(p) && p.disp.DParked? && (forall i: nat | i < |p.workers| :: p.workers[i].pc.WParked?)
  {
    var p := Run(Start(n, words, stale), steps);
    PoolQuiesces(n, words, stale, steps);
    forall t: nat | t < |p.ring.wr| ensures EmptyCount(p.ring.wr, t) == 0 { NoneEmpty(p.ring.wr, t); }
    forall i: nat | i < |p.workers| ensures !Lost(p.workers[i]) {
      assert p.workers[i].task.Some? ==> RightTask(p, p.workers[i].task.value);
    }
  }

  /* ------------------------------- Shutdown ------------------------------- */

  /** Task t is still queued, or in the variable of a worker that left its loop without starting it. */
  ghost predicate WasDropped(p: Pool, t: nat) {
    IsAt(p, t, InQueue) || exists i: nat :: IsAt(p, t, Assigned(i)) && p.workers[i].pc.WExit?
  }

  lemma StuckIsClosed(p: Pool)
    requires Inv(p) && Stuck(p) && !p.close.Open? && !Starved(p)
    ensures p.close.Closed? && p.disp.DExit?
    ensures forall i: nat | i < |p.workers| :: p.workers[i].pc.WExit?
  {
    StuckDispatcher(p);
    assert !Productive(p, Close);
    forall i: nat | i < |p.workers| && Signalled(p, i) && p.close != KWake(i) ensures p.workers[i].pc.WExit? {
      StuckWorker(p, i);
      assert WorkerInv(p, i);
    }
  }

  lemma RunOrDropped(p: Pool, t: nat)
    requires Inv(p) && p.close.Closed? && p.disp.DExit? && t < |p.ring.wr|
    requires forall i: nat | i < |p.workers| :: p.workers[i].pc.WExit?
    ensures HasRun(p, t) != WasDropped(p, t)
  {
    OnePlace(p, t);
    HasRunIffLogged(p, t);
    match Where(p, t)
    case Assigned(i) => assert IsAt(p, t, Assigned(i));
    case _ =>
  }

  /** Destruction gets through: once it has begun, in any state of any run, a state with no productive step
      left is one in which both destructors have finished and every thread has left its loop.  Nothing has
      been executed twice; what was dropped was still queued or waiting, unstarted, in a worker.  The one
      exception is a dispatcher that was already searching for a worker while all of them go round with
      empty tasks: it does not look at the stop flag and is never joined. */
  lemma ShutdownCompletes(n: nat, words: nat, stale: seq<Payload>, steps: seq<Step>)
    requires n > 0 && R.GoodStart(words, stale) && Legal(Start(n, words, stale), steps)
    requires Stuck(Run(Start(n, words, stale), steps)) && !Run(Start(n, words, stale), steps).close.Open?
    ensures
      var p := Run(Start(n, words, stale), steps);
      && (forall j, k | 0 <= j < k < |p.executed| :: p.executed[j].ticket != p.executed[k].ticket)
      && (Starved(p) ==> !WorkerLeft(p) && p.close.CJoin?)
      && (!Starved(p) ==>
            && p.close.Closed?
            && p.disp.DExit?
            && (forall i: nat | i < |p.workers| :: p.workers[i].pc.WExit?)
            && (forall t: nat | t < |p.ring.wr| :: HasRun(p, t) != WasDropped(p, t)))
  {
    var p := Run(Start(n, words, stale), steps);
    forall j, k | 0 <= j < k < |p.executed| ensures p.executed[j].ticket != p.executed[k].ticket {
      ExecutedOnce(p, j, k);
    }
    if Starved(p) {
      StarvedMeansNoneLeft(p);
      assert !Productive(p, Close);
    } else {
      StuckIsClosed(p);
      forall t: nat | t < |p.ring.wr| ensures HasRun(p, t) != WasDropped(p, t) { RunOrDropped(p, t); }
    }
  }
}
