/** The thread pool: producers, one dispatcher, any number of workers and the destructor, over the
    ring and single-waiter futex gates, one access per step.

    Each thread's next access is determined by its program counter, so a step only names the
    thread that moves.  Besides the program's variables the state carries three history variables:
    where each task is, the hand-overs in order and the executions in order.  A task is named by
    the write ticket under which it was submitted. */
module ThreadPool {
  import opened Bits
  import R = Ring

  datatype Option<T> = None | Some(value: T)

  datatype Task = Task(ticket: nat, body: Payload)

  /** A task without a target: its first word is null. */
  predicate EmptyBody(body: Payload) {
    body != [] && body[0] == 0
  }

  /** assignTask: inside enqueue, before the flag store, before the wake, returned. */
  datatype CallPc = InRing | ToStore | ToWake | Done

  /** thread_loop, by the access that comes next. */
  datatype WorkerPc =
    | WTop      // test running
    | WLoad     // gate: load the flag
    | WCall     // gate: futex call
    | WParked
    | WTest     // test the task
    | WExec     // inside the task
    | WClear    // task = nullptr
    | WReset    // gate reset
    | WFree     // poolFlag = 0
    | WExit

  datatype Worker = Worker(pc: WorkerPc, flag: nat, poolFlag: nat, task: Option<Task>, running: bool)

  /** The worker has been given an empty task, which it will neither run nor clear. */
  predicate Lost(w: Worker) {
    w.task.Some? && EmptyBody(w.task.value.body)
  }

  /** taskDispatcher, by the access that comes next. */
  datatype DispatcherPc =
    | DTop | DLoad | DCall | DParked
    | DRunning                       // inner loop: test running
    | DEmptyW | DEmptyR(w: nat)      // inner loop: the two loads of isEmpty
    | DClaim | DTake(t: nat)         // dequeue: ticket claim, then the ring's own steps
    | DScan(task: Task)              // compare-exchange of the current worker's poolFlag
    | DGive(task: Task)              // activateWorker: store the task
    | DStore | DWake                 // activateWorker: the two halves of signaler
    | DOuterW | DOuterR(w: nat)      // isEmpty after the inner loop
    | DReset                         // gate reset
    | DRecheckW | DRecheckR(w: nat)  // isEmpty again
    | DResignal | DRewake            // the two halves of signaler
    | DExit

  /** The destructors: pool, then workers from last to first. */
  datatype ClosePc =
    | Open | CStore | CWake | CJoin
    | KStop(i: nat) | KStore(i: nat) | KWake(i: nat) | KJoin(i: nat)
    | Closed

  datatype Place = Queued | AtDispatcher | AtWorker(i: nat) | Executed(j: nat)

  datatype Pool = Pool(
    ring: R.State,
    calls: seq<CallPc>,
    flag: nat,
    running: bool,
    disp: DispatcherPc,
    id: nat,
    workers: seq<Worker>,
    close: ClosePc,
    place: seq<Place>,
    handed: seq<Task>,
    executed: seq<Task>)

  datatype Step =
    | Submit(th: R.ThreadId, body: Payload)
    | Produce(t: nat)
    | Dispatch
    | Work(i: nat)
    | SpuriousDispatcher
    | SpuriousWorker(i: nat)
    | Close

  const DISPATCHER: R.ThreadId := 0

  /** The ring as the pool uses it: the dispatcher is the only consumer, and all its dequeues have
      returned except the last one while it is taking a task. */
  ghost predicate RingShape(ring: R.State, calls: seq<CallPc>, taking: bool) {
    && R.Inv(ring)
    && |calls| == |ring.wr|
    && |ring.rd| <= |ring.wr|
    && (forall t | 0 <= t < |calls| :: calls[t].InRing? <==> !ring.wr[t].phase.Published?)
    && (forall t | 0 <= t < |ring.wr| :: ring.wr[t].owner != DISPATCHER)
    && (forall t | 0 <= t < |ring.rd| :: ring.rd[t].owner == DISPATCHER)
    && (taking ==> |ring.rd| > 0)
    && (forall t | 0 <= t < |ring.rd| :: ring.rd[t].phase.Returned? <==> !(taking && t + 1 == |ring.rd|))
  }

  predicate CloseShape(c: ClosePc, n: nat) {
    match c
    case KStop(i) => i < n
    case KStore(i) => i < n
    case KWake(i) => i < n
    case KJoin(i) => i < n
    case _ => true
  }

  ghost predicate Shape(p: Pool) {
    && RingShape(p.ring, p.calls, p.disp.DTake?)
    && |p.place| == |p.ring.wr|
    && 0 < |p.workers| && p.id < |p.workers|
    && (p.disp.DTake? ==> p.disp.t + 1 == |p.ring.rd|)
    && (p.disp.DClaim? ==> |p.ring.rd| < |p.ring.wr|)
    && CloseShape(p.close, |p.workers|)
  }

  /** A thread is inside at most one assignTask call. */
  predicate CallsDone(p: Pool, th: R.ThreadId)
    requires |p.calls| == |p.ring.wr|
  {
    forall t | 0 <= t < |p.calls| && p.ring.wr[t].owner == th :: p.calls[t].Done?
  }

  predicate AllCallsDone(p: Pool) {
    forall t | 0 <= t < |p.calls| :: p.calls[t].Done?
  }

  /** Submissions stop before destruction starts, and destruction starts with no call in flight. */
  predicate Enabled(p: Pool, a: Step)
    requires |p.calls| == |p.ring.wr|
  {
    match a
    case Submit(th, b) =>
      p.close.Open? && th != DISPATCHER && CallsDone(p, th) && R.Enabled(p.ring, R.ClaimWrite(th, b))
    case Produce(t) => t < |p.calls| && !p.calls[t].Done?
    case Dispatch => !p.disp.DParked? && !p.disp.DExit?
    case Work(i) => i < |p.workers| && !p.workers[i].pc.WParked? && !p.workers[i].pc.WExit?
    case SpuriousDispatcher => p.disp.DParked?
    case SpuriousWorker(i) => i < |p.workers| && p.workers[i].pc.WParked?
    case Close =>
      match p.close
      case Open => AllCallsDone(p)
      case CJoin => p.disp.DExit?
      case KJoin(i) => i < |p.workers| && p.workers[i].pc.WExit?
      case Closed => false
      case _ => true
  }

  function UnparkDispatcher(d: DispatcherPc): (r: DispatcherPc) {
    if d.DParked? then DLoad else d
  }

  function UnparkWorker(w: Worker): (r: Worker) {
    if w.pc.WParked? then w.(pc := WLoad) else w
  }

  function ProduceStep(p: Pool, t: nat): (r: Pool)
    requires Shape(p) && Enabled(p, Produce(t))
  {
    match p.calls[t]
    case InRing =>
      var ring := R.WriteStep(p.ring, t);
      p.(ring := ring, calls := if ring.wr[t].phase.Published? then p.calls[t := ToStore] else p.calls)
    case ToStore => p.(flag := 1, calls := p.calls[t := ToWake])
    case ToWake => p.(disp := UnparkDispatcher(p.disp), calls := p.calls[t := Done])
  }

  function DispatchStep(p: Pool): (r: Pool)
    requires Shape(p) && Enabled(p, Dispatch)
  {
    var w := p.workers[p.id];
    match p.disp
    case DTop => p.(disp := if p.running then DLoad else DExit)
    case DLoad => p.(disp := if p.flag == 1 then DRunning else DCall)
    case DCall => p.(disp := if p.flag == 0 then DParked else DLoad)
    case DRunning => p.(disp := if p.running then DEmptyW else DOuterW)
    case DEmptyW => p.(disp := DEmptyR(|p.ring.wr|))
    case DEmptyR(n) => p.(disp := if n == |p.ring.rd| then DOuterW else DClaim)
    case DClaim =>
      p.(ring := R.Apply(p.ring, R.ClaimRead(DISPATCHER)),
      place := p.place[|p.ring.rd| := AtDispatcher],
      disp := DTake(|p.ring.rd|))
    case DTake(t) =>
      var ring := R.ReadStep(p.ring, t);
      var phase := ring.rd[t].phase;
      p.(ring := ring, disp := if phase.Returned? then DScan(Task(t, phase.value)) else p.disp)
    case DScan(task) =>
      if w.poolFlag == 0 then p.(workers := p.workers[p.id := w.(poolFlag := 1)], disp := DGive(task))
      else p.(id := SlotOf(p.id + 1, |p.workers|))
    case DGive(task) =>
      p.(workers := p.workers[p.id := w.(task := Some(task))],
      place := if task.ticket < |p.place| then p.place[task.ticket := AtWorker(p.id)] else p.place,
      handed := p.handed + [task],
      disp := DStore)
    case DStore => p.(workers := p.workers[p.id := w.(flag := 1)], disp := DWake)
    case DWake =>
      p.(workers := p.workers[p.id := UnparkWorker(w)], id := SlotOf(p.id + 1, |p.workers|), disp := DRunning)
    case DOuterW => p.(disp := DOuterR(|p.ring.wr|))
    case DOuterR(n) => p.(disp := if n == |p.ring.rd| then DReset else DTop)
    case DReset => p.(flag := 0, disp := DRecheckW)
    case DRecheckW => p.(disp := DRecheckR(|p.ring.wr|))
    case DRecheckR(n) => p.(disp := if n == |p.ring.rd| then DTop else DResignal)
    case DResignal => p.(flag := 1, disp := DRewake)
    case DRewake => p.(disp := DTop)
  }

  /** What a step of a worker does to its own record. */
  function WorkerStep(w: Worker): (r: Worker)
    requires !w.pc.WParked? && !w.pc.WExit?
  {
    match w.pc
    case WTop => w.(pc := if w.running then WLoad else WExit)
    case WLoad => w.(pc := if w.flag == 1 then WTest else WCall)
    case WCall => w.(pc := if w.flag == 0 then WParked else WLoad)
    case WTest => w.(pc := if w.task.Some? && !Lost(w) then WExec else WTop)
    case WExec => w.(pc := WClear)
    case WClear => w.(pc := WReset, task := None)
    case WReset => w.(pc := WFree, flag := 0)
    case WFree => w.(pc := WTop, poolFlag := 0)
  }

  function WorkStep(p: Pool, i: nat): (r: Pool)
    requires Shape(p) && Enabled(p, Work(i))
  {
    var w := p.workers[i];
    var q := p.(workers := p.workers[i := WorkerStep(w)]);
    if w.pc.WExec? && w.task.Some? && w.task.value.ticket < |p.place| then
      q.(place := p.place[w.task.value.ticket := Executed(|p.executed|)], executed := p.executed + [w.task.value])
    else q
  }

  function CloseStep(p: Pool): (r: Pool)
    requires Shape(p) && Enabled(p, Close)
  {
    match p.close
    case Open => p.(running := false, close := CStore)
    case CStore => p.(flag := 1, close := CWake)
    case CWake => p.(disp := UnparkDispatcher(p.disp), close := CJoin)
    case CJoin => p.(close := KStop(|p.workers| - 1))
    case KStop(i) => p.(workers := p.workers[i := p.workers[i].(running := false)], close := KStore(i))
    case KStore(i) => p.(workers := p.workers[i := p.workers[i].(flag := 1)], close := KWake(i))
    case KWake(i) => p.(workers := p.workers[i := UnparkWorker(p.workers[i])], close := KJoin(i))
    case KJoin(i) => p.(close := if i == 0 then Closed else KStop(i - 1))
  }

  function Apply(p: Pool, a: Step): (r: Pool)
    requires Shape(p) && Enabled(p, a)
  {
    match a
    case Submit(th, b) =>
      p.(ring := R.Apply(p.ring, R.ClaimWrite(th, b)), calls := p.calls + [InRing], place := p.place + [Queued])
    case Produce(t) => ProduceStep(p, t)
    case Dispatch => DispatchStep(p)
    case Work(i) => WorkStep(p, i)
    case SpuriousDispatcher => p.(disp := DLoad)
    case SpuriousWorker(i) => p.(workers := p.workers[i := p.workers[i].(pc := WLoad)])
    case Close => CloseStep(p)
  }

  /** The constructed pool over a constructed ring. */
  function Init(n: nat, words: nat, stale: seq<Payload>): (p: Pool) {
    Pool(R.Init(words, stale), [], 0, true, DTop, 0,
         seq(n, _ => Worker(WTop, 0, 0, None, true)), Open, [], [], [])
  }

  /* ------------------------------- Invariant ------------------------------- */

  /** The submitting call has not yet stored the flag. */
  predicate Late(p: Pool, t: nat) {
    t < |p.calls| && (p.calls[t].InRing? || p.calls[t].ToStore?)
  }

  ghost predicate LateFrom(p: Pool, n: nat) {
    forall t | n <= t < |p.calls| :: Late(p, t)
  }

  predicate DispatcherHolds(p: Pool) {
    p.disp.DTake? || p.disp.DScan? || p.disp.DGive?
  }

  predicate AtGate(d: DispatcherPc) {
    d.DLoad? || d.DCall? || d.DParked?
  }

  /** Past the gate and before the reset, the task flag is up. */
  predicate PastGate(d: DispatcherPc) {
    d.DRunning? || d.DEmptyW? || d.DEmptyR? || d.DClaim? || d.DTake? || d.DScan? || d.DGive? || d.DStore? ||
    d.DWake? || d.DOuterW? || d.DOuterR? || d.DReset? || d.DRewake?
  }

  ghost predicate SomeoneOwesWake(p: Pool) {
    p.close.CWake? || exists t: nat :: t < |p.calls| && p.calls[t].ToWake?
  }

  /** With the flag down, every ticket from this one on has a flag store still to come.  Between the
      reset and the recheck there is no such promise for tickets claimed before the recheck. */
  function CheckedUpTo(p: Pool): (n: nat) {
    if p.disp.DRecheckW? || p.disp.DResignal? then |p.calls|
    else if p.disp.DRecheckR? then p.disp.w
    else |p.ring.rd|
  }

  /** The dispatcher's gate: no submission is lost and no wake-up is lost. */
  ghost predicate GateInv(p: Pool) {
    && (p.flag == 0 || p.flag == 1)
    && (PastGate(p.disp) ==> p.flag == 1)
    && (p.flag == 0 ==> LateFrom(p, CheckedUpTo(p)))
    && (p.disp.DEmptyR? ==> |p.ring.rd| <= p.disp.w <= |p.ring.wr|)
    && (p.disp.DOuterR? ==> |p.ring.rd| <= p.disp.w <= |p.ring.wr|)
    && (p.disp.DRecheckR? ==> |p.ring.rd| <= p.disp.w <= |p.ring.wr|)
    && (p.disp.DResignal? ==> |p.ring.rd| < |p.ring.wr|)
    && (p.disp.DParked? && p.flag == 1 ==> SomeoneOwesWake(p))
    && (!p.close.Open? && !p.close.CStore? && AtGate(p.disp) ==> p.flag == 1)
  }

  /** The order of destruction. */
  ghost predicate CloseInv(p: Pool) {
    && (p.running <==> p.close.Open?)
    && (!p.close.Open? ==> AllCallsDone(p))
    && (p.disp.DExit? ==> !p.running)
    && (!p.close.Open? && !p.close.CStore? && !p.close.CWake? && !p.close.CJoin? ==> p.disp.DExit?)
  }

  /** The destructor has told worker i to stop; it has raised worker i's flag. */
  predicate Stopped(p: Pool, i: nat) {
    match p.close
    case KStop(k) => k < i
    case KStore(k) => k <= i
    case KWake(k) => k <= i
    case KJoin(k) => k <= i
    case Closed => true
    case _ => false
  }

  predicate Signalled(p: Pool, i: nat) {
    Stopped(p, i) && p.close != KStore(i)
  }

  predicate Waits(pc: WorkerPc) {
    pc.WTop? || pc.WLoad? || pc.WCall? || pc.WParked?
  }

  /** The handoff between dispatcher and worker i. */
  ghost predicate WorkerInv(p: Pool, i: nat)
    requires i < |p.workers|
  {
    var w := p.workers[i];
    && (w.flag == 0 || w.flag == 1)
    && (w.poolFlag == 0 || w.poolFlag == 1)
    && (w.running <==> !Stopped(p, i))
    && (w.pc.WExit? ==> !w.running)
    && (if w.poolFlag == 0 then
          && w.task.None?
          && (Waits(w.pc) || w.pc.WTest? || w.pc.WExit?)
          && (w.flag == 0 || Signalled(p, i))
          && (w.pc.WTest? ==> Signalled(p, i))
        else if p.disp.DGive? && p.id == i then
          w.task.None? && w.flag == 0 && Waits(w.pc)
        else if p.disp.DStore? && p.id == i then
          w.task.Some? && w.flag == 0 && Waits(w.pc)
        else
          match w.pc
          case WReset => w.task.None? && w.flag == 1
          case WFree => w.task.None? && (w.flag == 0 || Signalled(p, i))
          case _ => w.task.Some? && w.flag == 1)
    && ((p.disp.DGive? || p.disp.DStore?) && p.id == i ==> w.poolFlag == 1)
    && (w.pc.WExec? || w.pc.WClear? ==> !Lost(w))
    && (w.pc.WParked? && w.flag == 1 ==> (p.disp.DWake? && p.id == i) || p.close == KWake(i))
    && (Signalled(p, i) && (w.pc.WLoad? || w.pc.WCall? || w.pc.WParked?) ==> w.flag == 1)
  }

  /** The task of worker i still has to be run. */
  predicate WorkerHolds(w: Worker) {
    w.task.Some? && !w.pc.WClear?
  }

  ghost predicate RightTask(p: Pool, task: Task) {
    task.ticket < |p.ring.wr| && task.body == p.ring.wr[task.ticket].value
  }

  /** Where ticket t is agrees with who has it. */
  ghost predicate PlaceMeaning(p: Pool, t: nat)
    requires t < |p.place|
  {
    match p.place[t]
    case Queued => t >= |p.ring.rd|
    case AtDispatcher => DispatcherHolds(p) && t + 1 == |p.ring.rd|
    case AtWorker(i) =>
      && t < |p.ring.rd| && i < |p.workers|
      && WorkerHolds(p.workers[i]) && p.workers[i].task.value.ticket == t
    case Executed(j) => t < |p.ring.rd| && j < |p.executed| && p.executed[j].ticket == t
  }

  ghost predicate PlaceInv(p: Pool)
    requires Shape(p)
  {
    && (forall t: nat | t < |p.place| :: PlaceMeaning(p, t))
    && (DispatcherHolds(p) ==> |p.ring.rd| > 0 && p.place[|p.ring.rd| - 1].AtDispatcher?)
    && (p.disp.DScan? || p.disp.DGive? ==> RightTask(p, p.disp.task) && p.disp.task.ticket + 1 == |p.ring.rd|)
    && (forall i | 0 <= i < |p.workers| && p.workers[i].task.Some? :: RightTask(p, p.workers[i].task.value))
    && (forall i | 0 <= i < |p.workers| && WorkerHolds(p.workers[i]) ::
          p.place[p.workers[i].task.value.ticket] == AtWorker(i))
    && (forall j | 0 <= j < |p.executed| :: RightTask(p, p.executed[j]) && p.place[p.executed[j].ticket] == Executed(j))
  }

  /** Tasks are handed over in ticket order. */
  ghost predicate HandedInv(p: Pool) {
    && |p.handed| + (if DispatcherHolds(p) then 1 else 0) == |p.ring.rd|
    && (forall j | 0 <= j < |p.handed| :: p.handed[j].ticket == j && RightTask(p, p.handed[j]))
  }

  function LostCount(ws: seq<Worker>): (n: nat) {
    if ws == [] then 0 else (if Lost(ws[0]) then 1 else 0) + LostCount(ws[1..])
  }

  /** The number of empty tasks among the first t submissions. */
  function EmptyCount(wr: seq<R.WriteOp>, t: nat): (n: nat)
    requires t <= |wr|
  {
    if t == 0 then 0 else EmptyCount(wr, t - 1) + if EmptyBody(wr[t - 1].value) then 1 else 0
  }

  /** Every empty task handed over has cost one worker, so that the last task handed over, empty or not,
      came after fewer empty ones than there are workers; only tasks with a target are executed. */
  ghost predicate LostInv(p: Pool)
    requires |p.handed| <= |p.ring.wr|
  {
    && LostCount(p.workers) == EmptyCount(p.ring.wr, |p.handed|)
    && (p.handed != [] ==> EmptyCount(p.ring.wr, |p.handed| - 1) < |p.workers|)
    && (forall j | 0 <= j < |p.executed| :: !EmptyBody(p.executed[j].body))
  }

  ghost predicate Inv(p: Pool) {
    && Shape(p)
    && GateInv(p)
    && CloseInv(p)
    && (forall i: nat | i < |p.workers| :: WorkerInv(p, i))
    && PlaceInv(p)
    && HandedInv(p)
    && LostInv(p)
  }
}
