/** Every step of every thread keeps the thread pool's invariant. */
module ThreadPoolInvariant {
  import opened Bits
  import R = Ring
  import opened ThreadPool

  lemma InitInv(n: nat, words: nat, stale: seq<Payload>)
    requires n > 0 && R.GoodStart(words, stale)
    ensures Inv(Init(n, words, stale))
  {
    R.InitInv(words, stale);
    var p := Init(n, words, stale);
    forall i: nat | i < |p.workers| ensures WorkerInv(p, i) { }
    NoneLost(p.workers);
  }

  lemma {:induction false} NoneLost(ws: seq<Worker>)
    requires forall i | 0 <= i < |ws| :: !Lost(ws[i])
    ensures LostCount(ws) == 0
  {
    if ws == [] {
    } else {
      NoneLost(ws[1..]);
    }
  }

  /* ---------------------- What a step leaves alone ---------------------- */

  /** The record of worker i, and its relation to dispatcher and destructor, have not changed. */
  ghost predicate SameForWorker(p: Pool, q: Pool, i: nat)
    requires i < |p.workers| && |q.workers| == |p.workers|
  {
    && q.workers[i] == p.workers[i]
    && (p.id == i ==> q.id == i && (q.disp.DGive? <==> p.disp.DGive?) && (q.disp.DStore? <==> p.disp.DStore?))
    && (p.id != i ==> !((q.disp.DGive? || q.disp.DStore?) && q.id == i))
    && (p.disp.DWake? && p.id == i ==> q.disp.DWake?)
    && q.close == p.close
  }

  lemma SameWorker(p: Pool, q: Pool, i: nat)
    requires i < |p.workers| && |q.workers| == |p.workers| && WorkerInv(p, i) && SameForWorker(p, q, i)
    ensures WorkerInv(q, i)
  {
  }

  /** Nothing that says where tasks are has changed. */
  ghost predicate SameTasks(p: Pool, q: Pool) {
    && q.place == p.place && q.handed == p.handed && q.executed == p.executed
    && |q.ring.rd| == |p.ring.rd| && |q.ring.wr| == |p.ring.wr|
    && (forall t | 0 <= t < |p.ring.wr| :: q.ring.wr[t].value == p.ring.wr[t].value)
    && (DispatcherHolds(q) <==> DispatcherHolds(p))
    && |q.workers| == |p.workers|
    && (forall i | 0 <= i < |p.workers| ::
          && (WorkerHolds(q.workers[i]) <==> WorkerHolds(p.workers[i]))
          && (q.workers[i].task.Some? ==> q.workers[i].task == p.workers[i].task)
          && (Lost(q.workers[i]) <==> Lost(p.workers[i])))
  }

  /** What the dispatcher has dequeued is the task of its ticket. */
  ghost predicate RightDispatch(p: Pool) {
    p.disp.DScan? || p.disp.DGive? ==> RightTask(p, p.disp.task) && p.disp.task.ticket + 1 == |p.ring.rd|
  }

  lemma {:induction false} LostCountUpdate(ws: seq<Worker>, i: nat, w: Worker)
    requires i < |ws|
    ensures LostCount(ws[i := w]) == LostCount(ws) - (if Lost(ws[i]) then 1 else 0) + if Lost(w) then 1 else 0
  {
    if i == 0 {
      assert ws[i := w][1..] == ws[1..];
    } else {
      assert ws[i := w][1..] == ws[1..][i - 1 := w];
      LostCountUpdate(ws[1..], i - 1, w);
    }
  }

  lemma {:induction false} LostCountBound(ws: seq<Worker>)
    ensures LostCount(ws) <= |ws|
    ensures LostCount(ws) == |ws| <==> forall i | 0 <= i < |ws| :: Lost(ws[i])
  {
    if ws == [] {
    } else {
      LostCountBound(ws[1..]);
      assert forall i | 1 <= i < |ws| :: ws[i] == ws[1..][i - 1];
    }
  }

  lemma {:induction false} SameLostCount(ws: seq<Worker>, vs: seq<Worker>)
    requires |ws| == |vs| && forall i | 0 <= i < |ws| :: Lost(vs[i]) == Lost(ws[i])
    ensures LostCount(vs) == LostCount(ws)
  {
    if ws == [] {
    } else {
      SameLostCount(ws[1..], vs[1..]);
    }
  }

  lemma {:induction false} SameEmptyCount(wr: seq<R.WriteOp>, vr: seq<R.WriteOp>, t: nat)
    requires t <= |wr| <= |vr| && forall u | 0 <= u < |wr| :: vr[u].value == wr[u].value
    ensures EmptyCount(vr, t) == EmptyCount(wr, t)
  {
    if t == 0 {
    } else {
      SameEmptyCount(wr, vr, t - 1);
    }
  }

  /** Nothing that has to do with empty tasks has changed. */
  lemma SameLost(p: Pool, q: Pool)
    requires |p.handed| <= |p.ring.wr| <= |q.ring.wr| && LostInv(p) && q.handed == p.handed && q.executed == p.executed
    requires forall t | 0 <= t < |p.ring.wr| :: q.ring.wr[t].value == p.ring.wr[t].value
    requires |q.workers| == |p.workers| && forall i | 0 <= i < |p.workers| :: Lost(q.workers[i]) == Lost(p.workers[i])
    ensures LostInv(q)
  {
    SameLostCount(p.workers, q.workers);
    SameEmptyCount(p.ring.wr, q.ring.wr, |p.handed|);
    if p.handed != [] { SameEmptyCount(p.ring.wr, q.ring.wr, |p.handed| - 1); }
  }

  lemma SamePlaces(p: Pool, q: Pool)
    requires Shape(p) && PlaceInv(p) && HandedInv(p) && LostInv(p)
    requires Shape(q) && SameTasks(p, q) && RightDispatch(q)
    ensures PlaceInv(q) && HandedInv(q) && LostInv(q)
  {
    forall t: nat | t < |q.place| ensures PlaceMeaning(q, t) { assert PlaceMeaning(p, t); }
    assert forall k: Task :: RightTask(p, k) ==> RightTask(q, k);
    SameLost(p, q);
  }

  lemma SomeoneStillOwes(p: Pool, q: Pool)
    requires SomeoneOwesWake(p) && |q.calls| >= |p.calls| && q.close == p.close
    requires forall t: nat | t < |p.calls| && p.calls[t].ToWake? :: q.calls[t].ToWake?
    ensures SomeoneOwesWake(q)
  {
  }

  /** The dispatcher's gate and the calls that use it have not changed. */
  lemma SameGate(p: Pool, q: Pool)
    requires GateInv(p) && q.flag == p.flag && q.close == p.close && q.disp == p.disp
    requires |q.ring.rd| == |p.ring.rd| && |q.ring.wr| == |p.ring.wr| && |q.calls| == |p.calls|
    requires forall t | 0 <= t < |p.calls| ::
               Late(q, t) == Late(p, t) && (q.calls[t].ToWake? <==> p.calls[t].ToWake?)
    ensures GateInv(q)
  {
    if SomeoneOwesWake(p) { SomeoneStillOwes(p, q); }
  }

  /** The dispatcher is and stays between the gate and the reset. */
  lemma InnerGate(p: Pool, q: Pool)
    requires GateInv(p) && PastGate(p.disp) && q.flag == p.flag && PastGate(q.disp)
    requires !q.disp.DEmptyR? && !q.disp.DOuterR?
    ensures GateInv(q)
  {
  }

  /* ------------------------------- Producers ------------------------------- */

  lemma SubmitKeepsGate(p: Pool, th: R.ThreadId, b: Payload)
    requires Shape(p) && GateInv(p) && CloseInv(p) && Enabled(p, Submit(th, b))
    ensures
      var q := Apply(p, Submit(th, b));
      Shape(q) && GateInv(q) && CloseInv(q)
  {
    var q := Apply(p, Submit(th, b));
    R.StepKeepsInv(p.ring, R.ClaimWrite(th, b));
    assert forall t | 0 <= t < |p.calls| :: Late(q, t) == Late(p, t);
    if SomeoneOwesWake(p) { SomeoneStillOwes(p, q); }
  }

  lemma SubmitKeepsInv(p: Pool, th: R.ThreadId, b: Payload)
    requires Inv(p) && Enabled(p, Submit(th, b))
    ensures Inv(Apply(p, Submit(th, b)))
  {
    var q := Apply(p, Submit(th, b));
    SubmitKeepsGate(p, th, b);
    forall i: nat | i < |q.workers| ensures WorkerInv(q, i) { SameWorker(p, q, i); }
    forall t: nat | t < |q.place| ensures PlaceMeaning(q, t) { if t < |p.place| { assert PlaceMeaning(p, t); } }
    SameLost(p, q);
  }

  lemma ProduceRingShape(p: Pool, t: nat)
    requires Shape(p) && Enabled(p, Produce(t)) && p.calls[t].InRing?
    ensures Shape(ProduceStep(p, t))
  {
    R.StepKeepsInv(p.ring, R.AdvanceWrite(t));
  }

  lemma ProduceRingKeepsInv(p: Pool, t: nat)
    requires Inv(p) && Enabled(p, Produce(t)) && p.calls[t].InRing?
    ensures Inv(ProduceStep(p, t))
  {
    var q := ProduceStep(p, t);
    ProduceRingShape(p, t);
    SameGate(p, q);
    forall i: nat | i < |q.workers| ensures WorkerInv(q, i) { SameWorker(p, q, i); }
    SamePlaces(p, q);
  }

  lemma ProduceSignalGate(p: Pool, t: nat)
    requires Inv(p) && Enabled(p, Produce(t)) && !p.calls[t].InRing?
    ensures GateInv(ProduceStep(p, t))
  {
    var q := ProduceStep(p, t);
    if p.calls[t].ToStore? { assert q.calls[t].ToWake?; }
    assert p.calls[t].ToWake? ==> forall u: nat :: Late(q, u) == Late(p, u);
  }

  lemma ProduceSignalKeepsInv(p: Pool, t: nat)
    requires Inv(p) && Enabled(p, Produce(t)) && !p.calls[t].InRing?
    ensures Inv(ProduceStep(p, t))
  {
    var q := ProduceStep(p, t);
    assert Shape(q);
    ProduceSignalGate(p, t);
    forall i: nat | i < |q.workers| ensures WorkerInv(q, i) { SameWorker(p, q, i); }
    SamePlaces(p, q);
  }

  /* ------------------------------ Dispatcher ------------------------------ */

  /** Dispatcher steps that touch neither ring nor workers. */
  predicate LocalPc(d: DispatcherPc) {
    !d.DClaim? && !d.DTake? && !d.DScan? && !d.DGive? && !d.DStore? && !d.DWake?
  }

  /** A step that moves only the dispatcher's program counter and its flag. */
  lemma LocalFrame(p: Pool, q: Pool)
    requires Inv(p) && q == p.(disp := q.disp, flag := q.flag)
    requires LocalPc(p.disp) && (LocalPc(q.disp) || (q.disp.DClaim? && |p.ring.rd| < |p.ring.wr|))
    requires GateInv(q) && CloseInv(q)
    ensures Inv(q)
  {
    assert Shape(q);
    forall i: nat | i < |q.workers| ensures WorkerInv(q, i) { SameWorker(p, q, i); }
    SamePlaces(p, q);
  }

  lemma DispatchAfterInnerKeepsInv(p: Pool)
    requires Inv(p) && Enabled(p, Dispatch) && (p.disp.DOuterW? || p.disp.DOuterR?)
    ensures Inv(DispatchStep(p))
  {
    LocalFrame(p, DispatchStep(p));
  }

  lemma DispatchGateKeepsInv(p: Pool)
    requires Inv(p) && Enabled(p, Dispatch) && (p.disp.DTop? || p.disp.DLoad? || p.disp.DCall?)
    ensures Inv(DispatchStep(p))
  {
    var q := DispatchStep(p);
    assert GateInv(q) by {
      if SomeoneOwesWake(p) { SomeoneStillOwes(p, q); }
      assert forall u: nat :: Late(q, u) == Late(p, u);
    }
    LocalFrame(p, q);
  }

  lemma DispatchInnerKeepsInv(p: Pool)
    requires Inv(p) && Enabled(p, Dispatch) && (p.disp.DRunning? || p.disp.DEmptyW? || p.disp.DEmptyR?)
    ensures Inv(DispatchStep(p))
  {
    LocalFrame(p, DispatchStep(p));
  }

  /** The order that loses no task: reset first, then look again. */
  lemma DispatchResetKeepsGate(p: Pool)
    requires Shape(p) && GateInv(p) && CloseInv(p) && Enabled(p, Dispatch)
    requires p.disp.DReset? || p.disp.DRecheckW? || p.disp.DRecheckR? || p.disp.DResignal? || p.disp.DRewake?
    ensures GateInv(DispatchStep(p)) && CloseInv(DispatchStep(p))
  {
    assert forall u: nat :: Late(DispatchStep(p), u) == Late(p, u);
  }

  lemma DispatchResetKeepsInv(p: Pool)
    requires Inv(p) && Enabled(p, Dispatch)
    requires p.disp.DReset? || p.disp.DRecheckW? || p.disp.DRecheckR? || p.disp.DResignal? || p.disp.DRewake?
    ensures Inv(DispatchStep(p))
  {
    DispatchResetKeepsGate(p);
    LocalFrame(p, DispatchStep(p));
  }

  lemma DispatchClaimKeepsInv(p: Pool)
    requires Inv(p) && Enabled(p, Dispatch) && p.disp.DClaim?
    ensures R.Enabled(p.ring, R.ClaimRead(DISPATCHER)) && Inv(DispatchStep(p))
  {
    var q := DispatchStep(p);
    R.StepKeepsInv(p.ring, R.ClaimRead(DISPATCHER));
    assert Shape(q);
    InnerGate(p, q);
    forall i: nat | i < |q.workers| ensures WorkerInv(q, i) { SameWorker(p, q, i); }
    assert PlaceMeaning(p, |p.ring.rd|);
    forall u: nat | u < |q.place| ensures PlaceMeaning(q, u) { assert PlaceMeaning(p, u); }
    SameLost(p, q);
  }

  lemma DispatchTakeShape(p: Pool)
    requires Shape(p) && Enabled(p, Dispatch) && p.disp.DTake?
    ensures Shape(DispatchStep(p)) && RightDispatch(DispatchStep(p))
  {
    var t := p.disp.t;
    R.StepKeepsInv(p.ring, R.AdvanceRead(t));
    assert R.ReadMeaning(R.ReadStep(p.ring, t), t);
  }

  lemma DispatchTakeKeepsInv(p: Pool)
    requires Inv(p) && Enabled(p, Dispatch) && p.disp.DTake?
    ensures Inv(DispatchStep(p))
  {
    var q := DispatchStep(p);
    DispatchTakeShape(p);
    InnerGate(p, q);
    forall i: nat | i < |q.workers| ensures WorkerInv(q, i) { SameWorker(p, q, i); }
    SamePlaces(p, q);
  }

  /** What the dispatcher does to worker i, and what changes for it while others are served. */
  lemma DispatchKeepsWorker(p: Pool, i: nat)
    requires Shape(p) && CloseInv(p) && Enabled(p, Dispatch) && i < |p.workers| && WorkerInv(p, i)
    requires p.disp.DScan? || p.disp.DGive? || p.disp.DStore? || p.disp.DWake?
    ensures WorkerInv(DispatchStep(p), i)
  {
    var q := DispatchStep(p);
    if i != p.id { assert q.workers[i] == p.workers[i]; }
  }

  lemma DispatchScanKeepsInv(p: Pool)
    requires Inv(p) && Enabled(p, Dispatch) && p.disp.DScan?
    ensures Inv(DispatchStep(p))
  {
    var q := DispatchStep(p);
    assert Shape(q);
    InnerGate(p, q);
    forall i: nat | i < |q.workers| ensures WorkerInv(q, i) { DispatchKeepsWorker(p, i); }
    SamePlaces(p, q);
  }

  lemma DispatchGiveKeepsPlaces(p: Pool)
    requires Shape(p) && PlaceInv(p) && HandedInv(p) && WorkerInv(p, p.id)
    requires Enabled(p, Dispatch) && p.disp.DGive? && Shape(DispatchStep(p))
    ensures PlaceInv(DispatchStep(p)) && HandedInv(DispatchStep(p))
  {
    var q := DispatchStep(p);
    forall u: nat | u < |q.place| ensures PlaceMeaning(q, u) { assert PlaceMeaning(p, u); }
  }

  /** An empty task costs the worker that gets it; that worker had none before. */
  lemma DispatchGiveKeepsLost(p: Pool)
    requires Inv(p) && Enabled(p, Dispatch) && p.disp.DGive?
    ensures DispatchStep(p).ring == p.ring && |DispatchStep(p).handed| <= |p.ring.wr| && LostInv(DispatchStep(p))
  {
    var q := DispatchStep(p);
    assert WorkerInv(p, p.id);
    LostCountBound(p.workers);
    LostCountUpdate(p.workers, p.id, q.workers[p.id]);
  }

  lemma DispatchGiveKeepsInv(p: Pool)
    requires Inv(p) && Enabled(p, Dispatch) && p.disp.DGive?
    ensures Inv(DispatchStep(p))
  {
    var q := DispatchStep(p);
    assert Shape(q);
    InnerGate(p, q);
    forall i: nat | i < |q.workers| ensures WorkerInv(q, i) { DispatchKeepsWorker(p, i); }
    assert WorkerInv(p, p.id);
    DispatchGiveKeepsPlaces(p);
    DispatchGiveKeepsLost(p);
  }

  lemma DispatchSignalKeepsInv(p: Pool)
    requires Inv(p) && Enabled(p, Dispatch) && (p.disp.DStore? || p.disp.DWake?)
    ensures Inv(DispatchStep(p))
  {
    var q := DispatchStep(p);
    assert Shape(q);
    InnerGate(p, q);
    forall i: nat | i < |q.workers| ensures WorkerInv(q, i) { DispatchKeepsWorker(p, i); }
    SamePlaces(p, q);
  }

  lemma DispatchKeepsInv(p: Pool)
    requires Inv(p) && Enabled(p, Dispatch)
    ensures Inv(DispatchStep(p))
  {
    if p.disp.DClaim? { DispatchClaimKeepsInv(p); }
    else if p.disp.DTake? { DispatchTakeKeepsInv(p); }
    else if p.disp.DScan? { DispatchScanKeepsInv(p); }
    else if p.disp.DGive? { DispatchGiveKeepsInv(p); }
    else if p.disp.DStore? || p.disp.DWake? { DispatchSignalKeepsInv(p); }
    else if p.disp.DRunning? || p.disp.DEmptyW? || p.disp.DEmptyR? { DispatchInnerKeepsInv(p); }
    else if p.disp.DTop? || p.disp.DLoad? || p.disp.DCall? { DispatchGateKeepsInv(p); }
    else if p.disp.DOuterW? || p.disp.DOuterR? { DispatchAfterInnerKeepsInv(p); }
    else { DispatchResetKeepsInv(p); }
  }

  /* -------------------------------- Workers -------------------------------- */

  /** A step that changes only the record of worker i and moves no task. */
  lemma WorkerFrame(p: Pool, q: Pool, i: nat)
    requires Inv(p) && i < |p.workers| && |q.workers| == |p.workers|
    requires q == p.(workers := p.workers[i := q.workers[i]])
    requires WorkerInv(q, i) && SameTasks(p, q)
    ensures Inv(q)
  {
    assert Shape(q) && CloseInv(q);
    SameGate(p, q);
    forall k: nat | k < |q.workers| ensures WorkerInv(q, k) { if k != i { SameWorker(p, q, k); } }
    SamePlaces(p, q);
  }

  lemma WorkKeepsWorker(p: Pool, i: nat)
    requires Shape(p) && PlaceInv(p) && CloseInv(p) && Enabled(p, Work(i)) && WorkerInv(p, i)
    ensures WorkerInv(WorkStep(p, i), i)
  {
    if WorkerHolds(p.workers[i]) { assert RightTask(p, p.workers[i].task.value); }
  }

  lemma WorkMovesNoTask(p: Pool, i: nat)
    requires Shape(p) && Enabled(p, Work(i)) && WorkerInv(p, i) && !p.workers[i].pc.WExec?
    ensures SameTasks(p, WorkStep(p, i))
    ensures WorkStep(p, i) == p.(workers := p.workers[i := WorkStep(p, i).workers[i]])
  {
    var w := p.workers[i];
    var v := WorkerStep(w);
    assert WorkStep(p, i) == p.(workers := p.workers[i := v]);
    assert (WorkerHolds(v) <==> WorkerHolds(w)) && (Lost(v) <==> Lost(w)) && (v.task.Some? ==> v.task == w.task);
  }

  lemma WorkQuietKeepsInv(p: Pool, i: nat)
    requires Inv(p) && Enabled(p, Work(i)) && !p.workers[i].pc.WExec?
    ensures Inv(WorkStep(p, i))
  {
    WorkKeepsWorker(p, i);
    WorkMovesNoTask(p, i);
    WorkerFrame(p, WorkStep(p, i), i);
  }

  lemma WorkExecKeepsPlaces(p: Pool, i: nat)
    requires Shape(p) && PlaceInv(p) && Enabled(p, Work(i)) && p.workers[i].pc.WExec? && p.workers[i].task.Some?
    requires Shape(WorkStep(p, i))
    ensures PlaceInv(WorkStep(p, i))
  {
    var q := WorkStep(p, i);
    assert RightTask(p, p.workers[i].task.value);
    forall u: nat | u < |q.place| ensures PlaceMeaning(q, u) { assert PlaceMeaning(p, u); }
  }

  lemma ExecFrame(p: Pool, q: Pool, i: nat)
    requires Inv(p) && i < |p.workers| && |q.workers| == |p.workers| && |q.place| == |p.place| && WorkerInv(q, i)
    requires q == p.(workers := p.workers[i := q.workers[i]], place := q.place, executed := q.executed)
    ensures Shape(q) && GateInv(q) && CloseInv(q) && HandedInv(q)
    ensures forall k: nat | k < |q.workers| :: WorkerInv(q, k)
  {
    SameGate(p, q);
    forall k: nat | k < |q.workers| ensures WorkerInv(q, k) { if k != i { SameWorker(p, q, k); } }
    assert forall k: Task :: RightTask(p, k) ==> RightTask(q, k);
  }

  /** Only a task with a target is executed. */
  lemma WorkExecKeepsLost(p: Pool, i: nat)
    requires Shape(p) && |p.handed| <= |p.ring.wr| && LostInv(p)
    requires Enabled(p, Work(i)) && p.workers[i].pc.WExec? && !Lost(p.workers[i])
    ensures |WorkStep(p, i).handed| <= |WorkStep(p, i).ring.wr| && LostInv(WorkStep(p, i))
  {
    SameLostCount(p.workers, WorkStep(p, i).workers);
  }

  lemma WorkExecKeepsInv(p: Pool, i: nat)
    requires Inv(p) && Enabled(p, Work(i)) && p.workers[i].pc.WExec?
    ensures Inv(WorkStep(p, i))
  {
    WorkKeepsWorker(p, i);
    assert WorkerInv(p, i);
    ExecFrame(p, WorkStep(p, i), i);
    WorkExecKeepsPlaces(p, i);
    WorkExecKeepsLost(p, i);
  }

  lemma SpuriousWorkerKeepsInv(p: Pool, i: nat)
    requires Inv(p) && Enabled(p, SpuriousWorker(i))
    ensures Inv(Apply(p, SpuriousWorker(i)))
  {
    assert WorkerInv(p, i);
    WorkerFrame(p, Apply(p, SpuriousWorker(i)), i);
  }

  lemma SpuriousDispatcherKeepsInv(p: Pool)
    requires Inv(p) && Enabled(p, SpuriousDispatcher)
    ensures Inv(Apply(p, SpuriousDispatcher))
  {
    var q := Apply(p, SpuriousDispatcher);
    assert forall u: nat :: Late(q, u) == Late(p, u);
    LocalFrame(p, q);
  }

  /* ------------------------------- Destructors ------------------------------- */

  lemma CloseKeepsGate(p: Pool)
    requires Inv(p) && Enabled(p, Close)
    ensures GateInv(CloseStep(p)) && CloseInv(CloseStep(p))
  {
    assert forall u: nat :: Late(CloseStep(p), u) == Late(p, u);
  }

  lemma CloseKeepsWorker(p: Pool, k: nat)
    requires Shape(p) && CloseInv(p) && k < |p.workers| && WorkerInv(p, k) && Enabled(p, Close)
    ensures WorkerInv(CloseStep(p), k)
  {
  }

  lemma CloseKeepsShape(p: Pool)
    requires Shape(p) && Enabled(p, Close)
    ensures Shape(CloseStep(p))
  {
  }

  lemma CloseMovesNoTask(p: Pool)
    requires Shape(p) && Enabled(p, Close)
    ensures SameTasks(p, CloseStep(p))
    ensures DispatcherHolds(p) ==> CloseStep(p).disp == p.disp
  {
    var q := CloseStep(p);
    assert q.ring == p.ring && q.place == p.place && q.handed == p.handed && q.executed == p.executed;
  }

  lemma CloseKeepsInv(p: Pool)
    requires Inv(p) && Enabled(p, Close)
    ensures Inv(CloseStep(p))
  {
    var q := CloseStep(p);
    CloseKeepsShape(p);
    CloseMovesNoTask(p);
    CloseKeepsGate(p);
    forall k: nat | k < |q.workers| ensures WorkerInv(q, k) { CloseKeepsWorker(p, k); }
    SamePlaces(p, q);
  }

  lemma StepKeepsThreads(p: Pool, a: Step)
    requires Shape(p) && Enabled(p, a)
    ensures |Apply(p, a).workers| == |p.workers|
  {
  }

  /** Every step of every thread keeps the invariant. */
  lemma StepKeepsInv(p: Pool, a: Step)
    requires Inv(p) && Enabled(p, a)
    ensures Inv(Apply(p, a))
  {
    match a
    case Submit(th, b) => SubmitKeepsInv(p, th, b);
    case Produce(t) => if p.calls[t].InRing? { ProduceRingKeepsInv(p, t); } else { ProduceSignalKeepsInv(p, t); }
    case Dispatch => DispatchKeepsInv(p);
    case Work(i) => if p.workers[i].pc.WExec? { WorkExecKeepsInv(p, i); } else { WorkQuietKeepsInv(p, i); }
    case SpuriousDispatcher => SpuriousDispatcherKeepsInv(p);
    case SpuriousWorker(i) => SpuriousWorkerKeepsInv(p, i);
    case Close => CloseKeepsInv(p);
  }
}
