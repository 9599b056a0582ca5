/** Work in the thread pool runs out: a rank that every productive step of every thread lowers. */
module ThreadPoolProgress {
  import opened Bits
  import R = Ring
  import RP = RingProgress
  import opened ThreadPool
  import PI = ThreadPoolInvariant
  import opened ThreadPoolTheorems
  import DS = DispatcherScan

  /* -------------------------------- The rank -------------------------------- */

  function CallWork(c: CallPc): (n: nat) {
    match c
    case InRing => 2
    case ToStore => 2
    case ToWake => 1
    case Done => 0
  }

  function CallsWork(calls: seq<CallPc>): (n: nat) {
    if calls == [] then 0 else CallWork(calls[0]) + CallsWork(calls[1..])
  }

  /** How far a worker is from parking: with its flag up it has a task to run first, and with an empty
      task it is as far as it gets. */
  function WorkerWork(w: Worker): (n: nat) {
    if Spins(w) then 12 else match w.pc
    case WTop => if !w.running then 1 else if w.flag == 1 then 13 else 5
    case WLoad => if w.flag == 1 then 12 else 4
    case WCall => if w.flag == 1 then 13 else 3
    case WParked => if w.flag == 1 then 14 else 2
    case WTest => 11
    case WExec => 10
    case WClear => 9
    case WReset => 8
    case WFree => 7
    case WExit => 0
  }

  function WorkersWork(ws: seq<Worker>): (n: nat) {
    if ws == [] then 0 else WorkerWork(ws[0]) + WorkersWork(ws[1..])
  }

  /** How far the dispatcher is from claiming the next task when there is one, from parking when there
      is none, and from leaving its loop when the pool is being destroyed. */
  function DispatcherWork(d: DispatcherPc, up: bool, running: bool, rd: nat, wr: nat): (n: nat) {
    match d
    case DTake(_) => 60
    case DScan(_) => 60
    case DGive(_) => 57
    case DStore => 56
    case DWake => 40
    case DClaim => 3
    case DExit => 0
    case DTop => if !running then 17 else if rd < wr then 12 else if up then 26 else 12
    case DLoad =>
      if !running then (if up then 28 else 32)
      else if rd < wr then (if up then 7 else 11) else if up then 24 else 11
    case DCall =>
      if !running then (if up then 29 else 31)
      else if rd < wr then (if up then 8 else 10) else if up then 25 else 10
    case DParked => if !running then 30 else 9
    case DRunning => if !running then 27 else if rd < wr then 6 else 23
    case DEmptyW => if !running then 26 else if rd < wr then 5 else 22
    case DEmptyR(w) => if !running then 25 else if rd < wr then (if w == rd then 20 else 4) else 21
    case DOuterW => if !running then 24 else if rd < wr then 19 else 20
    case DOuterR(_) => if !running then 23 else 18
    case DReset => if !running then 22 else 17
    case DRecheckW => if !running then 21 else if rd < wr then 16 else if up then 28 else 16
    case DRecheckR(_) => if !running then 20 else if rd < wr then 15 else if up then 27 else 15
    case DResignal => if !running then 19 else if rd < wr then 14 else 28
    case DRewake => if !running then 18 else if rd < wr then 13 else 27
  }

  function CloseWork(c: ClosePc, n: nat): (r: nat) {
    match c
    case Open => 4 * n + 4
    case CStore => 4 * n + 3
    case CWake => 4 * n + 2
    case CJoin => 4 * n + 1
    case KStop(i) => 4 * i + 4
    case KStore(i) => 4 * i + 3
    case KWake(i) => 4 * i + 2
    case KJoin(i) => 4 * i + 1
    case Closed => 0
  }

  /** The failing attempts before the scan gets to a free worker, at most k. */
  function ScanLeft(ws: seq<Worker>, id: nat, k: nat): (n: nat)
    requires id < |ws|
    ensures n <= k
    decreases k
  {
    if k == 0 || ws[id].poolFlag == 0 then 0 else 1 + ScanLeft(ws, SlotOf(id + 1, |ws|), k - 1)
  }

  function ScanWork(d: DispatcherPc, ws: seq<Worker>, id: nat): (n: nat)
    requires id < |ws|
  {
    if d.DTake? then |ws| else if d.DScan? then ScanLeft(ws, id, |ws|) else 0
  }

  /** What one unclaimed task will cost the dispatcher and a worker. */
  function QueueWork(unclaimed: nat, each: nat): (n: nat) {
    if unclaimed == 0 then 0 else each + QueueWork(unclaimed - 1, each)
  }

  function DispatcherRank(p: Pool): (n: nat)
    requires p.id < |p.workers|
  {
    DispatcherWork(p.disp, p.flag == 1, p.running, |p.ring.rd|, |p.ring.wr|) + ScanWork(p.disp, p.workers, p.id)
  }

  function Rank(p: Pool): (n: nat)
    requires |p.ring.rd| <= |p.ring.wr| && p.id < |p.workers|
  {
    20 * (RP.WritesWork(p.ring.wr, p.ring.words) + CallsWork(p.calls))
    + QueueWork(|p.ring.wr| - |p.ring.rd|, p.ring.words + |p.workers| + 100)
    + RP.ReadsWork(p.ring.rd, p.ring.words)
    + DispatcherRank(p)
    + WorkersWork(p.workers)
    + 100 * CloseWork(p.close, |p.workers|)
  }

  /* The scan */

  lemma {:induction false} ScanFinds(ws: seq<Worker>, id: nat, k: nat, j: nat)
    requires id < |ws| && j < k && ws[DS.Tried(id, j, |ws|)].poolFlag == 0
    ensures ScanLeft(ws, id, k) <= j
    decreases j
  {
    if j == 0 {
      assert DS.Tried(id, 0, |ws|) == id;
    } else {
      SlotAdd(id + 1, j - 1, |ws|);
      ScanFinds(ws, SlotOf(id + 1, |ws|), k - 1, j - 1);
    }
  }

  lemma {:induction false} ScanSettled(ws: seq<Worker>, id: nat, k: nat)
    requires id < |ws| && ScanLeft(ws, id, k) < k
    ensures ScanLeft(ws, id, k + 1) == ScanLeft(ws, id, k)
    decreases k
  {
    if k == 0 || ws[id].poolFlag == 0 {
    } else {
      ScanSettled(ws, SlotOf(id + 1, |ws|), k - 1);
    }
  }

  /** Moving past a busy worker brings the scan closer to a free one, if there is any. */
  lemma ScanMoves(ws: seq<Worker>, id: nat)
    requires id < |ws| && ws[id].poolFlag != 0
    ensures ScanLeft(ws, SlotOf(id + 1, |ws|), |ws|) <= ScanLeft(ws, id, |ws|)
    ensures (exists i: nat :: i < |ws| && ws[i].poolFlag == 0) ==>
              ScanLeft(ws, SlotOf(id + 1, |ws|), |ws|) < ScanLeft(ws, id, |ws|)
  {
    var n, next := |ws|, SlotOf(id + 1, |ws|);
    if ScanLeft(ws, next, n - 1) < n - 1 { ScanSettled(ws, next, n - 1); }
    if i: nat :| i < n && ws[i].poolFlag == 0 {
      DS.PassCoversAll(id, n, i);
      var k: nat :| k < n && DS.Tried(id, k, n) == i;
      ScanFinds(ws, id, n, k);
    }
  }

  /** Workers only ever become free while the scan goes on. */
  lemma {:induction false} ScanMonotone(ws: seq<Worker>, vs: seq<Worker>, id: nat, k: nat)
    requires |vs| == |ws| && id < |ws| && forall i | 0 <= i < |ws| && ws[i].poolFlag == 0 :: vs[i].poolFlag == 0
    ensures ScanLeft(vs, id, k) <= ScanLeft(ws, id, k)
    decreases k
  {
    if k == 0 {
    } else {
      ScanMonotone(ws, vs, SlotOf(id + 1, |ws|), k - 1);
    }
  }

  lemma {:induction false} CallsWorkUpdate(calls: seq<CallPc>, t: nat, c: CallPc)
    requires t < |calls|
    ensures CallsWork(calls[t := c]) == CallsWork(calls) - CallWork(calls[t]) + CallWork(c)
  {
    if t == 0 {
      assert calls[t := c][1..] == calls[1..];
    } else {
      assert calls[t := c][1..] == calls[1..][t - 1 := c];
      CallsWorkUpdate(calls[1..], t - 1, c);
    }
  }

  lemma {:induction false} WorkersWorkUpdate(ws: seq<Worker>, i: nat, w: Worker)
    requires i < |ws|
    ensures WorkersWork(ws[i := w]) == WorkersWork(ws) - WorkerWork(ws[i]) + WorkerWork(w)
  {
    if i == 0 {
      assert ws[i := w][1..] == ws[1..];
    } else {
      assert ws[i := w][1..] == ws[1..][i - 1 := w];
      WorkersWorkUpdate(ws[1..], i - 1, w);
    }
  }

  lemma {:induction false} ReadsWorkAppend(rd: seq<R.ReadOp>, op: R.ReadOp, words: nat)
    ensures RP.ReadsWork(rd + [op], words) == RP.ReadsWork(rd, words) + RP.ReadWork(op, words)
  {
    if rd == [] {
      assert rd + [op] == [op] && [op][1..] == [];
    } else {
      assert (rd + [op])[1..] == rd[1..] + [op];
      ReadsWorkAppend(rd[1..], op, words);
    }
  }

  /* --------------------------- Each thread's steps --------------------------- */

  /** The bound that every step obeys: a productive step costs at least one, a spurious wake-up
      gives back at most twenty, and nothing else but a new submission adds work. */
  ghost predicate Pays(p: Pool, a: Step, q: Pool)
    requires Shape(p) && Shape(q)
  {
    Rank(q) + (if Productive(p, a) then 1 else 0)
    <= Rank(p) + if a.SpuriousDispatcher? || a.SpuriousWorker? then 20 else 0
  }

  lemma ProduceRingPays(p: Pool, t: nat)
    requires Shape(p) && Enabled(p, Produce(t)) && p.calls[t].InRing? && Shape(ProduceStep(p, t))
    ensures Pays(p, Produce(t), ProduceStep(p, t))
  {
    RP.AdvanceRank(p.ring, R.AdvanceWrite(t));
    CallsWorkUpdate(p.calls, t, ToStore);
    assert R.WriteStep(p.ring, t).rd == p.ring.rd;
  }

  /** A signal gives the dispatcher less work than the two units, of twenty each, that the call has for it. */
  lemma ProduceSignalDrops(p: Pool, t: nat)
    requires Shape(p) && Enabled(p, Produce(t)) && !p.calls[t].InRing?
    ensures
      var q := ProduceStep(p, t);
      && q == p.(calls := p.calls[t := q.calls[t]], flag := q.flag, disp := q.disp)
      && CallWork(q.calls[t]) + 1 == CallWork(p.calls[t])
      && DispatcherRank(q) < DispatcherRank(p) + 20
  {
    assert ProduceStep(p, t).calls[t] == if p.calls[t].ToStore? then ToWake else Done;
  }

  lemma ProduceSignalPays(p: Pool, t: nat)
    requires Shape(p) && Enabled(p, Produce(t)) && !p.calls[t].InRing? && Shape(ProduceStep(p, t))
    ensures Pays(p, Produce(t), ProduceStep(p, t))
  {
    ProduceSignalDrops(p, t);
    CallsWorkUpdate(p.calls, t, ProduceStep(p, t).calls[t]);
  }

  lemma DispatchLocalDrops(p: Pool)
    requires Shape(p) && GateInv(p) && Enabled(p, Dispatch) && PI.LocalPc(p.disp)
    ensures
      var q := DispatchStep(p);
      && q == p.(disp := q.disp, flag := q.flag)
      && q.id < |q.workers| && DispatcherRank(q) < DispatcherRank(p)
  {
  }

  lemma DispatchLocalPays(p: Pool)
    requires Shape(p) && GateInv(p) && Enabled(p, Dispatch) && PI.LocalPc(p.disp) && Shape(DispatchStep(p))
    ensures Pays(p, Dispatch, DispatchStep(p))
  {
    DispatchLocalDrops(p);
  }

  lemma DispatchClaimPays(p: Pool)
    requires Shape(p) && Enabled(p, Dispatch) && p.disp.DClaim? && Shape(DispatchStep(p))
    ensures Pays(p, Dispatch, DispatchStep(p))
  {
    var q := DispatchStep(p);
    assert q.ring == p.ring.(rd := p.ring.rd + [R.ReadOp(DISPATCHER, R.Awaiting)]);
    ReadsWorkAppend(p.ring.rd, R.ReadOp(DISPATCHER, R.Awaiting), p.ring.words);
    assert DispatcherRank(q) == 60 + |p.workers| && DispatcherRank(p) == 3;
  }

  lemma DispatchTakeDrops(p: Pool)
    requires Shape(p) && Enabled(p, Dispatch) && p.disp.DTake?
    ensures
      var q := DispatchStep(p);
      && q == p.(ring := R.ReadStep(p.ring, p.disp.t), disp := q.disp)
      && q.ring.wr == p.ring.wr && q.ring.words == p.ring.words && |q.ring.rd| == |p.ring.rd|
      && DispatcherRank(q) <= DispatcherRank(p)
  {
  }

  lemma DispatchTakePays(p: Pool)
    requires Shape(p) && Enabled(p, Dispatch) && p.disp.DTake? && Shape(DispatchStep(p))
    ensures Pays(p, Dispatch, DispatchStep(p))
  {
    DispatchTakeDrops(p);
    RP.AdvanceRank(p.ring, R.AdvanceRead(p.disp.t));
  }

  lemma DispatchScanDrops(p: Pool)
    requires Shape(p) && Enabled(p, Dispatch) && p.disp.DScan?
    ensures
      var q := DispatchStep(p);
      && q == p.(disp := q.disp, id := q.id, workers := q.workers) && q.id < |q.workers| == |p.workers|
      && WorkersWork(q.workers) == WorkersWork(p.workers)
      && DispatcherRank(q) + (if SomeoneFree(p) then 1 else 0) <= DispatcherRank(p)
  {
    var q, w := DispatchStep(p), p.workers[p.id];
    if w.poolFlag == 0 {
      WorkersWorkUpdate(p.workers, p.id, w.(poolFlag := 1));
    } else {
      ScanMoves(p.workers, p.id);
    }
  }

  /** Handing over: what activating the worker costs is less than what the dispatcher gives up. */
  lemma DispatchGiveDrops(p: Pool)
    requires Shape(p) && WorkerInv(p, p.id) && Enabled(p, Dispatch)
    requires p.disp.DGive? || p.disp.DStore? || p.disp.DWake?
    ensures
      var q := DispatchStep(p);
      && |q.workers| == |p.workers| && q.id < |q.workers|
      && q.workers == p.workers[p.id := q.workers[p.id]]
      && q.ring == p.ring && q.calls == p.calls && q.close == p.close
      && DispatcherRank(q) + WorkerWork(q.workers[p.id]) < DispatcherRank(p) + WorkerWork(p.workers[p.id])
  {
    assert !PI.LocalPc(p.disp);
  }

  lemma DispatchWorkerPays(p: Pool)
    requires Shape(p) && WorkerInv(p, p.id) && Enabled(p, Dispatch) && Shape(DispatchStep(p))
    requires p.disp.DScan? || p.disp.DGive? || p.disp.DStore? || p.disp.DWake?
    ensures Pays(p, Dispatch, DispatchStep(p))
  {
    if p.disp.DScan? {
      DispatchScanDrops(p);
    } else {
      DispatchGiveDrops(p);
      WorkersWorkUpdate(p.workers, p.id, DispatchStep(p).workers[p.id]);
    }
  }

  lemma WorkerStepDrops(p: Pool, i: nat)
    requires i < |p.workers| && WorkerInv(p, i) && !p.workers[i].pc.WParked? && !p.workers[i].pc.WExit?
    ensures
      var w := p.workers[i];
      WorkerWork(WorkerStep(w)) + (if Spins(w) then 0 else 1) <= WorkerWork(w)
  {
  }

  lemma WorkDrops(p: Pool, i: nat)
    requires Shape(p) && Enabled(p, Work(i)) && WorkerInv(p, i)
    ensures
      var q := WorkStep(p, i);
      && q.workers == p.workers[i := WorkerStep(p.workers[i])]
      && q.ring == p.ring && q.calls == p.calls && q.close == p.close && q.disp == p.disp
      && q.flag == p.flag && q.running == p.running && q.id == p.id
      && WorkerWork(q.workers[i]) + (if Spins(p.workers[i]) then 0 else 1) <= WorkerWork(p.workers[i])
      && DispatcherRank(q) <= DispatcherRank(p)
  {
    var q := WorkStep(p, i);
    WorkerStepDrops(p, i);
    ScanMonotone(p.workers, q.workers, p.id, |p.workers|);
  }

  lemma WorkPays(p: Pool, i: nat)
    requires Inv(p) && Enabled(p, Work(i)) && Shape(WorkStep(p, i))
    ensures Pays(p, Work(i), WorkStep(p, i))
  {
    assert WorkerInv(p, i);
    WorkDrops(p, i);
    WorkersWorkUpdate(p.workers, i, WorkStep(p, i).workers[i]);
  }

  /** The destructor's own progress outweighs what its signals make others do. */
  lemma CloseDrops(p: Pool)
    requires Inv(p) && Enabled(p, Close)
    ensures
      var q := CloseStep(p);
      && q.ring == p.ring && q.calls == p.calls && q.id == p.id && |q.workers| == |p.workers|
      && CloseWork(q.close, |p.workers|) < CloseWork(p.close, |p.workers|)
      && DispatcherRank(q) <= DispatcherRank(p) + 40
      && (if p.close.KStop? || p.close.KStore? || p.close.KWake?
          then p.close.i < |p.workers| && q.workers == p.workers[p.close.i := q.workers[p.close.i]]
               && WorkerWork(q.workers[p.close.i]) <= WorkerWork(p.workers[p.close.i]) + 20
          else q.workers == p.workers)
  {
    if p.close.KStop? || p.close.KStore? || p.close.KWake? { assert WorkerInv(p, p.close.i); }
  }

  lemma ClosePays(p: Pool)
    requires Inv(p) && Enabled(p, Close) && Shape(CloseStep(p))
    ensures Pays(p, Close, CloseStep(p))
  {
    CloseDrops(p);
    if p.close.KStop? || p.close.KStore? || p.close.KWake? {
      WorkersWorkUpdate(p.workers, p.close.i, CloseStep(p).workers[p.close.i]);
    }
  }

  lemma SpuriousDispatcherPays(p: Pool)
    requires Shape(p) && Enabled(p, SpuriousDispatcher) && Shape(Apply(p, SpuriousDispatcher))
    ensures Pays(p, SpuriousDispatcher, Apply(p, SpuriousDispatcher))
  {
    var q := Apply(p, SpuriousDispatcher);
    assert q == p.(disp := DLoad) && DispatcherRank(q) <= DispatcherRank(p) + 20;
  }

  lemma SpuriousWorkerPays(p: Pool, i: nat)
    requires Shape(p) && Enabled(p, SpuriousWorker(i)) && Shape(Apply(p, SpuriousWorker(i)))
    ensures Pays(p, SpuriousWorker(i), Apply(p, SpuriousWorker(i)))
  {
    var q := Apply(p, SpuriousWorker(i));
    assert q == p.(workers := p.workers[i := q.workers[i]]);
    WorkersWorkUpdate(p.workers, i, q.workers[i]);
    ScanMonotone(p.workers, q.workers, p.id, |p.workers|);
  }

  lemma StepPays(p: Pool, a: Step)
    requires Inv(p) && Enabled(p, a) && !a.Submit?
    ensures Inv(Apply(p, a)) && Pays(p, a, Apply(p, a))
  {
    PI.StepKeepsInv(p, a);
    match a
    case Produce(t) => if p.calls[t].InRing? { ProduceRingPays(p, t); } else { ProduceSignalPays(p, t); }
    case Dispatch =>
      if PI.LocalPc(p.disp) { DispatchLocalPays(p); }
      else if p.disp.DClaim? { DispatchClaimPays(p); }
      else if p.disp.DTake? { DispatchTakePays(p); }
      else {
        assert WorkerInv(p, p.id);
        DispatchWorkerPays(p);
      }
    case Work(i) => WorkPays(p, i);
    case SpuriousDispatcher => SpuriousDispatcherPays(p);
    case SpuriousWorker(i) => SpuriousWorkerPays(p, i);
    case Close => ClosePays(p);
  }

  /* ------------------------------- Whole runs ------------------------------- */

  ghost predicate NoSubmission(steps: seq<Step>) {
    forall i | 0 <= i < |steps| :: !steps[i].Submit?
  }

  ghost function ProductiveSteps(p: Pool, steps: seq<Step>): (n: nat)
    requires Inv(p) && Legal(p, steps)
    decreases |steps|
  {
    if steps == [] then 0
    else
      PI.StepKeepsInv(p, steps[0]);
      (if Productive(p, steps[0]) then 1 else 0) + ProductiveSteps(Apply(p, steps[0]), steps[1..])
  }

  ghost function SpuriousSteps(steps: seq<Step>): (n: nat) {
    if steps == [] then 0
    else (if steps[0].SpuriousDispatcher? || steps[0].SpuriousWorker? then 1 else 0) + SpuriousSteps(steps[1..])
  }

  lemma {:induction false} RunPays(p: Pool, steps: seq<Step>)
    requires Inv(p) && Legal(p, steps) && NoSubmission(steps)
    ensures Rank(Run(p, steps)) + ProductiveSteps(p, steps) <= Rank(p) + 20 * SpuriousSteps(steps)
    decreases |steps|
  {
    if steps == [] {
    } else {
      StepPays(p, steps[0]);
      RunPays(Apply(p, steps[0]), steps[1..]);
    }
  }

  /** Every step is productive. */
  ghost predicate AllProductive(p: Pool, steps: seq<Step>)
    requires Inv(p)
    decreases |steps|
  {
    steps == [] ||
    (Enabled(p, steps[0]) && Productive(p, steps[0]) &&
     (PI.StepKeepsInv(p, steps[0]); AllProductive(Apply(p, steps[0]), steps[1..])))
  }

  lemma ProductiveIsEnabled(p: Pool, a: Step)
    requires Shape(p) && Productive(p, a)
    ensures Enabled(p, a) && !a.Submit? && !a.SpuriousDispatcher? && !a.SpuriousWorker?
    ensures Apply(p, a).close.Open? <==> p.close.Open?
    ensures |Apply(p, a).ring.wr| == |p.ring.wr|
  {
  }

  /** Some schedule of productive steps leads to a state without any. */
  lemma {:induction false} Settle(p: Pool) returns (steps: seq<Step>)
    requires Inv(p)
    ensures AllProductive(p, steps) && Legal(p, steps) && Stuck(Run(p, steps))
    ensures Run(p, steps).close.Open? <==> p.close.Open?
    ensures |Run(p, steps).ring.wr| == |p.ring.wr|
    decreases Rank(p)
  {
    if Stuck(p) {
      steps := [];
    } else {
      var a: Step :| Productive(p, a);
      ProductiveIsEnabled(p, a);
      StepPays(p, a);
      var rest := Settle(Apply(p, a));
      steps := [a] + rest;
      assert steps[1..] == rest;
    }
  }

  lemma {:induction false} RunAppend(p: Pool, xs: seq<Step>, ys: seq<Step>)
    requires Inv(p) && Legal(p, xs) && Legal(Run(p, xs), ys)
    ensures Legal(p, xs + ys) && Run(p, xs + ys) == Run(Run(p, xs), ys)
    decreases |xs|
  {
    if xs == [] {
      assert xs + ys == ys;
    } else {
      assert (xs + ys)[1..] == xs[1..] + ys;
      PI.StepKeepsInv(p, xs[0]);
      RunAppend(Apply(p, xs[0]), xs[1..], ys);
    }
  }

  /* ------------------------- Work without submissions ------------------------- */

  /** Without new submissions, what has been submitted and which calls have returned only stays. */
  ghost predicate SameSubmissions(p: Pool, q: Pool) {
    && |q.workers| == |p.workers| && q.ring.words == p.ring.words
    && |q.ring.wr| == |p.ring.wr| && (forall t | 0 <= t < |p.ring.wr| :: q.ring.wr[t].value == p.ring.wr[t].value)
    && (AllCallsDone(p) ==> AllCallsDone(q))
  }

  lemma DispatchKeepsSubmissions(p: Pool)
    requires Shape(p) && Enabled(p, Dispatch)
    ensures DispatchStep(p).ring.wr == p.ring.wr && DispatchStep(p).ring.words == p.ring.words
    ensures DispatchStep(p).calls == p.calls
  {
  }

  lemma StepKeepsSubmissions(p: Pool, a: Step)
    requires Shape(p) && Enabled(p, a) && !a.Submit?
    ensures SameSubmissions(p, Apply(p, a))
  {
    PI.StepKeepsThreads(p, a);
    if a.Dispatch? { DispatchKeepsSubmissions(p); }
  }

  lemma {:induction false} RunKeepsSubmissions(p: Pool, steps: seq<Step>)
    requires Inv(p) && Legal(p, steps) && NoSubmission(steps)
    ensures SameSubmissions(p, Run(p, steps))
    decreases |steps|
  {
    if steps == [] {
    } else {
      PI.StepKeepsInv(p, steps[0]);
      StepKeepsSubmissions(p, steps[0]);
      RunKeepsSubmissions(Apply(p, steps[0]), steps[1..]);
    }
  }

  lemma SameWorkerLeft(p: Pool, q: Pool)
    requires SameSubmissions(p, q)
    ensures WorkerLeft(q) <==> WorkerLeft(p)
  {
    if p.ring.wr != [] { PI.SameEmptyCount(p.ring.wr, q.ring.wr, |p.ring.wr| - 1); }
  }

  lemma {:induction false} ProductiveHasNoSubmission(p: Pool, steps: seq<Step>)
    requires Inv(p) && Legal(p, steps) && AllProductive(p, steps)
    ensures NoSubmission(steps)
    decreases |steps|
  {
    if steps == [] {
    } else {
      PI.StepKeepsInv(p, steps[0]);
      ProductiveHasNoSubmission(Apply(p, steps[0]), steps[1..]);
      assert forall i | 1 <= i < |steps| :: steps[i] == steps[1..][i - 1];
    }
  }

  lemma SettleQuietly(p: Pool) returns (steps: seq<Step>)
    requires Inv(p)
    ensures AllProductive(p, steps) && Legal(p, steps) && NoSubmission(steps) && Stuck(Run(p, steps))
    ensures Run(p, steps).close.Open? <==> p.close.Open?
    ensures SameSubmissions(p, Run(p, steps)) && (WorkerLeft(Run(p, steps)) <==> WorkerLeft(p))
  {
    steps := Settle(p);
    ProductiveHasNoSubmission(p, steps);
    RunKeepsSubmissions(p, steps);
    SameWorkerLeft(p, Run(p, steps));
  }

  /** The pool gets its work done.  From every state of every run: without new submissions, however the
      threads are scheduled, at most Rank productive steps (and twenty more per spurious wake-up) can
      happen, and some schedule gets to the end.  If the pool is not being destroyed, at the end exactly the
      tasks with a target that came after fewer empty ones than there are workers have been executed, once
      each, and everybody else sleeps; if it is, at the end both destructors have finished and every thread
      has left its loop, unless every worker has been lost to an empty task. */
  lemma PoolTerminates(n: nat, words: nat, stale: seq<Payload>, steps: seq<Step>) returns (settle: seq<Step>)
    requires n > 0 && R.GoodStart(words, stale) && Legal(Start(n, words, stale), steps)
    ensures
      var p := Run(Start(n, words, stale), steps);
      && (forall more: seq<Step> | Legal(p, more) && NoSubmission(more) ::
            ProductiveSteps(p, more) <= Rank(p) + 20 * SpuriousSteps(more))
      && Legal(p, settle) && AllProductive(p, settle)
      && var q := Run(p, settle);
      && SameSubmissions(p, q)
      && (forall j, k | 0 <= j < k < |q.executed| :: q.executed[j].ticket != q.executed[k].ticket)
      && (p.close.Open? ==>
            && (forall t: nat | t < |q.ring.wr| ::
                  HasRun(q, t) <==> !EmptyBody(q.ring.wr[t].value) && EmptyCount(q.ring.wr, t) < n)
            && (WorkerLeft(p) ==> AllCallsDone(q) && q.disp.DParked?)
            && (forall i: nat | i < n :: Lost(q.workers[i]) || q.workers[i].pc.WParked?))
      && (!p.close.Open? && WorkerLeft(p) ==>
            q.close.Closed? && q.disp.DExit? && (forall i: nat | i < n :: q.workers[i].pc.WExit?))
  {
    var p0 := Start(n, words, stale);
    var p := Run(p0, steps);
    forall more: seq<Step> | Legal(p, more) && NoSubmission(more)
      ensures ProductiveSteps(p, more) <= Rank(p) + 20 * SpuriousSteps(more)
    {
      RunPays(p, more);
    }
    settle := SettleQuietly(p);
    RunAppend(p0, steps, settle);
    if p.close.Open? {
      PoolQuiesces(n, words, stale, steps + settle);
    } else {
      ShutdownCompletes(n, words, stale, steps + settle);
    }
  }

  /* ------------------------- When destruction is safe ------------------------- */

  /** However the run goes on, destruction is not left unfinished. */
  ghost predicate AlwaysCloses(p: Pool)
    requires Inv(p)
  {
    forall more: seq<Step> | Legal(p, more) && NoSubmission(more) && Stuck(Run(p, more)) && !Run(p, more).close.Open? ::
      Run(p, more).close.Closed?
  }

  lemma RunCons(p: Pool, a: Step, rest: seq<Step>)
    requires Inv(p) && Enabled(p, a) && Inv(Apply(p, a)) && Legal(Apply(p, a), rest)
    ensures Legal(p, [a] + rest) && Run(p, [a] + rest) == Run(Apply(p, a), rest)
  {
    assert ([a] + rest)[1..] == rest;
  }

  lemma StaysStarved(p: Pool, q: Pool)
    requires Shape(p) && Stuck(p) && Starved(p) && q == p.(running := false, flag := 1, close := CJoin) && Shape(q)
    ensures Stuck(q)
  {
    forall a: Step ensures !Productive(q, a) { assert !Productive(p, a); }
  }

  /** Destroying a starved pool: the destructor waits for ever for the dispatcher. */
  lemma StarvedNeverCloses(p: Pool) returns (steps: seq<Step>)
    requires Inv(p) && Stuck(p) && p.close.Open? && AllCallsDone(p) && Starved(p)
    ensures Legal(p, steps) && NoSubmission(steps) && Stuck(Run(p, steps)) && Run(p, steps).close.CJoin?
  {
    var p1 := Apply(p, Close);
    PI.StepKeepsInv(p, Close);
    var p2 := Apply(p1, Close);
    PI.StepKeepsInv(p1, Close);
    var p3 := Apply(p2, Close);
    PI.StepKeepsInv(p2, Close);
    StaysStarved(p, p3);
    RunCons(p2, Close, []);
    RunCons(p1, Close, [Close] + []);
    RunCons(p, Close, [Close] + ([Close] + []));
    steps := [Close] + ([Close] + ([Close] + []));
  }

  lemma SafeWithWorkerLeft(p: Pool, more: seq<Step>)
    requires Inv(p) && WorkerLeft(p) && Legal(p, more) && NoSubmission(more)
    requires Stuck(Run(p, more)) && !Run(p, more).close.Open?
    ensures Run(p, more).close.Closed?
  {
    var q := Run(p, more);
    RunKeepsSubmissions(p, more);
    SameWorkerLeft(p, q);
    if Starved(q) { StarvedMeansNoneLeft(q); } else { StuckIsClosed(q); }
  }

  lemma UnsafeWithoutWorker(p: Pool) returns (more: seq<Step>)
    requires Inv(p) && p.close.Open? && AllCallsDone(p) && !WorkerLeft(p)
    ensures Legal(p, more) && NoSubmission(more) && Stuck(Run(p, more)) && Run(p, more).close.CJoin?
  {
    var settle := SettleQuietly(p);
    var q := Run(p, settle);
    StuckThreads(q);
    var last := StarvedNeverCloses(q);
    RunAppend(p, settle, last);
    more := settle + last;
  }

  /** A pool whose assignTask calls have all returned can be destroyed safely, in every schedule, if and only
      if no task was submitted after as many empty tasks as there are workers. */
  lemma DestructionIsSafeIff(n: nat, words: nat, stale: seq<Payload>, steps: seq<Step>)
    requires n > 0 && R.GoodStart(words, stale) && Legal(Start(n, words, stale), steps)
    requires Run(Start(n, words, stale), steps).close.Open? && AllCallsDone(Run(Start(n, words, stale), steps))
    ensures AlwaysCloses(Run(Start(n, words, stale), steps)) <==> WorkerLeft(Run(Start(n, words, stale), steps))
  {
    var p := Run(Start(n, words, stale), steps);
    if WorkerLeft(p) {
      forall more: seq<Step> | Legal(p, more) && NoSubmission(more) && Stuck(Run(p, more)) && !Run(p, more).close.Open?
        ensures Run(p, more).close.Closed?
      {
        SafeWithWorkerLeft(p, more);
      }
    } else {
      var more := UnsafeWithoutWorker(p);
    }
  }
}
