/** Exactly which operations of the ring can be stuck. */
module RingProgress {
  import opened Bits
  import opened Ring

  /** A step of an operation already in flight that is not a failing load of its guard. */
  ghost predicate Productive(s: State, a: Step)
    requires Shape(s)
  {
    match a
    case AdvanceWrite(t) => Enabled(s, a) && (s.wr[t].phase.Waiting? ==> WriteGuard(s, t))
    case AdvanceRead(t) => Enabled(s, a) && (s.rd[t].phase.Awaiting? ==> ReadGuard(s, t))
    case _ => false
  }

  /** No operation in flight can do anything but spin. */
  ghost predicate Stuck(s: State)
    requires Shape(s)
  {
    forall a: Step :: !Productive(s, a)
  }

  /* ------------------------------ Rank ------------------------------ */

  /** The number of memory accesses, after its claim, that an enqueue still has to make. */
  function WriteWork(op: WriteOp, words: nat): (n: nat) {
    match op.phase
    case Waiting => words + 2
    case Filling(k) => if k <= words then words + 1 - k else 0
    case Published => 0
  }

  function ReadWork(op: ReadOp, words: nat): (n: nat) {
    match op.phase
    case Awaiting => words + 2
    case Copying(c) => if |c| <= words then words + 1 - |c| else 0
    case Returned(_) => 0
  }

  function WritesWork(wr: seq<WriteOp>, words: nat): (n: nat) {
    if wr == [] then 0 else WriteWork(wr[0], words) + WritesWork(wr[1..], words)
  }

  function ReadsWork(rd: seq<ReadOp>, words: nat): (n: nat) {
    if rd == [] then 0 else ReadWork(rd[0], words) + ReadsWork(rd[1..], words)
  }

  function Rank(s: State): (n: nat) {
    WritesWork(s.wr, s.words) + ReadsWork(s.rd, s.words)
  }

  lemma {:induction false} WritesWorkUpdate(wr: seq<WriteOp>, t: nat, op: WriteOp, words: nat)
    requires t < |wr|
    ensures WritesWork(wr[t := op], words) == WritesWork(wr, words) - WriteWork(wr[t], words) + WriteWork(op, words)
  {
    if t == 0 {
      assert wr[t := op][1..] == wr[1..];
    } else {
      assert wr[t := op][1..] == wr[1..][t - 1 := op];
      WritesWorkUpdate(wr[1..], t - 1, op, words);
    }
  }

  lemma {:induction false} ReadsWorkUpdate(rd: seq<ReadOp>, t: nat, op: ReadOp, words: nat)
    requires t < |rd|
    ensures ReadsWork(rd[t := op], words) == ReadsWork(rd, words) - ReadWork(rd[t], words) + ReadWork(op, words)
  {
    if t == 0 {
      assert rd[t := op][1..] == rd[1..];
    } else {
      assert rd[t := op][1..] == rd[1..][t - 1 := op];
      ReadsWorkUpdate(rd[1..], t - 1, op, words);
    }
  }

  /** A productive step uses up one access; a spinning step changes nothing at all. */
  lemma AdvanceRank(s: State, a: Step)
    requires Shape(s) && Enabled(s, a) && (a.AdvanceWrite? || a.AdvanceRead?)
    ensures Productive(s, a) ==> Rank(Apply(s, a)) == Rank(s) - 1
    ensures !Productive(s, a) ==> Apply(s, a) == s
    ensures |Apply(s, a).wr| == |s.wr| && |Apply(s, a).rd| == |s.rd|
  {
    match a
    case AdvanceWrite(t) =>
      assert WriteOpShape(s.wr[t], s.words);
      WritesWorkUpdate(s.wr, t, Apply(s, a).wr[t], s.words);
      assert Apply(s, a).wr == s.wr[t := Apply(s, a).wr[t]];
    case AdvanceRead(t) =>
      assert ReadOpShape(s.rd[t], s.words);
      ReadsWorkUpdate(s.rd, t, Apply(s, a).rd[t], s.words);
      assert Apply(s, a).rd == s.rd[t := Apply(s, a).rd[t]];
  }

  ghost predicate ClaimFree(steps: seq<Step>) {
    forall i | 0 <= i < |steps| :: steps[i].AdvanceWrite? || steps[i].AdvanceRead?
  }

  ghost function ProductiveSteps(s: State, steps: seq<Step>): (n: nat)
    requires Shape(s) && Legal(s, steps)
    decreases |steps|
  {
    if steps == [] then 0
    else (if Productive(s, steps[0]) then 1 else 0) + ProductiveSteps(Apply(s, steps[0]), steps[1..])
  }

  /** Without new claims, the rank counts down exactly with the productive steps, so a run
      contains at most `Rank(s)` of them however it is scheduled. */
  lemma {:induction false} ClaimFreeRunRank(s: State, steps: seq<Step>)
    requires Shape(s) && Legal(s, steps) && ClaimFree(steps)
    ensures Rank(Run(s, steps)) + ProductiveSteps(s, steps) == Rank(s)
    ensures |Run(s, steps).wr| == |s.wr| && |Run(s, steps).rd| == |s.rd|
    decreases |steps|
  {
    if steps == [] {
    } else {
      AdvanceRank(s, steps[0]);
      ClaimFreeRunRank(Apply(s, steps[0]), steps[1..]);
    }
  }

  /* -------------------- Who is blocked at the end -------------------- */

  /** The enqueues in flight are the tickets [R + size, W) and the dequeues in flight are [W, R). */
  ghost predicate BlockedExactly(s: State) {
    && (forall t: nat | t < |s.wr| :: s.wr[t].phase.Published? <==> t < |s.rd| + s.size)
    && (forall t: nat | t < |s.rd| :: s.rd[t].phase.Returned? <==> t < |s.wr|)
  }

  /** In a stuck state every enqueue with ticket below R + size has published. */
  lemma {:induction false} StuckWriterFinished(s: State, t: nat)
    requires Inv(s) && Stuck(s) && t < |s.wr| && t < |s.rd| + s.size
    ensures s.wr[t].phase.Published?
    decreases t
  {
    assert !Productive(s, AdvanceWrite(t)) && TicketMeaning(s, t);
    if t < s.size {
    } else {
      var r := t - s.size;
      StuckWriterFinished(s, r);
      assert !Productive(s, AdvanceRead(r)) && TicketMeaning(s, r);
    }
  }

  lemma StuckBlocksExactly(s: State)
    requires Inv(s) && Stuck(s)
    ensures BlockedExactly(s)
  {
    forall t: nat | t < |s.wr| ensures s.wr[t].phase.Published? <==> t < |s.rd| + s.size {
      assert WriteMeaning(s, t);
      if t < |s.rd| + s.size { StuckWriterFinished(s, t); }
    }
    forall t: nat | t < |s.rd| ensures s.rd[t].phase.Returned? <==> t < |s.wr| {
      assert ReadMeaning(s, t) && TicketMeaning(s, t) && !Productive(s, AdvanceRead(t));
      if t < |s.wr| { StuckWriterFinished(s, t); }
    }
  }

  /** Blocking is characterised exactly: a state is stuck if and only if the operations in flight
      are those two ticket ranges; and then no enqueue or no dequeue is blocked. */
  lemma StuckIff(s: State)
    requires Inv(s)
    ensures Stuck(s) <==> BlockedExactly(s)
    ensures Stuck(s) ==>
              || (forall t | 0 <= t < |s.wr| :: s.wr[t].phase.Published?)
              || (forall t | 0 <= t < |s.rd| :: s.rd[t].phase.Returned?)
  {
    if Stuck(s) { StuckBlocksExactly(s); }
    if BlockedExactly(s) {
      forall a: Step ensures !Productive(s, a) {
        match a
        case AdvanceWrite(t) => if t < |s.wr| { assert WriteMeaning(s, t) && SlotMeaning(s, Slot(s, t)); }
        case AdvanceRead(t) =>
          if t < |s.rd| {
            assert ReadMeaning(s, t) && SlotMeaning(s, Slot(s, t));
            SlotNext(t, s.size);
          }
        case _ =>
      }
    }
  }

  /** Keep stepping whatever can step. */
  lemma {:induction false} Drain(s: State) returns (steps: seq<Step>)
    requires Inv(s)
    ensures Legal(s, steps) && ClaimFree(steps) && Stuck(Run(s, steps))
    decreases Rank(s)
  {
    if Stuck(s) {
      steps := [];
    } else {
      var a: Step :| Productive(s, a);
      AdvanceRank(s, a);
      StepKeepsInv(s, a);
      var rest := Drain(Apply(s, a));
      RunCons(s, a, rest);
      steps := [a] + rest;
    }
  }

  /** From every state of every run, the operations in flight finish without any new claim except
      exactly the enqueues with tickets [R + size, W) and the dequeues with tickets [W, R): some
      schedule gets there, no schedule makes more than `Rank` productive steps, and every schedule
      that leaves nothing productive ends with the same operations blocked. */
  lemma BlockingIsExact(words: nat, stale: seq<Payload>, steps: seq<Step>) returns (drain: seq<Step>)
    requires GoodStart(words, stale) && Legal(Init(words, stale), steps)
    ensures
      var s := Run(Init(words, stale), steps);
      && Legal(s, drain) && ClaimFree(drain) && Stuck(Run(s, drain))
      && (forall more: seq<Step> | Legal(s, more) && ClaimFree(more) ::
            && ProductiveSteps(s, more) <= Rank(s)
            && |Run(s, more).wr| == |s.wr| && |Run(s, more).rd| == |s.rd|
            && (Stuck(Run(s, more)) <==> BlockedExactly(Run(s, more))))
  {
    var s := Run(Init(words, stale), steps);
    InitInv(words, stale);
    RunKeepsInv(Init(words, stale), steps);
    drain := Drain(s);
    forall more: seq<Step> | Legal(s, more) && ClaimFree(more)
      ensures ProductiveSteps(s, more) <= Rank(s)
      ensures |Run(s, more).wr| == |s.wr| && |Run(s, more).rd| == |s.rd|
      ensures Stuck(Run(s, more)) <==> BlockedExactly(Run(s, more))
    {
      ClaimFreeRunRank(s, more);
      RunKeepsInv(s, more);
      StuckIff(Run(s, more));
    }
  }
}
