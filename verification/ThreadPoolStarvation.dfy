/** Empty tasks do starve the pool: a run, for every number of workers, in which they leave a later task
    unexecuted and the destructor waiting for ever. */
module ThreadPoolStarvation {
  import opened Bits
  import R = Ring
  import opened ThreadPool
  import PI = ThreadPoolInvariant
  import opened ThreadPoolTheorems
  import opened ThreadPoolProgress

  /** At rest after k submissions of b: every call has returned and nothing productive is left. */
  ghost predicate AtRest(p: Pool, words: nat, b: Payload, k: nat) {
    && Inv(p) && Stuck(p) && p.close.Open? && AllCallsDone(p)
    && p.ring.words == words && |p.ring.wr| == k
    && forall t | 0 <= t < k :: p.ring.wr[t].value == b
  }

  lemma {:induction false} AllEmpty(wr: seq<R.WriteOp>, b: Payload, t: nat)
    requires t <= |wr| && EmptyBody(b) && forall u | 0 <= u < t :: wr[u].value == b
    ensures EmptyCount(wr, t) == t
  {
    if t == 0 {
    } else {
      AllEmpty(wr, b, t - 1);
    }
  }

  lemma {:induction false} CountAtMost(wr: seq<R.WriteOp>, t: nat)
    requires t <= |wr|
    ensures EmptyCount(wr, t) <= t
  {
    if t == 0 {
    } else {
      CountAtMost(wr, t - 1);
    }
  }

  /** A producer without a call in flight can submit. */
  lemma CanSubmit(p: Pool, c: Payload)
    requires Shape(p) && p.close.Open? && AllCallsDone(p) && |c| == p.ring.words
    ensures Enabled(p, Submit(1, c))
  {
  }

  /** Submitting c to a pool without a call in flight and letting it come to rest. */
  lemma SubmitAndSettle(p: Pool, c: Payload) returns (steps: seq<Step>)
    requires Inv(p) && p.close.Open? && AllCallsDone(p) && |c| == p.ring.words
    ensures Legal(p, steps) && Stuck(Run(p, steps)) && Run(p, steps).close.Open?
    ensures Sent(p, c, Run(p, steps))
  {
    CanSubmit(p, c);
    var p1 := Apply(p, Submit(1, c));
    assert Inv(p1) by { PI.StepKeepsInv(p, Submit(1, c)); }
    assert p1.close == p.close && Sent(p, c, p1);
    var settle := SettleQuietly(p1);
    SentStays(p, c, p1, Run(p1, settle));
    RunCons(p, Submit(1, c), settle);
    steps := [Submit(1, c)] + settle;
  }

  /** The submissions of q are those of p and c. */
  ghost predicate Sent(p: Pool, c: Payload, q: Pool) {
    && q.ring.words == p.ring.words && |q.ring.wr| == |p.ring.wr| + 1
    && (forall t | 0 <= t < |p.ring.wr| :: q.ring.wr[t].value == p.ring.wr[t].value)
    && q.ring.wr[|p.ring.wr|].value == c
  }

  lemma SentStays(p: Pool, c: Payload, p1: Pool, q: Pool)
    requires Sent(p, c, p1) && SameSubmissions(p1, q)
    ensures Sent(p, c, q)
  {
  }

  /** A pool with a worker left takes an empty task and comes to rest again. */
  lemma TakeEmpty(p: Pool, words: nat, b: Payload, k: nat) returns (steps: seq<Step>)
    requires AtRest(p, words, b, k) && |b| == words && EmptyBody(b) && k < |p.workers|
    ensures Legal(p, steps) && AtRest(Run(p, steps), words, b, k + 1)
  {
    steps := SubmitAndSettle(p, b);
    var q := Run(p, steps);
    assert WorkerLeft(q) by { AllEmpty(q.ring.wr, b, k); }
    StuckThreads(q);
  }

  lemma {:induction false} TakeEmpties(n: nat, words: nat, stale: seq<Payload>, b: Payload, k: nat)
    returns (steps: seq<Step>)
    requires n > 0 && R.GoodStart(words, stale) && |b| == words && EmptyBody(b) && k <= n
    ensures Legal(Start(n, words, stale), steps)
    ensures AtRest(Run(Start(n, words, stale), steps), words, b, k)
    decreases k
  {
    var p0 := Start(n, words, stale);
    if k == 0 {
      steps := SettleQuietly(p0);
    } else {
      var before := TakeEmpties(n, words, stale, b, k - 1);
      var more := TakeEmpty(Run(p0, before), words, b, k - 1);
      RunAppend(p0, before, more);
      steps := before + more;
    }
  }

  /** With the last task in the dispatcher's hands, every call has returned. */
  lemma StarvedCallsDone(p: Pool)
    requires Inv(p) && Stuck(p) && Starved(p) && |p.ring.wr| == |p.workers| + 1
    ensures AllCallsDone(p)
  {
    PI.LostCountBound(p.workers);
    CountAtMost(p.ring.wr, |p.handed|);
    StuckRing(p);
    forall t: nat | t < |p.calls| ensures p.calls[t].Done? { assert !Productive(p, Produce(t)); }
  }

  /** For every number of workers, every empty task b and every task c: after as many submissions of b as there
      are workers, and one of c, the pool comes to rest with the dispatcher searching for ever, c not
      executed, every call returned, and a destructor that can never finish. */
  lemma EmptyTasksStarve(n: nat, words: nat, stale: seq<Payload>, b: Payload, c: Payload) returns (steps: seq<Step>)
    requires n > 0 && R.GoodStart(words, stale) && |b| == |c| == words && EmptyBody(b)
    ensures Legal(Start(n, words, stale), steps)
    ensures
      var p := Run(Start(n, words, stale), steps);
      && p.close.Open? && AllCallsDone(p) && Starved(p) && !WorkerLeft(p) && !AlwaysCloses(p)
      && |p.ring.wr| == n + 1 && p.ring.wr[n].value == c && !HasRun(p, n)
  {
    var p0 := Start(n, words, stale);
    var before := TakeEmpties(n, words, stale, b, n);
    var more := SubmitAndSettle(Run(p0, before), c);
    RunAppend(p0, before, more);
    steps := before + more;
    var p := Run(Run(p0, before), more);
    AllEmpty(p.ring.wr, b, n);
    StuckThreads(p);
    StarvedCallsDone(p);
    StuckHasRun(p, n);
    DestructionIsSafeIff(n, words, stale, steps);
  }
}
