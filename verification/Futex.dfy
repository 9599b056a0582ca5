/** Waiting in the kernel: the futex, the one-bit thread gate built on it and the counting futex. */
module Futex {
  import opened Bits

  /** The kernel's wait queue of one futex word. */
  type Parked = set<nat>

  /** FUTEX_WAIT compares and parks atomically. */
  function AfterWait(k: Parked, w: nat, value: nat, expected: nat): (r: Parked) {
    if value == expected then k + {w} else k
  }

  /** FUTEX_WAKE with count one may pick any parked thread, and must pick one if there is one. */
  predicate MayWake(k: Parked, w: nat) {
    k == {} || w in k
  }

  function AfterWake(k: Parked, w: nat): (r: Parked)
    requires MayWake(k, w)
  {
    k - {w}
  }

  /* ------------------------------ Thread gate ------------------------------ */

  /** A waiter of a gate: not waiting, before its load, before its futex call (or parked in it). */
  datatype GatePc = Outside | Loading | Calling

  datatype Gate = Gate(
    flag: nat,
    parked: Parked,
    pc: seq<GatePc>,
    owing: nat)   // signalers between their store and their wake

  datatype GateStep =
    | Enter(w: nat)
    | Load(w: nat)
    | Call(w: nat)
    | Spurious(w: nat)
    | SignalStore
    | SignalWake(w: nat)
    | Reset

  predicate GateCan(g: Gate, a: GateStep) {
    match a
    case Enter(w) => w < |g.pc| && g.pc[w].Outside?
    case Load(w) => w < |g.pc| && g.pc[w].Loading?
    case Call(w) => w < |g.pc| && g.pc[w].Calling? && w !in g.parked
    case Spurious(w) => w < |g.pc| && w in g.parked
    case SignalStore => true
    case SignalWake(w) => g.owing > 0 && MayWake(g.parked, w)
    case Reset => true
  }

  function GateDo(g: Gate, a: GateStep): (r: Gate)
    requires GateCan(g, a)
  {
    match a
    case Enter(w) => g.(pc := g.pc[w := Loading])
    case Load(w) => g.(pc := g.pc[w := if g.flag == 1 then Outside else Calling])
    case Call(w) =>
      var k := AfterWait(g.parked, w, g.flag, 0);
      if w in k then g.(parked := k) else g.(pc := g.pc[w := Loading])
    case Spurious(w) => g.(parked := g.parked - {w}, pc := g.pc[w := Loading])
    case SignalStore => g.(flag := 1, owing := g.owing + 1)
    case SignalWake(w) =>
      g.(owing := g.owing - 1,
      parked := AfterWake(g.parked, w),
      pc := if w in g.parked && w < |g.pc| then g.pc[w := Loading] else g.pc)
    case Reset => g.(flag := 0)
  }

  function GateInit(waiters: nat): (g: Gate) {
    Gate(0, {}, seq(waiters, _ => Outside), 0)
  }

  ghost predicate GateLegal(g: Gate, steps: seq<GateStep>)
    decreases |steps|
  {
    steps == [] || (GateCan(g, steps[0]) && GateLegal(GateDo(g, steps[0]), steps[1..]))
  }

  ghost function GateRun(g: Gate, steps: seq<GateStep>): (r: Gate)
    requires GateLegal(g, steps)
    decreases |steps|
  {
    if steps == [] then g else GateRun(GateDo(g, steps[0]), steps[1..])
  }

  /** Nobody sleeps through a raised flag unless a wake is still on its way. */
  ghost predicate GateSound(g: Gate) {
    g.parked != {} && g.flag == 1 ==> g.owing > 0
  }

  ghost predicate GateInv(g: Gate) {
    GateSound(g) && forall w | w in g.parked :: w < |g.pc| && g.pc[w].Calling?
  }

  /** With a single waiter every step of every thread keeps the gate sound. */
  lemma {:induction false} SingleWaiterSound(g: Gate, steps: seq<GateStep>)
    requires GateInv(g) && |g.pc| <= 1 && GateLegal(g, steps)
    ensures GateInv(GateRun(g, steps))
    decreases |steps|
  {
    if steps == [] {
    } else {
      var r := GateDo(g, steps[0]);
      assert GateInv(r);
      SingleWaiterSound(r, steps[1..]);
    }
  }

  lemma GateCons(g: Gate, a: GateStep, rest: seq<GateStep>)
    requires GateCan(g, a) && GateLegal(GateDo(g, a), rest)
    ensures GateLegal(g, [a] + rest) && GateRun(g, [a] + rest) == GateRun(GateDo(g, a), rest)
  {
    assert ([a] + rest)[1..] == rest;
  }

  /** With two waiters, one signal wakes one of them and the other sleeps on under a raised flag. */
  lemma SecondWaiterSleeps(n: nat) returns (steps: seq<GateStep>)
    requires n >= 2
    ensures GateLegal(GateInit(n), steps) && !GateSound(GateRun(GateInit(n), steps))
  {
    var g0 := GateInit(n);
    var g1 := GateDo(g0, Enter(0));
    var g2 := GateDo(g1, Load(0));
    var g3 := GateDo(g2, Call(0));
    var g4 := GateDo(g3, Enter(1));
    var g5 := GateDo(g4, Load(1));
    var g6 := GateDo(g5, Call(1));
    var g7 := GateDo(g6, SignalStore);
    var g8 := GateDo(g7, SignalWake(0));
    assert 1 in g8.parked;
    steps := [];
    GateCons(g7, SignalWake(0), steps);
    steps := [SignalWake(0)] + steps;
    GateCons(g6, SignalStore, steps);
    steps := [SignalStore] + steps;
    GateCons(g5, Call(1), steps);
    steps := [Call(1)] + steps;
    GateCons(g4, Load(1), steps);
    steps := [Load(1)] + steps;
    GateCons(g3, Enter(1), steps);
    steps := [Enter(1)] + steps;
    GateCons(g2, Call(0), steps);
    steps := [Call(0)] + steps;
    GateCons(g1, Load(0), steps);
    steps := [Load(0)] + steps;
    GateCons(g0, Enter(0), steps);
    steps := [Enter(0)] + steps;
  }

  ghost predicate AlwaysSound(n: nat) {
    forall steps: seq<GateStep> | GateLegal(GateInit(n), steps) :: GateSound(GateRun(GateInit(n), steps))
  }

  /** A gate is sound in every run exactly when at most one thread waits on it, for any number of
      signalers: the way the pool uses it, one gate per waiting thread. */
  lemma GateSoundIffSingleWaiter(n: nat)
    ensures AlwaysSound(n) <==> n <= 1
  {
    if n <= 1 {
      forall steps: seq<GateStep> | GateLegal(GateInit(n), steps) ensures GateSound(GateRun(GateInit(n), steps)) {
        SingleWaiterSound(GateInit(n), steps);
      }
    } else {
      var steps := SecondWaiterSleeps(n);
    }
  }

  /* ----------------------------- Counting futex ----------------------------- */

  /** A thread inside wait: before its futex call (or parked in it), or before its re-load.  It
      remembers the snapshot it compares with; `at` is the number of wakes begun by then. */
  datatype WaitPc = NotIn | InCall(expected: nat, at: nat) | Reloading(expected: nat, at: nat)

  /** `count` is the number of increments; the word holds it modulo the word size. */
  datatype Counter = Counter(modulus: nat, count: nat, parked: Parked, pc: seq<WaitPc>, owing: nat)

  datatype CounterStep =
    | Snapshot(w: nat)
    | FutexWait(w: nat)
    | Interrupt(w: nat)
    | Reload(w: nat)
    | Increment
    | FutexWake(w: nat)

  function Stored(c: Counter): (v: nat)
    requires c.modulus > 0
  {
    Wrap(c.count, c.modulus)
  }

  predicate CounterCan(c: Counter, a: CounterStep) {
    match a
    case Snapshot(w) => w < |c.pc| && c.pc[w].NotIn?
    case FutexWait(w) => w < |c.pc| && c.pc[w].InCall? && w !in c.parked
    case Interrupt(w) => w < |c.pc| && c.pc[w].InCall? && w in c.parked
    case Reload(w) => w < |c.pc| && c.pc[w].Reloading?
    case Increment => true
    case FutexWake(w) => c.owing > 0 && MayWake(c.parked, w)
  }

  function CounterDo(c: Counter, a: CounterStep): (r: Counter)
    requires c.modulus > 0 && CounterCan(c, a)
  {
    match a
    case Snapshot(w) => c.(pc := c.pc[w := InCall(Stored(c), c.count)])
    case FutexWait(w) =>
      var k := AfterWait(c.parked, w, Stored(c), c.pc[w].expected);
      if w in k then c.(parked := k) else c.(pc := c.pc[w := Reloading(c.pc[w].expected, c.pc[w].at)])
    case Interrupt(w) =>
      c.(parked := c.parked - {w}, pc := c.pc[w := Reloading(c.pc[w].expected, c.pc[w].at)])
    case Reload(w) =>
      c.(pc := c.pc[w := if Stored(c) != c.pc[w].expected then NotIn else InCall(c.pc[w].expected, c.pc[w].at)])
    case Increment => c.(count := c.count + 1, owing := c.owing + 1)
    case FutexWake(w) =>
      c.(owing := c.owing - 1,
      parked := AfterWake(c.parked, w),
      pc := if w in c.parked && w < |c.pc| && c.pc[w].InCall?
      then c.pc[w := Reloading(c.pc[w].expected, c.pc[w].at)] else c.pc)
  }

  function CounterInit(modulus: nat, waiters: nat): (c: Counter) {
    Counter(modulus, 0, {}, seq(waiters, _ => NotIn), 0)
  }

  ghost predicate CounterInv(c: Counter) {
    && c.modulus > 1
    && (forall w | w in c.parked :: w < |c.pc| && c.pc[w].InCall?)
    && (forall w | 0 <= w < |c.pc| && !c.pc[w].NotIn? ::
          c.pc[w].at <= c.count && c.pc[w].expected == Wrap(c.pc[w].at, c.modulus))
  }

  ghost predicate CounterLegal(c: Counter, steps: seq<CounterStep>)
    requires c.modulus > 0
    decreases |steps|
  {
    steps == [] || (CounterCan(c, steps[0]) && CounterLegal(CounterDo(c, steps[0]), steps[1..]))
  }

  ghost function CounterRun(c: Counter, steps: seq<CounterStep>): (r: Counter)
    requires c.modulus > 0 && CounterLegal(c, steps)
    decreases |steps|
  {
    if steps == [] then c else CounterRun(CounterDo(c, steps[0]), steps[1..])
  }

  lemma CounterStepInv(c: Counter, a: CounterStep)
    requires CounterInv(c) && CounterCan(c, a)
    ensures CounterInv(CounterDo(c, a)) && CounterDo(c, a).count >= c.count
  {
  }

  lemma {:induction false} CounterRunInv(c: Counter, steps: seq<CounterStep>)
    requires CounterInv(c) && CounterLegal(c, steps)
    ensures CounterInv(CounterRun(c, steps)) && CounterRun(c, steps).count >= c.count
    decreases |steps|
  {
    if steps == [] {
    } else {
      CounterStepInv(c, steps[0]);
      CounterRunInv(CounterDo(c, steps[0]), steps[1..]);
    }
  }

  /** In every run, wait returns only after an increment later than its snapshot, whatever
      interrupts or spurious wake-ups happened; this does not depend on the word size. */
  lemma WaitReturnsAfterIncrement(modulus: nat, waiters: nat, steps: seq<CounterStep>, w: nat)
    requires modulus > 1 && CounterLegal(CounterInit(modulus, waiters), steps)
    requires CounterCan(CounterRun(CounterInit(modulus, waiters), steps), Reload(w))
    ensures
      var c := CounterRun(CounterInit(modulus, waiters), steps);
      && c.modulus > 0
      && (CounterDo(c, Reload(w)).pc[w].NotIn? ==> c.pc[w].at < c.count)
  {
    CounterRunInv(CounterInit(modulus, waiters), steps);
  }

  /* Waking */

  ghost function Waiting(c: Counter): (ws: set<nat>) {
    set w: nat | w < |c.pc| && !c.pc[w].NotIn?
  }

  ghost function Wakes(steps: seq<CounterStep>): (n: nat) {
    if steps == [] then 0 else (if steps[0].FutexWake? then 1 else 0) + Wakes(steps[1..])
  }

  ghost predicate NoSnapshot(steps: seq<CounterStep>) {
    forall i | 0 <= i < |steps| :: !steps[i].Snapshot?
  }

  /** The threads asleep in a wait whose snapshot is older than the given number of increments. */
  ghost function EarlyParked(c: Counter, mark: nat): (ws: set<nat>) {
    set w: nat | w in c.parked && w < |c.pc| && c.pc[w].InCall? && c.pc[w].at < mark
  }

  /** The wakes that go to a newcomer although an earlier waiter is asleep. */
  ghost function Taken(c: Counter, steps: seq<CounterStep>, mark: nat): (n: nat)
    requires c.modulus > 0 && CounterLegal(c, steps)
    ensures n <= Wakes(steps)
    decreases |steps|
  {
    if steps == [] then 0
    else TakenNow(c, steps[0], mark) + Taken(CounterDo(c, steps[0]), steps[1..], mark)
  }

  ghost function TakenNow(c: Counter, a: CounterStep, mark: nat): (n: nat) {
    if a.FutexWake? && EarlyParked(c, mark) != {} && a.w !in EarlyParked(c, mark) then 1 else 0
  }

  function Minus(n: nat, k: nat): (r: nat) {
    if k <= n then n - k else 0
  }

  /** The increment numbered `mark` is over, and by the time `last` increments have happened the word
      has not come round to the snapshot of an earlier waiter. */
  ghost predicate EarlyStale(c: Counter, mark: nat, last: nat) {
    && mark <= c.count
    && forall w | 0 <= w < |c.pc| && !c.pc[w].NotIn? && c.pc[w].at < mark :: last < c.pc[w].at + c.modulus
  }

  /** One step after the increment: no earlier waiter goes to sleep again, and a wake that is not taken
      by a newcomer releases one if there is any. */
  lemma EarlyStep(c: Counter, a: CounterStep, mark: nat, last: nat)
    requires CounterInv(c) && CounterCan(c, a) && CounterDo(c, a).count <= last && EarlyStale(c, mark, last)
    ensures EarlyStale(CounterDo(c, a), mark, last)
    ensures |EarlyParked(CounterDo(c, a), mark)|
         <= Minus(|EarlyParked(c, mark)|, if a.FutexWake? then 1 - TakenNow(c, a, mark) else 0)
  {
    if a.FutexWait? && c.pc[a.w].at < mark { WrapClose(c.pc[a.w].at, c.count, c.modulus); }
    SubsetSize(EarlyParked(CounterDo(c, a), mark), EarlyParked(c, mark));
    if a.FutexWake? && a.w in EarlyParked(c, mark) {
      assert EarlyParked(CounterDo(c, a), mark) == EarlyParked(c, mark) - {a.w};
    }
  }

  lemma {:induction false} EarlyRun(c: Counter, steps: seq<CounterStep>, mark: nat, last: nat)
    requires CounterInv(c) && CounterLegal(c, steps)
    requires CounterRun(c, steps).count <= last && EarlyStale(c, mark, last)
    ensures |EarlyParked(CounterRun(c, steps), mark)|
         <= Minus(|EarlyParked(c, mark)|, Wakes(steps) - Taken(c, steps, mark))
    decreases |steps|
  {
    if steps == [] {
    } else {
      var r := CounterDo(c, steps[0]);
      CounterStepInv(c, steps[0]);
      CounterRunInv(r, steps[1..]);
      EarlyStep(c, steps[0], mark, last);
      EarlyRun(r, steps[1..], mark, last);
    }
  }

  /** A wake is never taken when nobody starts waiting, or when there is one thread only. */
  lemma {:induction false} NoneTaken(c: Counter, steps: seq<CounterStep>, mark: nat)
    requires CounterInv(c) && CounterLegal(c, steps)
    requires |c.pc| <= 1 || (NoSnapshot(steps) && forall w | 0 <= w < |c.pc| && !c.pc[w].NotIn? :: c.pc[w].at < mark)
    ensures Taken(c, steps, mark) == 0
    decreases |steps|
  {
    if steps == [] {
    } else {
      CounterStepInv(c, steps[0]);
      if |c.pc| > 1 {
        assert !steps[0].Snapshot?;
        assert EarlyParked(c, mark) == c.parked;
      }
      NoneTaken(CounterDo(c, steps[0]), steps[1..], mark);
    }
  }

  /** The word has not come round to a snapshot of the threads inside wait in state c. */
  ghost predicate NoWrap(c: Counter, last: nat) {
    forall w | 0 <= w < |c.pc| && !c.pc[w].NotIn? :: last < c.pc[w].at + c.modulus
  }

  /** From any state, after an increment and for every schedule of old and new waiters: of the n
      threads waiting before it, k wake calls of which j go to newcomers leave at most n - (k - j)
      asleep. */
  lemma WakesReleaseWaiters(c: Counter, steps: seq<CounterStep>)
    requires CounterInv(c) && CounterLegal(CounterDo(c, Increment), steps)
    requires NoWrap(c, CounterRun(CounterDo(c, Increment), steps).count)
    ensures
      var start, mark := CounterDo(c, Increment), c.count + 1;
      |EarlyParked(CounterRun(start, steps), mark)| <= Minus(|Waiting(c)|, Wakes(steps) - Taken(start, steps, mark))
  {
    var start, mark := CounterDo(c, Increment), c.count + 1;
    CounterStepInv(c, Increment);
    SubsetSize(EarlyParked(start, mark), Waiting(c));
    EarlyRun(start, steps, mark, CounterRun(start, steps).count);
  }

  /** A run up to some state, an increment, and a run after it; `newcomers` says whether threads may
      start to wait after the increment. */
  ghost predicate WakeScenario(init: Counter, before: seq<CounterStep>, after: seq<CounterStep>, newcomers: bool)
    requires init.modulus > 0
  {
    && CounterLegal(init, before)
    && var c := CounterRun(init, before);
       && c.modulus > 0
       && CounterLegal(CounterDo(c, Increment), after)
       && NoWrap(c, CounterRun(CounterDo(c, Increment), after).count)
       && (newcomers || NoSnapshot(after))
  }

  /** k wake calls leave at most n - k of the n earlier waiters asleep. */
  ghost predicate Releases(init: Counter, before: seq<CounterStep>, after: seq<CounterStep>, newcomers: bool)
    requires init.modulus > 0 && WakeScenario(init, before, after, newcomers)
  {
    var c := CounterRun(init, before);
    |EarlyParked(CounterRun(CounterDo(c, Increment), after), c.count + 1)| <= Minus(|Waiting(c)|, Wakes(after))
  }

  ghost predicate AlwaysReleases(init: Counter, newcomers: bool)
    requires init.modulus > 0
  {
    forall before, after | WakeScenario(init, before, after, newcomers) :: Releases(init, before, after, newcomers)
  }

  lemma {:induction false} SameThreads(c: Counter, steps: seq<CounterStep>)
    requires c.modulus > 0 && CounterLegal(c, steps)
    ensures |CounterRun(c, steps).pc| == |c.pc| && CounterRun(c, steps).modulus == c.modulus
    decreases |steps|
  {
    if steps == [] {
    } else {
      SameThreads(CounterDo(c, steps[0]), steps[1..]);
    }
  }

  /** k wakes release k of the threads that waited before, in every run, exactly when either no thread
      may start to wait in between or there is no second thread that could. */
  lemma ReleasesIffNoRival(modulus: nat, threads: nat, newcomers: bool)
    requires modulus > 1
    ensures AlwaysReleases(CounterInit(modulus, threads), newcomers) <==> !newcomers || threads <= 1
  {
    var init := CounterInit(modulus, threads);
    if newcomers && threads >= 2 {
      var before, after := WakeCanBeTaken(modulus, threads);
    } else {
      forall before, after | WakeScenario(init, before, after, newcomers)
        ensures Releases(init, before, after, newcomers)
      {
        var c := CounterRun(init, before);
        CounterRunInv(init, before);
        SameThreads(init, before);
        CounterStepInv(c, Increment);
        WakesReleaseWaiters(c, after);
        NoneTaken(CounterDo(c, Increment), after, c.count + 1);
      }
    }
  }

  lemma CounterCons(c: Counter, a: CounterStep, rest: seq<CounterStep>)
    requires c.modulus > 0 && CounterCan(c, a) && CounterLegal(CounterDo(c, a), rest)
    ensures CounterLegal(c, [a] + rest) && CounterRun(c, [a] + rest) == CounterRun(CounterDo(c, a), rest)
    ensures Wakes([a] + rest) == (if a.FutexWake? then 1 else 0) + Wakes(rest)
  {
    assert ([a] + rest)[1..] == rest;
  }

  /** A thread that starts waiting between the increment and the kernel call can take the wake; the
      thread that waited before sleeps on, and no wake is owed to it. */
  lemma WakeCanBeTaken(modulus: nat, threads: nat) returns (before: seq<CounterStep>, after: seq<CounterStep>)
    requires modulus > 1 && threads >= 2
    ensures WakeScenario(CounterInit(modulus, threads), before, after, true)
    ensures !Releases(CounterInit(modulus, threads), before, after, true)
    ensures CounterRun(CounterDo(CounterRun(CounterInit(modulus, threads), before), Increment), after).owing == 0
  {
    var i0 := CounterInit(modulus, threads);
    var i1 := CounterDo(i0, Snapshot(0));
    var c := CounterDo(i1, FutexWait(0));
    CounterCons(i1, FutexWait(0), []);
    CounterCons(i0, Snapshot(0), [FutexWait(0)] + []);
    before := [Snapshot(0)] + ([FutexWait(0)] + []);

    var c1 := CounterDo(c, Increment);
    var c2 := CounterDo(c1, Snapshot(1));
    var c3 := CounterDo(c2, FutexWait(1));
    var c4 := CounterDo(c3, FutexWake(1));
    CounterCons(c3, FutexWake(1), []);
    CounterCons(c2, FutexWait(1), [FutexWake(1)] + []);
    CounterCons(c1, Snapshot(1), [FutexWait(1)] + ([FutexWake(1)] + []));
    after := [Snapshot(1)] + ([FutexWait(1)] + ([FutexWake(1)] + []));

    assert CounterRun(i0, before) == c && CounterRun(c1, after) == c4 && Wakes(after) == 1;
    assert Waiting(c) == {0};
    assert 0 in EarlyParked(c4, c.count + 1);
  }

  /* ------------------------------- The object ------------------------------- */

  /** A step that thread w itself takes inside wait, as opposed to what the kernel and others do. */
  predicate OwnStep(a: CounterStep, w: nat) {
    a == Snapshot(w) || a == FutexWait(w) || a == Reload(w)
  }

  ghost predicate CounterReached(c: Counter, steps: seq<CounterStep>, r: Counter) {
    c.modulus > 0 && CounterLegal(c, steps) && CounterRun(c, steps) == r
  }

  lemma {:induction false} CounterSnoc(c: Counter, steps: seq<CounterStep>, r: Counter, a: CounterStep)
    requires CounterReached(c, steps, r) && r.modulus > 0 && CounterCan(r, a)
    ensures CounterReached(c, steps + [a], CounterDo(r, a))
    decreases |steps|
  {
    if steps == [] {
      assert ([] + [a])[1..] == [];
    } else {
      CounterSnoc(CounterDo(c, steps[0]), steps[1..], r, a);
      assert (steps + [a])[1..] == steps[1..] + [a];
    }
  }

  lemma {:induction false} WakesSnoc(steps: seq<CounterStep>, a: CounterStep)
    ensures Wakes(steps + [a]) == Wakes(steps) + if a.FutexWake? then 1 else 0
  {
    if steps == [] {
      assert ([] + [a])[1..] == [];
    } else {
      WakesSnoc(steps[1..], a);
      assert (steps + [a])[1..] == steps[1..] + [a];
    }
  }

  class AtomicFutex {
    const modulus: nat
    var futexVal: nat
    // The kernel's queue, the threads inside wait, the wakes under way and how many have begun.
    var parked: Parked
    var pc: seq<WaitPc>
    var owing: nat
    var count: nat

    function Model(): (c: Counter)
      reads this
    {
      Counter(modulus, count, parked, pc, owing)
    }

    ghost predicate Valid()
      reads this
    {
      CounterInv(Model()) && futexVal == Stored(Model())
    }

    constructor (modulus: nat, threads: nat)
      requires modulus > 1
      ensures Valid() && Model() == CounterInit(modulus, threads)
    {
      this.modulus := modulus;
      futexVal, parked, pc, owing, count := 0, {}, seq(threads, _ => NotIn), 0, 0;
    }

    /** The increment of the word, wrapping at its size. */
    method FetchAdd()
      requires Valid()
      modifies this
      ensures Valid() && Model() == CounterDo(old(Model()), Increment)
    {
      WrapAdd(count, 1, modulus);
      futexVal := Wrap(futexVal + 1, modulus);
      count, owing := count + 1, owing + 1;
    }

    /** One access to the word or one kernel call, of any thread. */
    method Act(a: CounterStep)
      requires Valid() && CounterCan(Model(), a)
      modifies this
      ensures Valid() && Model() == CounterDo(old(Model()), a)
    {
      ghost var c := Model();
      match a {
        case Snapshot(w) => pc := pc[w := InCall(futexVal, count)];
        case FutexWait(w) =>
          if futexVal == pc[w].expected {
            parked := parked + {w};
          } else {
            pc := pc[w := Reloading(pc[w].expected, pc[w].at)];
          }
        case Interrupt(w) =>
          parked, pc := parked - {w}, pc[w := Reloading(pc[w].expected, pc[w].at)];
        case Reload(w) =>
          pc := pc[w := if futexVal != pc[w].expected then NotIn else InCall(pc[w].expected, pc[w].at)];
        case Increment => FetchAdd();
        case FutexWake(w) =>
          pc := if w in parked && w < |pc| && pc[w].InCall? then pc[w := Reloading(pc[w].expected, pc[w].at)] else pc;
          parked, owing := parked - {w}, owing - 1;
      }
      CounterStepInv(c, a);
    }

    /** What the kernel and the other threads do between two steps of thread w. */
    method Others(w: nat, burst: seq<CounterStep>)
      requires Valid() && w < |pc| && !pc[w].NotIn?
      modifies this
      ensures Valid() && |pc| == |old(pc)| && count >= old(count)
      ensures !pc[w].NotIn? && pc[w].at == old(pc[w].at) && pc[w].expected == old(pc[w].expected)
      ensures Increment in burst ==> count > old(count)
      ensures w !in old(parked) ==> pc[w] == old(pc[w]) && w !in parked
    {
      for i := 0 to |burst|
        invariant Valid() && |pc| == |old(pc)| && count >= old(count)
        invariant !pc[w].NotIn? && pc[w].at == old(pc[w].at) && pc[w].expected == old(pc[w].expected)
        invariant Increment in burst[..i] ==> count > old(count)
        invariant w !in old(parked) ==> pc[w] == old(pc[w]) && w !in parked
      {
        if CounterCan(Model(), burst[i]) && !OwnStep(burst[i], w) { Act(burst[i]); }
      }
    }

    /** wait: snapshot, then sleep and re-load until the word differs from the snapshot.  Whatever the
        others and the kernel do, a call that returns was preceded by an increment after its snapshot.  An
        increment before its first futex call makes it return at its next re-load, unless the word comes
        round to the snapshot. */
    method Wait(w: nat, env: nat -> seq<CounterStep>, patience: nat) returns (done: bool, snapshot: nat)
      requires Valid() && w < |pc| && pc[w].NotIn?
      modifies this
      ensures Valid() && |pc| == |old(pc)|
      ensures snapshot == old(count) && (done <==> pc[w].NotIn?)
      ensures done ==> count > snapshot
      ensures !done ==> pc[w].at == snapshot
      ensures Increment in env(0) && patience >= 1 && count < snapshot + modulus ==> done
    {
      snapshot := count;
      Act(Snapshot(w));
      var n := 0;
      while !pc[w].NotIn? && n <= patience
        invariant Valid() && |pc| == |old(pc)|
        invariant if pc[w].NotIn? then count > snapshot else pc[w].at == snapshot
        invariant n == 0 ==> count == snapshot && pc[w].InCall?
        invariant w in parked ==> !pc[w].NotIn?
        invariant n == 0 ==> w !in parked
        invariant n > 0 && Increment in env(0) ==> count > snapshot
        invariant n > 0 && Increment in env(0) && count < snapshot + modulus ==>
                    w !in parked && (n == 1 ==> pc[w].Reloading?) && (n > 1 ==> pc[w].NotIn?)
      {
        Others(w, env(n));
        if count < snapshot + modulus { WrapClose(snapshot, count, modulus); }
        if pc[w].Reloading? {
          Act(Reload(w));
        } else if w !in parked {
          Act(FutexWait(w));
        }
        n := n + 1;
      }
      done := pc[w].NotIn?;
    }

    /** What the kernel and other threads do while one wake call is under way. */
    method Meanwhile(burst: seq<CounterStep>) returns (ghost done: seq<CounterStep>)
      requires Valid() && owing > 0
      modifies this
      ensures Valid() && owing > 0 && CounterReached(old(Model()), done, Model())
    {
      done := [];
      for i := 0 to |burst|
        invariant Valid() && owing > 0 && CounterReached(old(Model()), done, Model())
      {
        if CounterCan(Model(), burst[i]) && (burst[i].FutexWake? ==> owing > 1) {
          CounterSnoc(old(Model()), done, Model(), burst[i]);
          Act(burst[i]);
          done := done + [burst[i]];
        }
      }
    }

    /** wake: increment, then, after anything the others do in between, one kernel call, which takes one
        thread out of the kernel's queue if there is any: an arbitrary one.  Of the threads that were
        waiting before the call it has released one, unless newcomers took the wakes. */
    method Wake(burst: seq<CounterStep>) returns (choice: nat, ghost trace: seq<CounterStep>)
      requires Valid()
      modifies this
      ensures Valid() && trace != [] && trace[|trace| - 1] == FutexWake(choice) && Wakes(trace) >= 1
      ensures CounterReached(CounterDo(old(Model()), Increment), trace, Model())
      ensures
        var start, mark := CounterDo(old(Model()), Increment), old(count) + 1;
        && CounterLegal(start, trace)
        && (NoWrap(old(Model()), count) ==>
              |EarlyParked(Model(), mark)| <= Minus(|Waiting(old(Model()))|, Wakes(trace) - Taken(start, trace, mark)))
    {
      ghost var c := Model();
      Act(Increment);
      ghost var start := Model();
      ghost var done := Meanwhile(burst);
      choice := 0;
      if parked != {} { choice :| choice in parked; }
      CounterSnoc(start, done, Model(), FutexWake(choice));
      trace := done + [FutexWake(choice)];
      Act(FutexWake(choice));
      WakesSnoc(done, FutexWake(choice));
      if NoWrap(c, count) { WakesReleaseWaiters(c, trace); }
    }
  }
}
