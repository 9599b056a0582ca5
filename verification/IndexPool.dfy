/** The index pool: a ring of indices.  That no index has two holders follows from the ring and
    from conservation. */
module IndexPool {
  import R = Ring
  import RS = RingSafety
  import RP = RingProgress
  import opened Bits
  import opened RingBuffer
  import RingReset

  /** The ring and who holds what, as (index, thread) pairs. */
  datatype Pool = Pool(ring: R.State, held: set<(nat, R.ThreadId)>)

  datatype Action =
    | Get(getter: R.ThreadId)
    | GiveBack(giver: R.ThreadId, index: nat)
    | Write(wt: nat)
    | Read(rt: nat)

  /** Clients give back only what they hold. */
  predicate CanDo(p: Pool, a: Action) {
    match a
    case Get(th) => R.Enabled(p.ring, R.ClaimRead(th))
    case GiveBack(th, i) => (i, th) in p.held && R.Enabled(p.ring, R.ClaimWrite(th, [i]))
    case Write(t) => R.Enabled(p.ring, R.AdvanceWrite(t))
    case Read(t) => R.Enabled(p.ring, R.AdvanceRead(t))
  }

  ghost predicate Shape(p: Pool) {
    R.Inv(p.ring) && p.ring.words == 1
  }

  /** A dequeue that returns hands its index to its owner. */
  function Do(p: Pool, a: Action): (r: Pool)
    requires Shape(p) && CanDo(p, a)
  {
    match a
    case Get(th) => p.(ring := R.Apply(p.ring, R.ClaimRead(th)))
    case GiveBack(th, i) =>
      Pool(R.Apply(p.ring, R.ClaimWrite(th, [i])), p.held - {(i, th)})
    case Write(t) => p.(ring := R.Apply(p.ring, R.AdvanceWrite(t)))
    case Read(t) =>
      var ring := R.Apply(p.ring, R.AdvanceRead(t));
      var op := ring.rd[t];
      if op.phase.Returned? && |op.phase.value| == 1 && op.phase.value[0] >= 0 then
        Pool(ring, p.held + {(op.phase.value[0], op.owner)})
      else p.(ring := ring)
  }

  /** Ticket t carries index i and its dequeue has not returned. */
  predicate Carries(s: R.State, t: nat, i: nat) {
    t < |s.wr| && s.wr[t].value == [i] && !R.IsReleased(s, t)
  }

  ghost predicate InTransit(s: R.State, i: nat) {
    exists t: nat :: Carries(s, t, i)
  }

  ghost predicate IsHeld(p: Pool, i: nat) {
    exists th: R.ThreadId :: (i, th) in p.held
  }

  ghost predicate IndexValues(s: R.State) {
    forall t | 0 <= t < |s.wr| :: |s.wr[t].value| == 1 && 0 <= s.wr[t].value[0] < s.size
  }

  /** Held, queued and moving indices partition {0 .. size - 1}, each with one holder or carrier. */
  ghost predicate Partition(p: Pool) {
    && IndexValues(p.ring)
    && (forall i: nat | i < p.ring.size :: IsHeld(p, i) || InTransit(p.ring, i))
    && (forall i: nat :: IsHeld(p, i) ==> i < p.ring.size && !InTransit(p.ring, i))
    && (forall i: nat, a, b | (i, a) in p.held && (i, b) in p.held :: a == b)
    && (forall i: nat, t: nat, u: nat | Carries(p.ring, t, i) && Carries(p.ring, u, i) :: t == u)
  }

  ghost predicate Good(p: Pool) {
    Shape(p) && Partition(p)
  }

  lemma DoKeepsShape(p: Pool, a: Action)
    requires Shape(p) && CanDo(p, a)
    ensures Shape(Do(p, a)) && Do(p, a).ring.size == p.ring.size
  {
    match a
    case Get(th) => R.StepKeepsInv(p.ring, R.ClaimRead(th));
    case GiveBack(th, i) => R.StepKeepsInv(p.ring, R.ClaimWrite(th, [i]));
    case Write(t) => R.StepKeepsInv(p.ring, R.AdvanceWrite(t));
    case Read(t) => R.StepKeepsInv(p.ring, R.AdvanceRead(t));
  }

  /** A step that returns no index moves none. */
  lemma QuietPartition(p: Pool, q: Pool)
    requires Good(p) && Shape(q) && q.held == p.held && q.ring.size == p.ring.size && IndexValues(q.ring)
    requires forall i: nat, t: nat :: Carries(q.ring, t, i) <==> Carries(p.ring, t, i)
    ensures Partition(q)
  {
    forall i: nat ensures InTransit(q.ring, i) <==> InTransit(p.ring, i) { }
    forall i: nat ensures IsHeld(q, i) <==> IsHeld(p, i) { }
  }

  lemma GiveBackKeepsPartition(p: Pool, th: R.ThreadId, i: nat)
    requires Good(p) && CanDo(p, GiveBack(th, i))
    ensures Partition(Do(p, GiveBack(th, i)))
  {
    var q := Do(p, GiveBack(th, i));
    var u := |p.ring.wr|;
    if u < |p.ring.rd| { assert R.ReadMeaning(p.ring, u); }
    assert IsHeld(p, i) && Carries(q.ring, u, i);
    assert forall j: nat, t: nat :: Carries(q.ring, t, j) <==> Carries(p.ring, t, j) || (t == u && j == i);
    forall j: nat ensures InTransit(q.ring, j) <==> InTransit(p.ring, j) || j == i { }
    forall j: nat ensures IsHeld(q, j) <==> IsHeld(p, j) && j != i {
      if x :| (j, x) in p.held && j != i { assert (j, x) in q.held; }
    }
  }

  lemma ReturnKeepsPartition(p: Pool, t: nat)
    requires Good(p) && CanDo(p, Read(t)) && Do(p, Read(t)).ring.rd[t].phase.Returned?
    ensures Partition(Do(p, Read(t)))
  {
    var q := Do(p, Read(t));
    assert R.ReadMeaning(p.ring, t);
    DoKeepsShape(p, Read(t));
    assert R.ReadMeaning(q.ring, t);
    var i: nat := p.ring.wr[t].value[0];
    assert Carries(p.ring, t, i) && InTransit(p.ring, i);
    assert q.held == p.held + {(i, p.ring.rd[t].owner)};
    assert forall j: nat, u: nat :: Carries(q.ring, u, j) <==> Carries(p.ring, u, j) && u != t;
    forall j: nat ensures InTransit(q.ring, j) <==> InTransit(p.ring, j) && j != i { }
    forall j: nat ensures IsHeld(q, j) <==> IsHeld(p, j) || j == i {
      if x :| (j, x) in p.held { assert (j, x) in q.held; }
      assert (i, p.ring.rd[t].owner) in q.held;
    }
  }

  lemma DoKeepsGood(p: Pool, a: Action)
    requires Good(p) && CanDo(p, a)
    ensures Good(Do(p, a))
  {
    DoKeepsShape(p, a);
    match a
    case GiveBack(th, i) => GiveBackKeepsPartition(p, th, i);
    case Read(t) =>
      if Do(p, a).ring.rd[t].phase.Returned? { ReturnKeepsPartition(p, t); } else { QuietPartition(p, Do(p, a)); }
    case Get(_) => QuietPartition(p, Do(p, a));
    case Write(_) => QuietPartition(p, Do(p, a));
  }

  /* ------------------------------- Runs ------------------------------- */

  /** The filled ring that the constructor leaves: tickets 0 .. size - 1 carry their own number. */
  ghost predicate Filled(s: R.State) {
    && R.Inv(s) && s.words == 1
    && |s.wr| == s.size && s.rd == []
    && forall t | 0 <= t < |s.wr| :: s.wr[t].value == [t] && s.wr[t].phase.Published?
  }

  lemma FilledIsGood(s: R.State)
    requires Filled(s)
    ensures Good(Pool(s, {}))
  {
    forall i: nat | i < s.size ensures InTransit(s, i) { assert Carries(s, i, i); }
  }

  /** The pool as constructed or re-initialized. */
  ghost function Start(s: R.State): (p: Pool)
    requires Filled(s)
    ensures Good(p)
  {
    FilledIsGood(s);
    Pool(s, {})
  }

  ghost predicate LegalRun(p: Pool, actions: seq<Action>)
    requires Shape(p)
    decreases |actions|
  {
    actions == [] || (CanDo(p, actions[0]) && (DoKeepsShape(p, actions[0]); LegalRun(Do(p, actions[0]), actions[1..])))
  }

  ghost function After(p: Pool, actions: seq<Action>): (r: Pool)
    requires Shape(p) && LegalRun(p, actions)
    ensures Shape(r) && r.ring.size == p.ring.size
    decreases |actions|
  {
    if actions == [] then p else DoKeepsShape(p, actions[0]); After(Do(p, actions[0]), actions[1..])
  }

  lemma {:induction false} RunKeepsGood(p: Pool, actions: seq<Action>)
    requires Good(p) && LegalRun(p, actions)
    ensures Good(After(p, actions))
    decreases |actions|
  {
    if actions == [] {
    } else {
      DoKeepsGood(p, actions[0]);
      RunKeepsGood(Do(p, actions[0]), actions[1..]);
    }
  }

  lemma {:induction false} RunSnoc(p: Pool, actions: seq<Action>, a: Action)
    requires Shape(p) && LegalRun(p, actions) && CanDo(After(p, actions), a)
    ensures LegalRun(p, actions + [a]) && After(p, actions + [a]) == Do(After(p, actions), a)
    decreases |actions|
  {
    if actions == [] {
      assert ([] + [a])[1..] == [];
    } else {
      DoKeepsShape(p, actions[0]);
      assert (actions + [a])[1..] == actions[1..] + [a];
      RunSnoc(Do(p, actions[0]), actions[1..], a);
    }
  }

  /* ------------------------- Nobody gets stuck ------------------------- */

  ghost function Indices(s: R.State, a: nat, b: nat): (r: set<nat>)
    requires a <= b <= |s.wr| && IndexValues(s)
  {
    set t: nat | a <= t < b :: s.wr[t].value[0]
  }

  lemma {:induction false} IndicesDistinct(p: Pool, a: nat, b: nat)
    requires Good(p) && |p.ring.rd| <= a <= b <= |p.ring.wr|
    ensures |Indices(p.ring, a, b)| == b - a
    decreases b
  {
    if a == b {
    } else {
      IndicesDistinct(p, a, b - 1);
      var i: nat := p.ring.wr[b - 1].value[0];
      forall t: nat | a <= t < b - 1 ensures p.ring.wr[t].value[0] != i {
        if p.ring.wr[t].value[0] == i {
          assert Carries(p.ring, t, i) && Carries(p.ring, b - 1, i);
          assert false;
        }
      }
      assert Indices(p.ring, a, b) == Indices(p.ring, a, b - 1) + {i};
    }
  }

  /** The unclaimed backlog never exceeds the number of indices. */
  lemma BacklogFits(p: Pool)
    requires Good(p)
    ensures |p.ring.wr| <= |p.ring.rd| + p.ring.size
  {
    if |p.ring.rd| <= |p.ring.wr| {
      IndicesDistinct(p, |p.ring.rd|, |p.ring.wr|);
      SubsetSize(Indices(p.ring, |p.ring.rd|, |p.ring.wr|), RS.Upto(p.ring.size));
    }
  }

  /** Index pool safety and progress, for every run from the filled pool and clients that give back
      only what they hold: no index has two holders, held and travelling indices partition
      {0 .. size - 1}; when nothing in flight can step any more, no returnIndex is blocked, and if a
      getIndex is blocked then every index is held. */
  lemma PoolIsExclusive(s: R.State, actions: seq<Action>)
    requires Filled(s) && LegalRun(Start(s), actions)
    ensures
      var p := After(Start(s), actions);
      && (forall i: nat, a, b | (i, a) in p.held && (i, b) in p.held :: a == b)
      && (forall i: nat | i < p.ring.size :: IsHeld(p, i) <==> !InTransit(p.ring, i))
      && |p.ring.wr| <= |p.ring.rd| + p.ring.size
      && (RP.Stuck(p.ring) ==>
            && (forall t: nat | t < |p.ring.wr| :: p.ring.wr[t].phase.Published?)
            && (forall t: nat | t < |p.ring.rd| && !p.ring.rd[t].phase.Returned? ::
                  forall i: nat | i < p.ring.size :: IsHeld(p, i)))
  {
    var p := After(Start(s), actions);
    RunKeepsGood(Start(s), actions);
    BacklogFits(p);
    if RP.Stuck(p.ring) {
      RP.StuckIff(p.ring);
      if t: nat :| t < |p.ring.rd| && !p.ring.rd[t].phase.Returned? {
        forall i: nat | i < p.ring.size ensures !InTransit(p.ring, i) {
          if u: nat :| Carries(p.ring, u, i) { assert false; }
        }
      }
    }
  }

  /* ------------------------ Steps of the ring as actions ------------------------ */

  function ActionOf(a: R.Step): (r: Action) {
    match a
    case ClaimRead(th) => Get(th)
    case ClaimWrite(th, v) => GiveBack(th, if v != [] && v[0] >= 0 then v[0] else 0)
    case AdvanceWrite(t) => Write(t)
    case AdvanceRead(t) => Read(t)
  }

  predicate IsAction(p: Pool, a: R.Step) {
    CanDo(p, ActionOf(a)) && (a.ClaimWrite? ==> a.value == [ActionOf(a).index])
  }

  /** In these steps of the ring, clients give back only what they hold. */
  ghost predicate Behaved(p: Pool, trace: seq<R.Step>)
    requires Shape(p)
    decreases |trace|
  {
    trace == [] ||
    (IsAction(p, trace[0]) && (DoKeepsShape(p, ActionOf(trace[0])); Behaved(Do(p, ActionOf(trace[0])), trace[1..])))
  }

  ghost function Lift(p: Pool, trace: seq<R.Step>): (r: Pool)
    requires Shape(p) && Behaved(p, trace)
    ensures Shape(r)
    decreases |trace|
  {
    if trace == [] then p
    else DoKeepsShape(p, ActionOf(trace[0])); Lift(Do(p, ActionOf(trace[0])), trace[1..])
  }

  lemma {:induction false} LiftFollowsRing(p: Pool, trace: seq<R.Step>)
    requires Good(p) && Behaved(p, trace)
    ensures R.Legal(p.ring, trace) && Lift(p, trace).ring == R.Run(p.ring, trace) && Good(Lift(p, trace))
    decreases |trace|
  {
    if trace == [] {
    } else {
      DoKeepsGood(p, ActionOf(trace[0]));
      LiftFollowsRing(Do(p, ActionOf(trace[0])), trace[1..]);
    }
  }

  lemma {:induction false} LiftSnoc(p: Pool, trace: seq<R.Step>, a: R.Step)
    requires Shape(p) && Behaved(p, trace + [a])
    ensures Behaved(p, trace) && IsAction(Lift(p, trace), a)
    ensures Lift(p, trace + [a]) == Do(Lift(p, trace), ActionOf(a))
    decreases |trace|
  {
    if trace == [] {
      assert ([] + [a])[1..] == [];
    } else {
      DoKeepsShape(p, ActionOf(trace[0]));
      assert (trace + [a])[1..] == trace[1..] + [a];
      LiftSnoc(Do(p, ActionOf(trace[0])), trace[1..], a);
    }
  }

  /** If clients behave, the index that a returning dequeue hands out had no holder, and now has this one. */
  ghost predicate HandedOut(p: Pool, trace: seq<R.Step>, out: int, self: R.ThreadId)
    requires Shape(p)
  {
    Behaved(p, trace) && out >= 0 && trace != [] && Behaved(p, trace[..|trace| - 1])
    && !IsHeld(Lift(p, trace[..|trace| - 1]), out)
    && (forall th :: (out, th) in Lift(p, trace).held <==> th == self)
  }

  lemma ReturnHandsOut(p: Pool, trace: seq<R.Step>, t: nat, out: int, self: R.ThreadId)
    requires Good(p) && Behaved(p, trace) && trace != [] && trace[|trace| - 1] == R.AdvanceRead(t)
    requires t < |Lift(p, trace).ring.rd| && Lift(p, trace).ring.rd[t] == R.ReadOp(self, R.Returned([out]))
    ensures HandedOut(p, trace, out, self)
  {
    var n := |trace| - 1;
    assert trace == trace[..n] + [R.AdvanceRead(t)];
    LiftSnoc(p, trace[..n], R.AdvanceRead(t));
    LiftFollowsRing(p, trace[..n]);
    LiftFollowsRing(p, trace);
    LastReadHandsOut(Lift(p, trace[..n]), t, out, self);
  }

  lemma LastReadHandsOut(p: Pool, t: nat, out: int, self: R.ThreadId)
    requires Good(p) && CanDo(p, Read(t)) && Good(Do(p, Read(t)))
    requires Do(p, Read(t)).ring.rd[t] == R.ReadOp(self, R.Returned([out]))
    ensures out >= 0 && !IsHeld(p, out)
    ensures forall th :: (out, th) in Do(p, Read(t)).held <==> th == self
  {
    var q := Do(p, Read(t));
    assert R.ReadMeaning(q.ring, t);
    assert q.ring.wr[t].value == p.ring.wr[t].value == [out];
    assert Carries(p.ring, t, out) && InTransit(p.ring, out);
    assert q.held == p.held + {(out, self)};
    assert !IsHeld(p, out);
  }

  lemma GivenBackIsFree(p: Pool, th: R.ThreadId, i: nat)
    requires Good(p) && CanDo(p, GiveBack(th, i))
    ensures !IsHeld(Do(p, GiveBack(th, i)), i)
  {
    var q := Do(p, GiveBack(th, i));
    GiveBackKeepsPartition(p, th, i);
    assert Carries(q.ring, |p.ring.wr|, i) by {
      DoKeepsShape(p, GiveBack(th, i));
      if |p.ring.wr| < |p.ring.rd| { assert R.ReadMeaning(p.ring, |p.ring.wr|); }
    }
    assert InTransit(q.ring, i);
  }

  /* ----------------------- Re-filling a pool in use ----------------------- */

  ghost predicate UniqueHolders(p: Pool) {
    forall i: nat, a, b | (i, a) in p.held && (i, b) in p.held :: a == b
  }

  /** In every run no index has two holders. */
  ghost predicate AlwaysUnique(p: Pool)
    requires Shape(p)
  {
    forall actions: seq<Action> | LegalRun(p, actions) :: UniqueHolders(After(p, actions))
  }

  /** Every dequeue that has returned gave its index to its owner, who still has it. */
  ghost predicate NothingGivenBack(p: Pool) {
    && IndexValues(p.ring)
    && (forall t: nat | R.IsReleased(p.ring, t) ::
          t < |p.ring.wr| && (p.ring.wr[t].value[0], p.ring.rd[t].owner) in p.held)
  }

  lemma DoKeepsHolding(p: Pool, a: Action)
    requires Shape(p) && CanDo(p, a) && !a.GiveBack? && NothingGivenBack(p)
    ensures NothingGivenBack(Do(p, a)) && p.held <= Do(p, a).held
  {
    if a.Read? {
      DoKeepsShape(p, a);
      var q := Do(p, a);
      assert R.ReadMeaning(q.ring, a.rt);
    }
  }

  /** The first n indices are asked for by threads th + 1, ..., th + n. */
  lemma {:induction false} Ask(p: Pool, th: R.ThreadId, n: nat) returns (actions: seq<Action>)
    requires Shape(p) && p.ring.rd == [] && NothingGivenBack(p)
    requires forall t | 0 <= t < |p.ring.wr| :: p.ring.wr[t].phase.Published?
    ensures LegalRun(p, actions)
    ensures
      var q := After(p, actions);
      && q.held == p.held && q.ring.wr == p.ring.wr && NothingGivenBack(q) && |q.ring.rd| == n
      && forall t | 0 <= t < n :: q.ring.rd[t] == R.ReadOp(th + 1 + t, R.Awaiting)
  {
    if n == 0 {
      actions := [];
    } else {
      var rest := Ask(p, th, n - 1);
      var q := After(p, rest);
      assert CanDo(q, Get(th + n));
      RunSnoc(p, rest, Get(th + n));
      DoKeepsHolding(q, Get(th + n));
      actions := rest + [Get(th + n)];
    }
  }

  /** Steps of the ring that claim nothing are actions of the pool that give nothing back. */
  lemma {:induction false} Follow(p: Pool, steps: seq<R.Step>) returns (actions: seq<Action>)
    requires Shape(p) && NothingGivenBack(p) && R.Legal(p.ring, steps) && RP.ClaimFree(steps)
    ensures LegalRun(p, actions) && After(p, actions).ring == R.Run(p.ring, steps)
    ensures p.held <= After(p, actions).held && NothingGivenBack(After(p, actions))
    decreases |steps|
  {
    if steps == [] {
      actions := [];
    } else {
      var a := if steps[0].AdvanceWrite? then Write(steps[0].wt) else Read(steps[0].rt);
      DoKeepsShape(p, a);
      DoKeepsHolding(p, a);
      var rest := Follow(Do(p, a), steps[1..]);
      actions := [a] + rest;
      assert actions[1..] == rest;
    }
  }

  lemma {:induction false} RunAppend(p: Pool, xs: seq<Action>, ys: seq<Action>)
    requires Shape(p) && LegalRun(p, xs) && LegalRun(After(p, xs), ys)
    ensures LegalRun(p, xs + ys) && After(p, xs + ys) == After(After(p, xs), ys)
    decreases |xs|
  {
    if xs == [] {
      assert xs + ys == ys;
    } else {
      DoKeepsShape(p, xs[0]);
      assert (xs + ys)[1..] == xs[1..] + ys;
      RunAppend(Do(p, xs[0]), xs[1..], ys);
    }
  }

  /** Without anything given back, a dequeue whose value has been submitted gets to return to its owner. */
  lemma Finish(p: Pool, t: nat) returns (actions: seq<Action>)
    requires Shape(p) && NothingGivenBack(p) && t < |p.ring.wr| && t < |p.ring.rd|
    ensures LegalRun(p, actions) && p.held <= After(p, actions).held
    ensures (p.ring.wr[t].value[0], p.ring.rd[t].owner) in After(p, actions).held
  {
    var steps := RP.Drain(p.ring);
    RP.ClaimFreeRunRank(p.ring, steps);
    RunGrows(p.ring, steps);
    actions := Follow(p, steps);
    var ring := After(p, actions).ring;
    RP.StuckIff(ring);
    assert R.IsReleased(ring, t);
  }

  /** An index that is still held when the pool is re-filled gets a second holder in some run. */
  lemma SecondHolder(s: R.State, held: set<(nat, R.ThreadId)>, i: nat, th: R.ThreadId) returns (actions: seq<Action>)
    requires Filled(s) && (i, th) in held && i < s.size
    ensures Shape(Pool(s, held)) && LegalRun(Pool(s, held), actions)
    ensures
      var q := After(Pool(s, held), actions);
      (i, th) in q.held && (i, th + 1 + i) in q.held
  {
    var p := Pool(s, held);
    var asks := Ask(p, th, i + 1);
    var more := Finish(After(p, asks), i);
    RunAppend(p, asks, more);
    actions := asks + more;
  }

  /** Clients hold existing indices, each of them once. */
  ghost predicate ProperlyHeld(held: set<(nat, R.ThreadId)>, size: nat) {
    && (forall h | h in held :: h.0 < size)
    && (forall g, h | g in held && h in held && g.0 == h.0 :: g == h)
  }

  /** Re-filling the ring while clients hold indices: no index ever has two holders, in any run, if and only
      if clients hold none. */
  lemma RefillIsExclusiveIff(s: R.State, held: set<(nat, R.ThreadId)>)
    requires Filled(s) && ProperlyHeld(held, s.size)
    ensures AlwaysUnique(Pool(s, held)) <==> held == {}
  {
    var p := Pool(s, held);
    if held == {} {
      forall actions: seq<Action> | LegalRun(p, actions) ensures UniqueHolders(After(p, actions)) {
        PoolIsExclusive(s, actions);
      }
    } else {
      var h :| h in held;
      var actions := SecondHolder(s, held, h.0, h.1);
    }
  }

  /* ------------------------------ The object ------------------------------ */

  /** The fill so far: tickets 0 .. n - 1 published with their own number, none claimed by a reader. */
  ghost predicate FilledTo(s: R.State, n: nat) {
    && |s.wr| == n && s.rd == []
    && forall t | 0 <= t < n :: s.wr[t].value == [t] && s.wr[t].phase.Published?
  }

  class ThreadSafeIndexPool {
    const ring: AtomicRingBuffer

    ghost predicate Valid()
      reads this, ring, ring.seqs, ring.data
    {
      ring.Valid() && ring.words == 1
    }

    constructor (size: nat)
      requires SizeTest(size) && size >= 2
      ensures Valid() && fresh(ring) && fresh(ring.seqs) && fresh(ring.data)
      ensures ring.size == size && Filled(ring.Model())
    {
      ring := new AtomicRingBuffer(size, 1, 50, [0]);
      new;
      InitializeIndexes();
    }

    /** The fill loop never blocks: every slot is free. */
    method InitializeIndexes()
      requires Valid() && ring.wr == [] && ring.rd == []
      modifies ring, ring.seqs, ring.data
      ensures Valid() && Filled(ring.Model())
    {
      for i := 0 to ring.size
        invariant Valid() && FilledTo(ring.Model(), i)
      {
        RoomMeansGuard(ring.Model());
        var done, ticket, _ := ring.Enqueue(0, [i], _ => [], 0);
      }
    }

    /** getIndex: a call that returns has the index submitted under its own ticket, and a call whose index
        is in the ring when it starts returns, whatever the others do.  If clients hold `held` and, during the
        call, give back only what they hold, then the index had no holder and has the caller now. */
    method GetIndex(self: R.ThreadId, env: nat -> seq<R.Step>, patience: nat, ghost held: set<(nat, R.ThreadId)>)
      returns (done: bool, out: int, ticket: nat, ghost trace: seq<R.Step>)
      requires Valid() && R.Enabled(ring.Model(), R.ClaimRead(self))
      modifies ring, ring.seqs, ring.data
      ensures Valid() && Reached(old(ring.Model()), trace, ring.Model())
      ensures ticket == |old(ring.rd)| < |ring.rd|
      ensures done ==> ticket < |ring.wr| && ring.wr[ticket].value == [out]
                       && ring.rd[ticket] == R.ReadOp(self, R.Returned([out]))
      ensures done && ticket < |old(ring.wr)| ==> old(ring.wr)[ticket].value == [out]
      ensures R.IsPublished(old(ring.Model()), ticket) ==> done
      ensures
        var p := Pool(old(ring.Model()), held);
        done && Good(p) && Behaved(p, trace) ==> HandedOut(p, trace, out, self)
    {
      ghost var s := ring.Model();
      var value;
      done, ticket, value, trace := ring.Dequeue(self, env, patience);
      out := 0;
      if done {
        assert R.WriteOpShape(ring.wr[ticket], 1);
        out := value[0];
        RunGrows(s, trace);
        assert value == [out];
        if Good(Pool(s, held)) && Behaved(Pool(s, held), trace) {
          LiftFollowsRing(Pool(s, held), trace);
          ReturnHandsOut(Pool(s, held), trace, ticket, out, self);
        }
      }
    }

    /** returnIndex: the index is submitted under the next write ticket, and the call returns, whatever
        the others do, if its slot is free when it starts.  A caller who holds the index stops holding it
        with its first access, and if clients behave during the call, the indices stay exclusive. */
    method ReturnIndex(self: R.ThreadId, index: int, env: nat -> seq<R.Step>, patience: nat,
                       ghost held: set<(nat, R.ThreadId)>)
      returns (done: bool, ticket: nat, ghost trace: seq<R.Step>)
      requires Valid() && R.Enabled(ring.Model(), R.ClaimWrite(self, [index]))
      modifies ring, ring.seqs, ring.data
      ensures Valid() && Reached(old(ring.Model()), trace, ring.Model())
      ensures ticket == |old(ring.wr)| < |ring.wr|
      ensures ring.wr[ticket] == R.WriteOp(self, [index], if done then R.Published else R.Waiting)
      ensures SlotFreed(old(ring.Model()), ticket) ==> done
      ensures trace != [] && trace[0] == R.ClaimWrite(self, [index])
      ensures
        var p := Pool(old(ring.Model()), held);
        Good(p) && index >= 0 && (index, self) in held ==>
          && CanDo(p, GiveBack(self, index)) && !IsHeld(Do(p, GiveBack(self, index)), index)
          && (Behaved(p, trace) ==> Lift(p, trace).ring == ring.Model() && Good(Lift(p, trace)))
    {
      ghost var p := Pool(ring.Model(), held);
      if Good(p) && index >= 0 && (index, self) in held { GivenBackIsFree(p, self, index); }
      done, ticket, trace := ring.Enqueue(self, [index], env, patience);
      if Good(p) && Behaved(p, trace) { LiftFollowsRing(p, trace); }
    }

    /** reInitializePool, with nothing in flight, restores exactly the constructed pool: each index
        once, in order, whatever was queued before.  From then on no index ever has two holders, in any run,
        exactly if no client holds an index over the call. */
    method ReInitializePool(ghost held: set<(nat, R.ThreadId)>)
      requires Valid() && RingReset.Quiescent(ring.Model())
      modifies ring, ring.seqs, ring.data
      ensures Valid() && Filled(ring.Model())
      ensures ProperlyHeld(held, ring.size) ==> (AlwaysUnique(Pool(ring.Model(), held)) <==> held == {})
    {
      ring.ClearBuffer();
      InitializeIndexes();
      if ProperlyHeld(held, ring.size) { RefillIsExclusiveIff(ring.Model(), held); }
    }
  }
}
