/** The bound under which wrap-around is harmless is exact: with one more operation in flight there is a run
    in which a wrapped ticket passes a guard that belongs to another. */
module RingWrapExact {
  import opened Bits
  import opened Ring
  import opened RingSafety
  import opened RingWrap

  /* ------------------------- Runs with limits ------------------------- */

  ghost predicate Limited(s: State, p: nat, c: nat) {
    PendingWrites(s.wr) <= p && PendingReads(s.rd) <= c
  }

  /** A run in which at most p enqueues and c dequeues are in flight at any moment. */
  ghost predicate LimitedRun(s: State, steps: seq<Step>, p: nat, c: nat, r: State)
    requires Shape(s)
    decreases |steps|
  {
    && Limited(s, p, c)
    && if steps == [] then r == s else Enabled(s, steps[0]) && LimitedRun(Apply(s, steps[0]), steps[1..], p, c, r)
  }

  /** State s is reached within these limits. */
  ghost predicate Within(words: nat, stale: seq<Payload>, p: nat, c: nat, s: State) {
    GoodStart(words, stale) && exists steps: seq<Step> :: LimitedRun(Init(words, stale), steps, p, c, s)
  }

  lemma {:induction false} LimitedEnd(s: State, steps: seq<Step>, p: nat, c: nat, r: State)
    requires Inv(s) && LimitedRun(s, steps, p, c, r)
    ensures Inv(r) && Limited(r, p, c) && r.size == s.size && r.words == s.words
    decreases |steps|
  {
    if steps == [] {
    } else {
      StepKeepsInv(s, steps[0]);
      LimitedEnd(Apply(s, steps[0]), steps[1..], p, c, r);
    }
  }

  lemma WithinFacts(words: nat, stale: seq<Payload>, p: nat, c: nat, s: State)
    requires Within(words, stale, p, c, s)
    ensures Inv(s) && Limited(s, p, c) && s.size == |stale| && s.words == words
  {
    var steps: seq<Step> :| LimitedRun(Init(words, stale), steps, p, c, s);
    InitInv(words, stale);
    LimitedEnd(Init(words, stale), steps, p, c, s);
  }

  lemma {:induction false} LimitedSnoc(s: State, steps: seq<Step>, p: nat, c: nat, r: State, a: Step)
    requires Shape(s) && LimitedRun(s, steps, p, c, r) && Shape(r) && Enabled(r, a) && Limited(Apply(r, a), p, c)
    ensures LimitedRun(s, steps + [a], p, c, Apply(r, a))
    decreases |steps|
  {
    if steps == [] {
      assert ([] + [a])[1..] == [];
    } else {
      assert (steps + [a])[1..] == steps[1..] + [a];
      LimitedSnoc(Apply(s, steps[0]), steps[1..], p, c, r, a);
    }
  }

  lemma WithinStep(words: nat, stale: seq<Payload>, p: nat, c: nat, s: State, a: Step)
    requires Within(words, stale, p, c, s) && Shape(s) && Enabled(s, a) && Limited(Apply(s, a), p, c)
    ensures Within(words, stale, p, c, Apply(s, a)) && Inv(Apply(s, a))
  {
    var steps: seq<Step> :| LimitedRun(Init(words, stale), steps, p, c, s);
    LimitedSnoc(Init(words, stale), steps, p, c, s, a);
    WithinFacts(words, stale, p, c, Apply(s, a));
  }

  /** In this state, the machine on wrapped words does what the ring does, step by step. */
  ghost predicate SameSteps(s: State, m: nat)
    requires Shape(s) && m > 0
  {
    forall a: Step | Enabled(s, a) ::
      WordEnabled(Lower(s, m), a) && WordApply(Lower(s, m), a) == Lower(Apply(s, a), m)
  }

  ghost predicate AlwaysSame(words: nat, stale: seq<Payload>, p: nat, c: nat, m: nat)
    requires m > 0
  {
    forall s: State | Within(words, stale, p, c, s) :: Shape(s) && SameSteps(s, m)
  }

  lemma {:induction false} PendingWritesUpdate(wr: seq<WriteOp>, t: nat, op: WriteOp)
    requires t < |wr|
    ensures PendingWrites(wr[t := op]) ==
            PendingWrites(wr) - (if wr[t].phase.Published? then 0 else 1) + if op.phase.Published? then 0 else 1
  {
    var n := |wr| - 1;
    if t == n {
      assert wr[t := op][..n] == wr[..n];
    } else {
      assert wr[t := op][..n] == wr[..n][t := op];
      PendingWritesUpdate(wr[..n], t, op);
    }
  }

  lemma {:induction false} PendingReadsUpdate(rd: seq<ReadOp>, t: nat, op: ReadOp)
    requires t < |rd|
    ensures PendingReads(rd[t := op]) ==
            PendingReads(rd) - (if rd[t].phase.Returned? then 0 else 1) + if op.phase.Returned? then 0 else 1
  {
    var n := |rd| - 1;
    if t == n {
      assert rd[t := op][..n] == rd[..n];
    } else {
      assert rd[t := op][..n] == rd[..n][t := op];
      PendingReadsUpdate(rd[..n], t, op);
    }
  }

  /* ------------------------ Finishing an operation ------------------------ */

  lemma AdvanceWithin(words: nat, stale: seq<Payload>, p: nat, c: nat, s: State, a: Step)
    requires Within(words, stale, p, c, s) && Shape(s) && Enabled(s, a) && (a.AdvanceWrite? || a.AdvanceRead?)
    ensures Within(words, stale, p, c, Apply(s, a)) && Inv(Apply(s, a))
  {
    WithinFacts(words, stale, p, c, s);
    var r := Apply(s, a);
    match a {
      case AdvanceWrite(t) =>
        PendingWritesUpdate(s.wr, t, r.wr[t]);
        assert r.wr == s.wr[t := r.wr[t]] && r.rd == s.rd;
      case AdvanceRead(t) =>
        PendingReadsUpdate(s.rd, t, r.rd[t]);
        assert r.rd == s.rd[t := r.rd[t]] && r.wr == s.wr;
    }
    WithinStep(words, stale, p, c, s, a);
  }

  /** An enqueue that may pass its guard stores its words and publishes. */
  lemma {:induction false} FinishWrite(words: nat, stale: seq<Payload>, p: nat, c: nat, s: State, t: nat)
    returns (r: State)
    requires Within(words, stale, p, c, s) && Inv(s) && t < |s.wr| && !s.wr[t].phase.Published?
    requires s.wr[t].phase.Waiting? ==> WriteGuard(s, t)
    ensures Within(words, stale, p, c, r) && Inv(r)
    ensures r.wr == s.wr[t := s.wr[t].(phase := Published)] && r.rd == s.rd && r.size == s.size
    decreases if s.wr[t].phase.Waiting? then s.words + 2 else s.words + 1 - s.wr[t].phase.stored
  {
    assert WriteOpShape(s.wr[t], s.words);
    AdvanceWithin(words, stale, p, c, s, AdvanceWrite(t));
    r := Apply(s, AdvanceWrite(t));
    if !r.wr[t].phase.Published? { r := FinishWrite(words, stale, p, c, r, t); }
  }

  /** A dequeue that may pass its guard copies its words and returns. */
  lemma {:induction false} FinishRead(words: nat, stale: seq<Payload>, p: nat, c: nat, s: State, t: nat)
    returns (r: State)
    requires Within(words, stale, p, c, s) && Inv(s) && t < |s.rd| && !s.rd[t].phase.Returned?
    requires s.rd[t].phase.Awaiting? ==> ReadGuard(s, t)
    ensures Within(words, stale, p, c, r) && Inv(r)
    ensures |r.rd| == |s.rd| && r.rd == s.rd[t := r.rd[t]] && r.rd[t].phase.Returned?
    ensures r.rd[t].owner == s.rd[t].owner && r.wr == s.wr && r.size == s.size
    decreases if s.rd[t].phase.Awaiting? then s.words + 2 else s.words + 1 - |s.rd[t].phase.copy|
  {
    assert ReadOpShape(s.rd[t], s.words);
    AdvanceWithin(words, stale, p, c, s, AdvanceRead(t));
    r := Apply(s, AdvanceRead(t));
    if !r.rd[t].phase.Returned? { r := FinishRead(words, stale, p, c, r, t); }
  }

  /* ------------------- Everything but slot 0 moves on ------------------- */

  /** The number of tickets below t that use slot 0. */
  function Rounds(t: nat, n: nat): (k: nat)
    requires n > 0
  {
    if t == 0 then 0 else if t <= n then 1 else 1 + Rounds(t - n, n)
  }

  lemma {:induction false} RoundsNext(t: nat, n: nat)
    requires n > 0
    ensures Rounds(t + 1, n) == Rounds(t, n) + if SlotOf(t, n) == 0 then 1 else 0
    decreases t
  {
    if t < n {
    } else {
      RoundsNext(t - n, n);
    }
  }

  lemma {:induction false} RoundsBound(t: nat, q: nat, n: nat)
    requires n > 0 && t <= q * n
    ensures Rounds(t, n) <= q
    decreases q
  {
    if q == 0 {
    } else if t > n {
      assert t - n <= (q - 1) * n;
      RoundsBound(t - n, q - 1, n);
    }
  }

  /** The tickets of slot 0 are stuck, except that the first enqueue may have published; all others are
      finished.  Every operation has a thread of its own. */
  ghost predicate Stage(s: State, w: nat, r: nat, first: bool)
    requires s.size > 0
  {
    && |s.wr| == w && |s.rd| == r
    && (forall t | 0 <= t < w ::
          s.wr[t].owner == 2 * t
          && s.wr[t].phase == if SlotOf(t, s.size) != 0 || (first && t == 0) then Published else Waiting)
    && (forall t | 0 <= t < r ::
          s.rd[t].owner == 2 * t + 1
          && if SlotOf(t, s.size) != 0 then s.rd[t].phase.Returned? else s.rd[t].phase.Awaiting?)
  }

  ghost predicate WriteStays(op: WriteOp, t: nat, n: nat, first: bool)
    requires n > 0
  {
    !op.phase.Published? <==> SlotOf(t, n) == 0 && !(first && t == 0)
  }

  ghost predicate ReadStays(op: ReadOp, t: nat, n: nat)
    requires n > 0
  {
    !op.phase.Returned? <==> SlotOf(t, n) == 0
  }

  lemma {:induction false} StageWrites(wr: seq<WriteOp>, n: nat, first: bool)
    requires n > 0 && forall t | 0 <= t < |wr| :: WriteStays(wr[t], t, n, first)
    ensures PendingWrites(wr) + (if first && |wr| > 0 then 1 else 0) == Rounds(|wr|, n)
  {
    if |wr| == 0 {
    } else {
      var t := |wr| - 1;
      StageWrites(wr[..t], n, first);
      RoundsNext(t, n);
      assert WriteStays(wr[t], t, n, first);
    }
  }

  lemma {:induction false} StageReads(rd: seq<ReadOp>, n: nat)
    requires n > 0 && forall t | 0 <= t < |rd| :: ReadStays(rd[t], t, n)
    ensures PendingReads(rd) == Rounds(|rd|, n)
  {
    if |rd| == 0 {
    } else {
      var t := |rd| - 1;
      StageReads(rd[..t], n);
      RoundsNext(t, n);
      assert ReadStays(rd[t], t, n);
    }
  }

  lemma ClaimCounts(s: State, a: Step)
    requires Shape(s) && Enabled(s, a) && (a.ClaimWrite? || a.ClaimRead?)
    ensures
      var r := Apply(s, a);
      && PendingWrites(r.wr) == PendingWrites(s.wr) + (if a.ClaimWrite? then 1 else 0)
      && PendingReads(r.rd) == PendingReads(s.rd) + (if a.ClaimRead? then 1 else 0)
  {
    var r := Apply(s, a);
    if a.ClaimWrite? {
      assert r.wr[..|s.wr|] == s.wr;
    } else {
      assert r.rd[..|s.rd|] == s.rd;
    }
  }

  lemma ClaimWithin(words: nat, stale: seq<Payload>, p: nat, c: nat, s: State, a: Step)
    requires Within(words, stale, p, c, s) && Shape(s) && Enabled(s, a)
    requires (a.ClaimWrite? && PendingWrites(s.wr) < p) || (a.ClaimRead? && PendingReads(s.rd) < c)
    ensures Within(words, stale, p, c, Apply(s, a)) && Inv(Apply(s, a))
  {
    WithinFacts(words, stale, p, c, s);
    ClaimCounts(s, a);
    WithinStep(words, stale, p, c, s, a);
  }

  lemma StageCounts(s: State, w: nat, r: nat, first: bool)
    requires s.size > 0 && Stage(s, w, r, first)
    ensures PendingWrites(s.wr) + (if first && w > 0 then 1 else 0) == Rounds(w, s.size)
    ensures PendingReads(s.rd) == Rounds(r, s.size)
  {
    StageWrites(s.wr, s.size, first);
    StageReads(s.rd, s.size);
  }

  lemma FreshThreads(s: State, w: nat, r: nat, first: bool)
    requires s.size > 0 && Stage(s, w, r, first)
    ensures Idle(s, 2 * w) && Idle(s, 2 * r + 1)
  {
  }

  lemma ClaimNextWrite(words: nat, stale: seq<Payload>, p: nat, c: nat, s: State, w: nat, r: nat, first: bool)
    returns (q: State)
    requires Within(words, stale, p, c, s) && Inv(s) && Stage(s, w, r, first)
    requires Rounds(w, s.size) + 1 <= p + if first && w > 0 then 1 else 0
    ensures Within(words, stale, p, c, q) && Inv(q)
    ensures q == s.(wr := s.wr + [WriteOp(2 * w, stale[0], Waiting)])
  {
    StageCounts(s, w, r, first);
    assert s.words == words by { WithinFacts(words, stale, p, c, s); }
    var claim := ClaimWrite(2 * w, stale[0]);
    FreshThreads(s, w, r, first);
    ClaimWithin(words, stale, p, c, s, claim);
    q := Apply(s, claim);
  }

  lemma ClaimNextRead(words: nat, stale: seq<Payload>, p: nat, c: nat, s: State, w: nat, r: nat, first: bool)
    returns (q: State)
    requires Within(words, stale, p, c, s) && Inv(s) && Stage(s, w, r, first)
    requires Rounds(r, s.size) + 1 <= c
    ensures Within(words, stale, p, c, q) && Inv(q)
    ensures q == s.(rd := s.rd + [ReadOp(2 * r + 1, Awaiting)])
  {
    StageCounts(s, w, r, first);
    var claim := ClaimRead(2 * r + 1);
    FreshThreads(s, w, r, first);
    ClaimWithin(words, stale, p, c, s, claim);
    q := Apply(s, claim);
  }

  lemma StageGrows(s: State, q: State, w: nat, r: nat, first: bool)
    requires s.size > 0 && Stage(s, w, r, first) && q.size == s.size && q.rd == s.rd
    requires |q.wr| == w + 1 && q.wr[..w] == s.wr && q.wr[w].owner == 2 * w
    requires q.wr[w].phase == if SlotOf(w, s.size) != 0 || (first && w == 0) then Published else Waiting
    ensures Stage(q, w + 1, r, first)
  {
    assert forall t | 0 <= t < w :: q.wr[t] == q.wr[..w][t];
  }

  lemma FreeSlotGuard(s: State, t: nat)
    requires Inv(s) && !IsPublished(s, t) && (t < s.size || IsReleased(s, t - s.size))
    ensures WriteGuard(s, t)
  {
    assert TicketMeaning(s, t);
    if t >= s.size { assert TicketMeaning(s, t - s.size); }
  }

  /** The next enqueue of a stage: it stays at slot 0, and finishes at any other slot. */
  lemma AddWrite(words: nat, stale: seq<Payload>, p: nat, c: nat, s: State, w: nat, r: nat, first: bool)
    returns (q: State)
    requires Within(words, stale, p, c, s) && Inv(s) && Stage(s, w, r, first)
    requires w < s.size || w - s.size < r
    requires Rounds(w, s.size) + 1 <= p + if first && w > 0 then 1 else 0
    ensures Within(words, stale, p, c, q) && Inv(q) && q.size == s.size && Stage(q, w + 1, r, first)
  {
    q := ClaimNextWrite(words, stale, p, c, s, w, r, first);
    if SlotOf(w, s.size) != 0 || (first && w == 0) {
      FreeSlotGuard(q, w);
      q := FinishWrite(words, stale, p, c, q, w);
    }
    StageGrows(s, q, w, r, first);
  }

  /** The next dequeue of a stage: it stays at slot 0, and finishes at any other slot. */
  lemma AddRead(words: nat, stale: seq<Payload>, p: nat, c: nat, s: State, w: nat, r: nat, first: bool)
    returns (q: State)
    requires Within(words, stale, p, c, s) && Inv(s) && Stage(s, w, r, first)
    requires r < w && Rounds(r, s.size) + 1 <= c
    ensures Within(words, stale, p, c, q) && Inv(q) && q.size == s.size && Stage(q, w, r + 1, first)
  {
    q := ClaimNextRead(words, stale, p, c, s, w, r, first);
    if SlotOf(r, s.size) != 0 {
      assert TicketMeaning(q, r);
      q := FinishRead(words, stale, p, c, q, r);
    }
  }

  /** k rounds of enqueues, and dequeues for all but the last of `rounds` rounds, within `rounds` dequeues in
      flight and one enqueue more. */
  lemma {:induction false} StuckEnqueues(words: nat, stale: seq<Payload>, rounds: nat, t: nat) returns (s: State)
    requires GoodStart(words, stale) && rounds > 0 && t <= rounds * |stale|
    ensures Within(words, stale, rounds + 1, rounds, s) && Inv(s) && s.size == |stale|
    ensures Stage(s, t, if t <= (rounds - 1) * |stale| then t else (rounds - 1) * |stale|, false)
    decreases t
  {
    var n := |stale|;
    var last := (rounds - 1) * n;
    assert rounds * n == last + n;
    if t == 0 {
      s := Init(words, stale);
      InitInv(words, stale);
      assert LimitedRun(s, [], rounds + 1, rounds, s);
    } else {
      s := StuckEnqueues(words, stale, rounds, t - 1);
      RoundsBound(t - 1, rounds, n);
      s := AddWrite(words, stale, rounds + 1, rounds, s, t - 1, if t - 1 <= last then t - 1 else last, false);
      if t - 1 < last {
        RoundsBound(t - 1, rounds - 1, n);
        s := AddRead(words, stale, rounds + 1, rounds, s, t, t - 1, false);
      }
    }
  }

  /** Rounds of enqueues and dequeues with the first value published and never taken, within `rounds` enqueues
      in flight and one dequeue more. */
  lemma {:induction false} StuckDequeues(words: nat, stale: seq<Payload>, rounds: nat, t: nat) returns (s: State)
    requires GoodStart(words, stale) && rounds > 0 && t <= rounds * |stale|
    ensures Within(words, stale, rounds, rounds + 1, s) && Inv(s) && s.size == |stale| && Stage(s, t, t, true)
    decreases t
  {
    var n := |stale|;
    if t == 0 {
      s := Init(words, stale);
      InitInv(words, stale);
      assert LimitedRun(s, [], rounds, rounds + 1, s);
    } else {
      s := StuckDequeues(words, stale, rounds, t - 1);
      RoundsBound(t - 1, rounds, n);
      s := AddWrite(words, stale, rounds, rounds + 1, s, t - 1, t - 1, true);
      s := AddRead(words, stale, rounds, rounds + 1, s, t, t - 1, true);
    }
  }

  /* --------------------------- The bound is exact --------------------------- */

  lemma WrapZero(m: nat)
    requires m > 0
    ensures Wrap(0, m) == 0 && Wrap(m, m) == 0 && Wrap(m + 1, m) == Wrap(1, m)
  {
    SlotIsModulo(0, m);
    SlotIsModulo(m, m);
    WrapAdd(m, 1, m);
  }

  /** A wrapped write ticket passes the guard of the enqueue that is one modulus older. */
  lemma EnqueuePassesTooEarly(s: State, m: nat)
    requires Inv(s) && MachineSize(s, m) && |s.wr| == m + 1
    requires !IsPublished(s, 0) && s.wr[m].phase.Waiting? && SlotOf(m, s.size) == 0
    ensures !SameSteps(s, m)
  {
    var a, c := AdvanceWrite(m), Lower(s, m);
    assert TicketMeaning(s, 0);
    WrapZero(m);
    WriterMask(s, m, m);
    EnabledSame(s, m, a);
    assert Apply(s, a) == s;
    assert WordApply(c, a).wr[m].op.phase == Filling(0);
    assert Lower(s, m).wr[m].op.phase == Waiting;
  }

  /** A wrapped read ticket passes the guard of the dequeue that is one modulus older. */
  lemma DequeuePassesTooEarly(s: State, m: nat)
    requires Inv(s) && MachineSize(s, m) && |s.rd| == m + 1
    requires IsPublished(s, 0) && !IsReleased(s, 0) && s.rd[m].phase.Awaiting? && SlotOf(m, s.size) == 0
    ensures !SameSteps(s, m)
  {
    var a, c := AdvanceRead(m), Lower(s, m);
    assert TicketMeaning(s, 0);
    WrapZero(m);
    WrapAdd(m, 1, m);
    ReaderMask(s, m, m);
    EnabledSame(s, m, a);
    assert Apply(s, a) == s;
    assert WordApply(c, a).rd[m].op.phase == Copying([]);
    assert Lower(s, m).rd[m].op.phase == Awaiting;
  }

  lemma {:induction false} MoreIsWithin(s: State, steps: seq<Step>, p: nat, c: nat, p': nat, c': nat, r: State)
    requires Shape(s) && LimitedRun(s, steps, p, c, r) && p <= p' && c <= c'
    ensures LimitedRun(s, steps, p', c', r)
    decreases |steps|
  {
    if steps == [] {
    } else {
      MoreIsWithin(Apply(s, steps[0]), steps[1..], p, c, p', c', r);
    }
  }

  lemma WithinMore(words: nat, stale: seq<Payload>, p: nat, c: nat, p': nat, c': nat, s: State)
    requires Within(words, stale, p, c, s) && p <= p' && c <= c'
    ensures Within(words, stale, p', c', s)
  {
    var steps: seq<Step> :| LimitedRun(Init(words, stale), steps, p, c, s);
    MoreIsWithin(Init(words, stale), steps, p, c, p', c', s);
  }

  lemma WithinFits(words: nat, stale: seq<Payload>, p: nat, c: nat, s: State, q: nat, m: nat)
    requires Within(words, stale, p, c, s) && m == q * |stale| && m > 0 && p <= q && c <= q
    ensures Inv(s) && Fits(Lower(s, m))
  {
    WithinFacts(words, stale, p, c, s);
    assert WriteOps(Lower(s, m).wr) == s.wr && ReadOps(Lower(s, m).rd) == s.rd;
    ScaleMonotone(PendingWrites(s.wr), q, s.size);
    ScaleMonotone(PendingReads(s.rd), q, s.size);
  }

  /** The limit q = m / size suffices for both sides. */
  lemma EnoughRoom(words: nat, stale: seq<Payload>, k: nat, q: nat, m: nat)
    requires GoodStart(words, stale) && Factors(|stale|, m, k, q) && m > 0
    ensures AlwaysSame(words, stale, q, q, m)
  {
    forall s: State | Within(words, stale, q, q, s) ensures Shape(s) && SameSteps(s, m) {
      WithinFits(words, stale, q, q, s, q, m);
      WithinFacts(words, stale, q, q, s);
      forall a: Step | Enabled(s, a)
        ensures WordEnabled(Lower(s, m), a) && WordApply(Lower(s, m), a) == Lower(Apply(s, a), m)
      {
        StepSimulates(s, m, a);
      }
    }
  }

  lemma OneEnqueueTooMany(words: nat, stale: seq<Payload>, k: nat, q: nat, m: nat) returns (s: State)
    requires GoodStart(words, stale) && Factors(|stale|, m, k, q) && m > 0
    ensures Within(words, stale, q + 1, q, s) && Shape(s) && !SameSteps(s, m)
  {
    var s0 := StuckEnqueues(words, stale, q, m);
    RoundsBound(m, q, |stale|);
    s := ClaimNextWrite(words, stale, q + 1, q, s0, m, if m <= (q - 1) * |stale| then m else (q - 1) * |stale|, false);
    SlotAddMultiple(0, q, |stale|);
    EnqueuePassesTooEarly(s, m);
  }

  lemma OneDequeueTooMany(words: nat, stale: seq<Payload>, k: nat, q: nat, m: nat) returns (s: State)
    requires GoodStart(words, stale) && Factors(|stale|, m, k, q) && m > 0
    ensures Within(words, stale, q, q + 1, s) && Shape(s) && !SameSteps(s, m)
  {
    var s0 := StuckDequeues(words, stale, q, m);
    RoundsBound(m, q, |stale|);
    s := ClaimNextRead(words, stale, q, q + 1, s0, m, m, true);
    SlotAddMultiple(0, q, |stale|);
    DequeuePassesTooEarly(s, m);
  }

  lemma BoundIsExact(words: nat, stale: seq<Payload>, k: nat, q: nat, m: nat, p: nat)
    requires GoodStart(words, stale) && Factors(|stale|, m, k, q) && m > 0
    ensures AlwaysSame(words, stale, p, q, m) <==> p <= q
    ensures AlwaysSame(words, stale, q, p, m) <==> p <= q
  {
    if p <= q {
      EnoughRoom(words, stale, k, q, m);
      forall s: State | Within(words, stale, p, q, s) ensures Shape(s) && SameSteps(s, m) {
        WithinMore(words, stale, p, q, q, q, s);
      }
      forall s: State | Within(words, stale, q, p, s) ensures Shape(s) && SameSteps(s, m) {
        WithinMore(words, stale, q, p, q, q, s);
      }
    } else {
      var s := OneEnqueueTooMany(words, stale, k, q, m);
      WithinMore(words, stale, q + 1, q, p, q, s);
      var r := OneDequeueTooMany(words, stale, k, q, m);
      WithinMore(words, stale, q, q + 1, q, p, r);
    }
  }

  /** With at most p enqueues and q = 2^64 / size dequeues in flight, the program on 64-bit words takes the
      steps of the ring in every reachable state if and only if p <= q; and the same with the roles of
      enqueues and dequeues exchanged. */
  lemma WrapBoundIsExact(words: nat, stale: seq<Payload>, k: nat, p: nat)
    requires GoodStart(words, stale) && |stale| == Pow2(k) && k <= 64
    ensures AlwaysSame(words, stale, p, Pow2(64 - k), Pow2(64)) <==> p <= Pow2(64 - k)
    ensures AlwaysSame(words, stale, Pow2(64 - k), p, Pow2(64)) <==> p <= Pow2(64 - k)
  {
    Pow2Divides(k, 64);
    BoundIsExact(words, stale, k, Pow2(64 - k), Pow2(64), p);
  }
}
