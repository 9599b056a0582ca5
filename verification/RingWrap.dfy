/** The ring on machine words: counters and sequence numbers wrap at a modulus and the slot is
    a bit mask of the wrapped ticket.  The machine takes exactly the steps of the ring on
    unbounded tickets as long as the operations in flight, times the size, fit the modulus. */
module RingWrap {
  import opened Ring
  import opened Bits
  import opened RingSafety

  /** An operation with the machine-word ticket that it fetched. */
  datatype WordWrite = WordWrite(ticket: nat, op: WriteOp)

  datatype WordRead = WordRead(ticket: nat, op: ReadOp)

  datatype WordState = WordState(
    modulus: nat,
    size: nat,
    words: nat,
    seqs: seq<nat>,
    data: seq<Payload>,
    writeTicket: nat,
    readTicket: nat,
    wr: seq<WordWrite>,
    rd: seq<WordRead>,
    log: seq<nat>)

  ghost function WriteOps(wr: seq<WordWrite>): (ops: seq<WriteOp>)
    ensures |ops| == |wr| && forall t | 0 <= t < |wr| :: ops[t] == wr[t].op
  {
    seq(|wr|, t requires 0 <= t < |wr| => wr[t].op)
  }

  ghost function ReadOps(rd: seq<WordRead>): (ops: seq<ReadOp>)
    ensures |ops| == |rd| && forall t | 0 <= t < |rd| :: ops[t] == rd[t].op
  {
    seq(|rd|, t requires 0 <= t < |rd| => rd[t].op)
  }

  ghost predicate WordShape(c: WordState) {
    && c.size > 0 && c.modulus > 0
    && |c.seqs| == c.size && |c.data| == c.size
    && (forall i | 0 <= i < c.size :: |c.data[i]| == c.words)
    && (forall t | 0 <= t < |c.wr| :: WriteOpShape(c.wr[t].op, c.words))
    && (forall t | 0 <= t < |c.rd| :: ReadOpShape(c.rd[t].op, c.words))
  }

  predicate WordIdle(c: WordState, th: ThreadId) {
    && (forall t | 0 <= t < |c.wr| && c.wr[t].op.owner == th :: c.wr[t].op.phase.Published?)
    && (forall t | 0 <= t < |c.rd| && c.rd[t].op.owner == th :: c.rd[t].op.phase.Returned?)
  }

  predicate WordEnabled(c: WordState, a: Step) {
    match a
    case ClaimWrite(th, v) => |v| == c.words && WordIdle(c, th)
    case ClaimRead(th) => WordIdle(c, th)
    case AdvanceWrite(t) => t < |c.wr| && !c.wr[t].op.phase.Published?
    case AdvanceRead(t) => t < |c.rd| && !c.rd[t].op.phase.Returned?
  }

  /** The slot as the program computes it. */
  function Mask(c: WordState, ticket: nat): (i: nat)
    requires c.size > 0
    ensures i < c.size
  {
    BitAnd(ticket, c.size - 1)
  }

  /** One access of enqueue t, whose slot is i. */
  function WriteAt(c: WordState, t: nat, i: nat): (r: WordState)
    requires WordShape(c) && WordEnabled(c, AdvanceWrite(t)) && i < c.size
    ensures WordShape(r)
  {
    var ticket, op := c.wr[t].ticket, c.wr[t].op;
    match op.phase
    case Waiting =>
      if c.seqs[i] == ticket then c.(wr := c.wr[t := WordWrite(ticket, op.(phase := Filling(0)))]) else c
    case Filling(k) =>
      if k < c.words then
        c.(data := c.data[i := c.data[i][k := op.value[k]]],
        wr := c.wr[t := WordWrite(ticket, op.(phase := Filling(k + 1)))])
      else
        c.(seqs := c.seqs[i := Wrap(ticket + 1, c.modulus)],
        wr := c.wr[t := WordWrite(ticket, op.(phase := Published))])
  }

  /** One access of dequeue t, whose slot is i. */
  function ReadAt(c: WordState, t: nat, i: nat): (r: WordState)
    requires WordShape(c) && WordEnabled(c, AdvanceRead(t)) && i < c.size
    ensures WordShape(r)
  {
    var ticket, op := c.rd[t].ticket, c.rd[t].op;
    match op.phase
    case Awaiting =>
      if c.seqs[i] == Wrap(ticket + 1, c.modulus) then
        c.(rd := c.rd[t := WordRead(ticket, op.(phase := Copying([])))])
      else c
    case Copying(copy) =>
      if |copy| < c.words then
        c.(rd := c.rd[t := WordRead(ticket, op.(phase := Copying(copy + [c.data[i][|copy|]])))])
      else
        c.(seqs := c.seqs[i := Wrap(ticket + c.size, c.modulus)],
        rd := c.rd[t := WordRead(ticket, op.(phase := Returned(copy)))],
        log := c.log + [t])
  }

  function WordApply(c: WordState, a: Step): (r: WordState)
    requires WordShape(c) && WordEnabled(c, a)
    ensures WordShape(r)
  {
    match a
    case ClaimWrite(th, v) =>
      c.(wr := c.wr + [WordWrite(c.writeTicket, WriteOp(th, v, Waiting))],
      writeTicket := Wrap(c.writeTicket + 1, c.modulus))
    case ClaimRead(th) =>
      c.(rd := c.rd + [WordRead(c.readTicket, ReadOp(th, Awaiting))],
      readTicket := Wrap(c.readTicket + 1, c.modulus))
    case AdvanceWrite(t) => WriteAt(c, t, Mask(c, c.wr[t].ticket))
    case AdvanceRead(t) => ReadAt(c, t, Mask(c, c.rd[t].ticket))
  }

  ghost function LowerSeqs(seqs: seq<nat>, m: nat): (r: seq<nat>)
    requires m > 0
    ensures |r| == |seqs| && forall i | 0 <= i < |seqs| :: r[i] == Wrap(seqs[i], m)
  {
    seq(|seqs|, i requires 0 <= i < |seqs| => Wrap(seqs[i], m))
  }

  ghost function LowerWrites(wr: seq<WriteOp>, m: nat): (r: seq<WordWrite>)
    requires m > 0
    ensures |r| == |wr| && forall t | 0 <= t < |wr| :: r[t] == WordWrite(Wrap(t, m), wr[t])
  {
    seq(|wr|, t requires 0 <= t < |wr| => WordWrite(Wrap(t, m), wr[t]))
  }

  ghost function LowerReads(rd: seq<ReadOp>, m: nat): (r: seq<WordRead>)
    requires m > 0
    ensures |r| == |rd| && forall t | 0 <= t < |rd| :: r[t] == WordRead(Wrap(t, m), rd[t])
  {
    seq(|rd|, t requires 0 <= t < |rd| => WordRead(Wrap(t, m), rd[t]))
  }

  /** The machine-word state of a ring: every counter and sequence number wrapped. */
  ghost function Lower(s: State, m: nat): (c: WordState)
    requires Shape(s) && m > 0
    ensures WordShape(c)
  {
    WordState(m, s.size, s.words, LowerSeqs(s.seqs, m), s.data, Wrap(|s.wr|, m), Wrap(|s.rd|, m),
              LowerWrites(s.wr, m), LowerReads(s.rd, m), s.log)
  }

  lemma LowerSeqsUpdate(seqs: seq<nat>, m: nat, i: nat, v: nat)
    requires m > 0 && i < |seqs|
    ensures LowerSeqs(seqs[i := v], m) == LowerSeqs(seqs, m)[i := Wrap(v, m)]
  {
  }

  lemma LowerWritesUpdate(wr: seq<WriteOp>, m: nat, t: nat, op: WriteOp)
    requires m > 0 && t < |wr|
    ensures LowerWrites(wr[t := op], m) == LowerWrites(wr, m)[t := WordWrite(Wrap(t, m), op)]
  {
  }

  lemma LowerReadsUpdate(rd: seq<ReadOp>, m: nat, t: nat, op: ReadOp)
    requires m > 0 && t < |rd|
    ensures LowerReads(rd[t := op], m) == LowerReads(rd, m)[t := WordRead(Wrap(t, m), op)]
  {
  }

  /** The operations in flight, times the size, fit the modulus. */
  ghost predicate Fits(c: WordState) {
    && PendingWrites(WriteOps(c.wr)) * c.size <= c.modulus
    && PendingReads(ReadOps(c.rd)) * c.size <= c.modulus
  }

  /* ------------------------- How far apart ------------------------- */

  lemma {:induction false} PendingWritesMonotone(wr: seq<WriteOp>, k: nat)
    requires k <= |wr|
    ensures PendingWrites(wr[..k]) <= PendingWrites(wr)
  {
    if k == |wr| {
      assert wr[..k] == wr;
    } else {
      assert wr[..|wr| - 1][..k] == wr[..k];
      PendingWritesMonotone(wr[..|wr| - 1], k);
    }
  }

  lemma {:induction false} PendingReadsMonotone(rd: seq<ReadOp>, k: nat)
    requires k <= |rd|
    ensures PendingReads(rd[..k]) <= PendingReads(rd)
  {
    if k == |rd| {
      assert rd[..k] == rd;
    } else {
      assert rd[..|rd| - 1][..k] == rd[..k];
      PendingReadsMonotone(rd[..|rd| - 1], k);
    }
  }

  lemma PendingWritesNext(wr: seq<WriteOp>, r: nat, t: nat)
    requires r <= t < |wr| && !wr[t].phase.Published?
    ensures PendingWrites(wr[..t + 1]) >= PendingWrites(wr[..r]) + 1
  {
    assert wr[..t + 1][..t] == wr[..t] && wr[..t][..r] == wr[..r];
    PendingWritesMonotone(wr[..t], r);
  }

  lemma PendingReadsNext(rd: seq<ReadOp>, r: nat, t: nat)
    requires r <= t < |rd| && !rd[t].phase.Returned?
    ensures PendingReads(rd[..t + 1]) >= PendingReads(rd[..r]) + 1
  {
    assert rd[..t + 1][..t] == rd[..t] && rd[..t][..r] == rd[..r];
    PendingReadsMonotone(rd[..t], r);
  }

  lemma ScaleUp(p: nat, q: nat, n: nat)
    requires p + 1 <= q
    ensures p * n + n <= q * n
  {
    var d: nat := q - p - 1;
    assert q * n == (p + 1 + d) * n == p * n + n + d * n;
  }

  /** The sequence number that an unpublished enqueue looks at is behind its ticket by less than
      one size per enqueue in flight. */
  lemma {:induction false} WriterLag(s: State, t: nat)
    requires Inv(s) && t < |s.wr| && !s.wr[t].phase.Published?
    ensures s.seqs[Slot(s, t)] <= t < s.seqs[Slot(s, t)] + PendingWrites(s.wr[..t + 1]) * s.size
    decreases t
  {
    assert TicketMeaning(s, t);
    PendingWritesNext(s.wr, 0, t);
    ScaleUp(0, PendingWrites(s.wr[..t + 1]), s.size);
    if t < s.size {
    } else {
      var r := t - s.size;
      assert TicketMeaning(s, r);
      if !IsPublished(s, r) {
        WriterLag(s, r);
        PendingWritesNext(s.wr, r + 1, t);
        ScaleUp(PendingWrites(s.wr[..r + 1]), PendingWrites(s.wr[..t + 1]), s.size);
      }
    }
  }

  /** The same for a dequeue in flight and the value t + 1 that it waits for. */
  lemma {:induction false} ReaderLag(s: State, t: nat)
    requires Inv(s) && t < |s.rd| && !s.rd[t].phase.Returned?
    ensures s.seqs[Slot(s, t)] <= t + 1 < s.seqs[Slot(s, t)] + PendingReads(s.rd[..t + 1]) * s.size
    decreases t
  {
    assert TicketMeaning(s, t);
    PendingReadsNext(s.rd, 0, t);
    ScaleUp(0, PendingReads(s.rd[..t + 1]), s.size);
    if t < s.size {
    } else {
      var r := t - s.size;
      assert TicketMeaning(s, r);
      if !IsReleased(s, r) {
        ReaderLag(s, r);
        PendingReadsNext(s.rd, r + 1, t);
        ScaleUp(PendingReads(s.rd[..r + 1]), PendingReads(s.rd[..t + 1]), s.size);
        if t < |s.wr| { assert WriteMeaning(s, t); }
      }
    }
  }

  /* --------------------------- Simulation --------------------------- */

  /** The size is a power of two and divides the modulus. */
  ghost predicate MachineSize(s: State, m: nat) {
    m > 0 && exists k: nat, q: nat :: Factors(s.size, m, k, q)
  }

  ghost predicate Factors(size: nat, m: nat, k: nat, q: nat) {
    size == Pow2(k) && m == q * size
  }

  lemma MaskOfWrapped(s: State, m: nat, t: nat)
    requires Shape(s) && MachineSize(s, m)
    ensures BitAnd(Wrap(t, m), s.size - 1) == Slot(s, t)
  {
    var k: nat, q: nat :| Factors(s.size, m, k, q);
    MaskIsSlot(Wrap(t, m), k);
    WrapKeepsSlot(t, m, q, s.size);
  }

  lemma WriterMask(s: State, m: nat, t: nat)
    requires Shape(s) && MachineSize(s, m) && t < |s.wr|
    ensures Mask(Lower(s, m), Lower(s, m).wr[t].ticket) == Slot(s, t)
  {
    MaskOfWrapped(s, m, t);
  }

  lemma ReaderMask(s: State, m: nat, t: nat)
    requires Shape(s) && MachineSize(s, m) && t < |s.rd|
    ensures Mask(Lower(s, m), Lower(s, m).rd[t].ticket) == Slot(s, t)
  {
    MaskOfWrapped(s, m, t);
  }

  lemma ScaleMonotone(p: nat, q: nat, n: nat)
    requires p <= q
    ensures p * n <= q * n
  {
  }

  lemma WriteGuardSame(s: State, m: nat, t: nat)
    requires Inv(s) && m > 0 && Fits(Lower(s, m)) && Enabled(s, AdvanceWrite(t))
    ensures Wrap(s.seqs[Slot(s, t)], m) == Wrap(t, m) <==> WriteGuard(s, t)
  {
    assert WriteOps(Lower(s, m).wr) == s.wr;
    WriterLag(s, t);
    PendingWritesMonotone(s.wr, t + 1);
    ScaleMonotone(PendingWrites(s.wr[..t + 1]), PendingWrites(s.wr), s.size);
    WrapClose(s.seqs[Slot(s, t)], t, m);
  }

  lemma ReadGuardSame(s: State, m: nat, t: nat)
    requires Inv(s) && m > 0 && Fits(Lower(s, m)) && Enabled(s, AdvanceRead(t))
    ensures Wrap(s.seqs[Slot(s, t)], m) == Wrap(t + 1, m) <==> ReadGuard(s, t)
  {
    assert ReadOps(Lower(s, m).rd) == s.rd;
    ReaderLag(s, t);
    PendingReadsMonotone(s.rd, t + 1);
    ScaleMonotone(PendingReads(s.rd[..t + 1]), PendingReads(s.rd), s.size);
    WrapClose(s.seqs[Slot(s, t)], t + 1, m);
  }

  lemma WritePassSimulates(s: State, m: nat, t: nat)
    requires Shape(s) && m > 0 && Enabled(s, AdvanceWrite(t)) && s.wr[t].phase.Waiting?
    requires Wrap(s.seqs[Slot(s, t)], m) == Wrap(t, m) <==> WriteGuard(s, t)
    ensures WordEnabled(Lower(s, m), AdvanceWrite(t))
    ensures WriteAt(Lower(s, m), t, Slot(s, t)) == Lower(WriteStep(s, t), m)
  {
    assert Lower(s, m).wr[t] == WordWrite(Wrap(t, m), s.wr[t]);
    LowerWritesUpdate(s.wr, m, t, s.wr[t].(phase := Filling(0)));
  }

  lemma WriteWordSimulates(s: State, m: nat, t: nat)
    requires Shape(s) && m > 0 && Enabled(s, AdvanceWrite(t))
    requires s.wr[t].phase.Filling? && s.wr[t].phase.stored < s.words
    ensures WordEnabled(Lower(s, m), AdvanceWrite(t))
    ensures WriteAt(Lower(s, m), t, Slot(s, t)) == Lower(WriteStep(s, t), m)
  {
    assert Lower(s, m).wr[t] == WordWrite(Wrap(t, m), s.wr[t]);
    LowerWritesUpdate(s.wr, m, t, s.wr[t].(phase := Filling(s.wr[t].phase.stored + 1)));
  }

  lemma PublishSimulates(s: State, m: nat, t: nat)
    requires Shape(s) && m > 0 && Enabled(s, AdvanceWrite(t)) && s.wr[t].phase == Filling(s.words)
    ensures WordEnabled(Lower(s, m), AdvanceWrite(t))
    ensures WriteAt(Lower(s, m), t, Slot(s, t)) == Lower(WriteStep(s, t), m)
  {
    assert Lower(s, m).wr[t] == WordWrite(Wrap(t, m), s.wr[t]);
    WrapAdd(t, 1, m);
    LowerWritesUpdate(s.wr, m, t, s.wr[t].(phase := Published));
    LowerSeqsUpdate(s.seqs, m, Slot(s, t), t + 1);
  }

  lemma ReadPassSimulates(s: State, m: nat, t: nat)
    requires Shape(s) && m > 0 && Enabled(s, AdvanceRead(t)) && s.rd[t].phase.Awaiting?
    requires Wrap(s.seqs[Slot(s, t)], m) == Wrap(t + 1, m) <==> ReadGuard(s, t)
    ensures WordEnabled(Lower(s, m), AdvanceRead(t))
    ensures ReadAt(Lower(s, m), t, Slot(s, t)) == Lower(ReadStep(s, t), m)
  {
    assert Lower(s, m).rd[t] == WordRead(Wrap(t, m), s.rd[t]);
    WrapAdd(t, 1, m);
    LowerReadsUpdate(s.rd, m, t, s.rd[t].(phase := Copying([])));
  }

  lemma ReadWordSimulates(s: State, m: nat, t: nat)
    requires Shape(s) && m > 0 && Enabled(s, AdvanceRead(t))
    requires s.rd[t].phase.Copying? && |s.rd[t].phase.copy| < s.words
    ensures WordEnabled(Lower(s, m), AdvanceRead(t))
    ensures ReadAt(Lower(s, m), t, Slot(s, t)) == Lower(ReadStep(s, t), m)
  {
    var copy := s.rd[t].phase.copy;
    assert Lower(s, m).rd[t] == WordRead(Wrap(t, m), s.rd[t]);
    LowerReadsUpdate(s.rd, m, t, s.rd[t].(phase := Copying(copy + [s.data[Slot(s, t)][|copy|]])));
  }

  lemma ReleaseSimulates(s: State, m: nat, t: nat)
    requires Shape(s) && m > 0 && Enabled(s, AdvanceRead(t))
    requires s.rd[t].phase.Copying? && |s.rd[t].phase.copy| == s.words
    ensures WordEnabled(Lower(s, m), AdvanceRead(t))
    ensures ReadAt(Lower(s, m), t, Slot(s, t)) == Lower(ReadStep(s, t), m)
  {
    assert Lower(s, m).rd[t] == WordRead(Wrap(t, m), s.rd[t]);
    WrapAdd(t, s.size, m);
    LowerReadsUpdate(s.rd, m, t, s.rd[t].(phase := Returned(s.rd[t].phase.copy)));
    LowerSeqsUpdate(s.seqs, m, Slot(s, t), t + s.size);
  }

  lemma WriteSimulates(s: State, m: nat, t: nat)
    requires Inv(s) && m > 0 && Fits(Lower(s, m)) && Enabled(s, AdvanceWrite(t))
    ensures WordEnabled(Lower(s, m), AdvanceWrite(t))
    ensures WriteAt(Lower(s, m), t, Slot(s, t)) == Lower(WriteStep(s, t), m)
  {
    assert WriteOpShape(s.wr[t], s.words);
    if s.wr[t].phase.Waiting? {
      WriteGuardSame(s, m, t);
      WritePassSimulates(s, m, t);
    } else if s.wr[t].phase.stored < s.words {
      WriteWordSimulates(s, m, t);
    } else {
      PublishSimulates(s, m, t);
    }
  }

  lemma ReadSimulates(s: State, m: nat, t: nat)
    requires Inv(s) && m > 0 && Fits(Lower(s, m)) && Enabled(s, AdvanceRead(t))
    ensures WordEnabled(Lower(s, m), AdvanceRead(t))
    ensures ReadAt(Lower(s, m), t, Slot(s, t)) == Lower(ReadStep(s, t), m)
  {
    assert ReadOpShape(s.rd[t], s.words);
    if s.rd[t].phase.Awaiting? {
      ReadGuardSame(s, m, t);
      ReadPassSimulates(s, m, t);
    } else if |s.rd[t].phase.copy| < s.words {
      ReadWordSimulates(s, m, t);
    } else {
      ReleaseSimulates(s, m, t);
    }
  }

  lemma ClaimSimulates(s: State, m: nat, a: Step)
    requires Shape(s) && m > 0 && Enabled(s, a) && (a.ClaimWrite? || a.ClaimRead?)
    ensures WordEnabled(Lower(s, m), a)
    ensures WordApply(Lower(s, m), a) == Lower(Apply(s, a), m)
  {
    EnabledSame(s, m, a);
    WrapAdd(|s.wr|, 1, m);
    WrapAdd(|s.rd|, 1, m);
    var s' := Apply(s, a);
    if a.ClaimWrite? {
      assert LowerWrites(s'.wr, m) == LowerWrites(s.wr, m) + [WordWrite(Wrap(|s.wr|, m), s'.wr[|s.wr|])];
    } else {
      assert LowerReads(s'.rd, m) == LowerReads(s.rd, m) + [WordRead(Wrap(|s.rd|, m), s'.rd[|s.rd|])];
    }
  }

  lemma EnabledSame(s: State, m: nat, a: Step)
    requires Shape(s) && m > 0
    ensures WordEnabled(Lower(s, m), a) <==> Enabled(s, a)
  {
    var c := Lower(s, m);
    assert forall t | 0 <= t < |s.wr| :: c.wr[t].op == s.wr[t];
    assert forall t | 0 <= t < |s.rd| :: c.rd[t].op == s.rd[t];
  }

  /** One step: the machine is enabled when the ring is, and does the same. */
  lemma StepSimulates(s: State, m: nat, a: Step)
    requires Inv(s) && MachineSize(s, m) && Fits(Lower(s, m)) && Enabled(s, a)
    ensures WordEnabled(Lower(s, m), a)
    ensures WordApply(Lower(s, m), a) == Lower(Apply(s, a), m)
  {
    match a
    case ClaimWrite(_, _) => ClaimSimulates(s, m, a);
    case ClaimRead(_) => ClaimSimulates(s, m, a);
    case AdvanceWrite(t) =>
      WriteSimulates(s, m, t);
      WriterMask(s, m, t);
    case AdvanceRead(t) =>
      ReadSimulates(s, m, t);
      ReaderMask(s, m, t);
  }

  /** A run of the machine in which the operations in flight always fit. */
  ghost predicate WordLegal(c: WordState, steps: seq<Step>)
    requires WordShape(c)
    decreases |steps|
  {
    steps == [] || (Fits(c) && WordEnabled(c, steps[0]) && WordLegal(WordApply(c, steps[0]), steps[1..]))
  }

  ghost function WordRun(c: WordState, steps: seq<Step>): (r: WordState)
    requires WordShape(c) && WordLegal(c, steps)
    decreases |steps|
  {
    if steps == [] then c else WordRun(WordApply(c, steps[0]), steps[1..])
  }

  /** A run of the ring in which the operations in flight always fit. */
  ghost predicate LegalFitting(s: State, steps: seq<Step>, m: nat)
    requires Shape(s) && m > 0
    decreases |steps|
  {
    steps == [] || (Fits(Lower(s, m)) && Enabled(s, steps[0]) && LegalFitting(Apply(s, steps[0]), steps[1..], m))
  }

  lemma {:induction false} FittingRunsCoincide(s: State, steps: seq<Step>, m: nat)
    requires Inv(s) && MachineSize(s, m)
    ensures WordLegal(Lower(s, m), steps) <==> LegalFitting(s, steps, m)
    ensures WordLegal(Lower(s, m), steps) ==> Legal(s, steps) && WordRun(Lower(s, m), steps) == Lower(Run(s, steps), m)
    decreases |steps|
  {
    if steps == [] {
    } else {
      EnabledSame(s, m, steps[0]);
      if Fits(Lower(s, m)) && Enabled(s, steps[0]) {
        StepSimulates(s, m, steps[0]);
        StepKeepsInv(s, steps[0]);
        assert Apply(s, steps[0]).size == s.size;
        FittingRunsCoincide(Apply(s, steps[0]), steps[1..], m);
      }
    }
  }

  /** Wrap-around at 2^64 is harmless for every power-of-two size that divides it: from the
      constructed ring, the machine-word program has exactly the runs of the ring on unbounded
      tickets in which P * size and C * size stay within 2^64 for the P enqueues and C dequeues
      in flight, and each such run ends in the wrapped image of the unbounded state, so it
      returns the same values in the same order.  The program keeps the slot in an `int`, which is
      exact for k <= 31; larger sizes are not covered by its index, only by this arithmetic. */
  lemma WrapIsHarmless(words: nat, stale: seq<Payload>, k: nat, steps: seq<Step>)
    requires GoodStart(words, stale) && |stale| == Pow2(k) && k <= 64
    ensures
      var s := Init(words, stale);
      var c := Lower(s, Pow2(64));
      && (WordLegal(c, steps) <==> LegalFitting(s, steps, Pow2(64)))
      && (WordLegal(c, steps) ==>
            && Legal(s, steps)
            && WordRun(c, steps) == Lower(Run(s, steps), Pow2(64))
            && WordRun(c, steps).log == Run(s, steps).log)
  {
    InitInv(words, stale);
    Pow2Divides(k, 64);
    var m, q := Pow2(64), Pow2(64 - k);
    assert Factors(|stale|, m, k, q);
    FittingRunsCoincide(Init(words, stale), steps, m);
  }
}
