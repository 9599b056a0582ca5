/** The ticketed bounded multi-producer multi-consumer ring, one atomic access per step.

    An operation is identified by the ticket it claimed.  The operation tables `wr` and `rd` hold
    the local variables of every operation ever started, in claim order, so that `|wr|` is the
    write ticket counter, `|rd|` is the read ticket counter and finished entries are history.
    A payload is a sequence of words that is stored and copied one word per step. */
module Ring {

  import opened Bits

  type ThreadId = nat

  /** Program counter of one enqueue: spinning on the guard, storing words, sequence number stored. */
  datatype WritePhase = Waiting | Filling(stored: nat) | Published

  /** Program counter of one dequeue: spinning on the guard, copying words, value returned. */
  datatype ReadPhase = Awaiting | Copying(copy: Payload) | Returned(value: Payload)

  datatype WriteOp = WriteOp(owner: ThreadId, value: Payload, phase: WritePhase)

  datatype ReadOp = ReadOp(owner: ThreadId, phase: ReadPhase)

  datatype State = State(
    size: nat,
    words: nat,
    seqs: seq<nat>,
    data: seq<Payload>,
    wr: seq<WriteOp>,
    rd: seq<ReadOp>,
    log: seq<nat>)  // read tickets, in the order in which their dequeues returned

  datatype Step =
    | ClaimWrite(writer: ThreadId, value: Payload)
    | ClaimRead(reader: ThreadId)
    | AdvanceWrite(wt: nat)
    | AdvanceRead(rt: nat)

  ghost predicate WriteOpShape(op: WriteOp, words: nat) {
    |op.value| == words && (op.phase.Filling? ==> op.phase.stored <= words)
  }

  ghost predicate ReadOpShape(op: ReadOp, words: nat) {
    op.phase.Copying? ==> |op.phase.copy| <= words
  }

  ghost predicate Shape(s: State) {
    && s.size > 0
    && |s.seqs| == s.size
    && |s.data| == s.size
    && (forall i | 0 <= i < s.size :: |s.data[i]| == s.words)
    && (forall t | 0 <= t < |s.wr| :: WriteOpShape(s.wr[t], s.words))
    && (forall t | 0 <= t < |s.rd| :: ReadOpShape(s.rd[t], s.words))
  }

  function Slot(s: State, t: nat): (i: nat)
    requires s.size > 0
    ensures i < s.size
  {
    SlotOf(t, s.size)
  }

  /** A thread runs one operation at a time. */
  predicate Idle(s: State, th: ThreadId) {
    && (forall t | 0 <= t < |s.wr| && s.wr[t].owner == th :: s.wr[t].phase.Published?)
    && (forall t | 0 <= t < |s.rd| && s.rd[t].owner == th :: s.rd[t].phase.Returned?)
  }

  predicate Enabled(s: State, a: Step) {
    match a
    case ClaimWrite(th, v) => |v| == s.words && Idle(s, th)
    case ClaimRead(th) => Idle(s, th)
    case AdvanceWrite(t) => t < |s.wr| && !s.wr[t].phase.Published?
    case AdvanceRead(t) => t < |s.rd| && !s.rd[t].phase.Returned?
  }

  predicate WriteGuard(s: State, t: nat)
    requires Shape(s)
  {
    s.seqs[Slot(s, t)] == t
  }

  predicate ReadGuard(s: State, t: nat)
    requires Shape(s)
  {
    s.seqs[Slot(s, t)] == t + 1
  }

  /** One atomic access of the enqueue that holds ticket t: a load of the sequence number
      (which spins when it does not match), the store of one word, or the publishing store. */
  function WriteStep(s: State, t: nat): (r: State)
    requires Shape(s) && Enabled(s, AdvanceWrite(t))
    ensures Shape(r)
  {
    var op := s.wr[t];
    var i := Slot(s, t);
    match op.phase
    case Waiting =>
      if WriteGuard(s, t) then s.(wr := s.wr[t := op.(phase := Filling(0))]) else s
    case Filling(k) =>
      if k < s.words then
        s.(data := s.data[i := s.data[i][k := op.value[k]]],
        wr := s.wr[t := op.(phase := Filling(k + 1))])
      else
        s.(seqs := s.seqs[i := t + 1], wr := s.wr[t := op.(phase := Published)])
  }

  /** One atomic access of the dequeue that holds ticket t. */
  function ReadStep(s: State, t: nat): (r: State)
    requires Shape(s) && Enabled(s, AdvanceRead(t))
    ensures Shape(r)
  {
    var op := s.rd[t];
    var i := Slot(s, t);
    match op.phase
    case Awaiting =>
      if ReadGuard(s, t) then s.(rd := s.rd[t := op.(phase := Copying([]))]) else s
    case Copying(c) =>
      if |c| < s.words then
        s.(rd := s.rd[t := op.(phase := Copying(c + [s.data[i][|c|]]))])
      else
        s.(seqs := s.seqs[i := t + s.size],
        rd := s.rd[t := op.(phase := Returned(c))],
        log := s.log + [t])
  }

  function Apply(s: State, a: Step): (r: State)
    requires Shape(s) && Enabled(s, a)
    ensures Shape(r)
  {
    match a
    case ClaimWrite(th, v) => s.(wr := s.wr + [WriteOp(th, v, Waiting)])
    case ClaimRead(th) => s.(rd := s.rd + [ReadOp(th, Awaiting)])
    case AdvanceWrite(t) => WriteStep(s, t)
    case AdvanceRead(t) => ReadStep(s, t)
  }

  /** The constructed ring: slot i expects ticket i and holds whatever was there. */
  function Init(words: nat, stale: seq<Payload>): (s: State) {
    State(|stale|, words, seq(|stale|, i => i), stale, [], [], [])
  }

  ghost predicate GoodStart(words: nat, stale: seq<Payload>) {
    |stale| >= 2 && forall i | 0 <= i < |stale| :: |stale[i]| == words
  }

  ghost predicate Legal(s: State, steps: seq<Step>)
    requires Shape(s)
    decreases |steps|
  {
    steps == [] || (Enabled(s, steps[0]) && Legal(Apply(s, steps[0]), steps[1..]))
  }

  ghost function Run(s: State, steps: seq<Step>): (r: State)
    requires Shape(s) && Legal(s, steps)
    ensures Shape(r)
    decreases |steps|
  {
    if steps == [] then s else Run(Apply(s, steps[0]), steps[1..])
  }

  lemma RunCons(s: State, a: Step, rest: seq<Step>)
    requires Shape(s) && Enabled(s, a) && Legal(Apply(s, a), rest)
    ensures Legal(s, [a] + rest) && Run(s, [a] + rest) == Run(Apply(s, a), rest)
  {
    assert ([a] + rest)[1..] == rest;
  }

  lemma {:induction false} RunAppend(s: State, xs: seq<Step>, ys: seq<Step>)
    requires Shape(s) && Legal(s, xs) && Legal(Run(s, xs), ys)
    ensures Legal(s, xs + ys) && Run(s, xs + ys) == Run(Run(s, xs), ys)
    decreases |xs|
  {
    if xs == [] {
      assert xs + ys == ys;
    } else {
      assert (xs + ys)[1..] == xs[1..] + ys;
      RunAppend(Apply(s, xs[0]), xs[1..], ys);
    }
  }

  lemma RunSnoc(s: State, xs: seq<Step>, a: Step)
    requires Shape(s) && Legal(s, xs) && Enabled(Run(s, xs), a)
    ensures Legal(s, xs + [a]) && Run(s, xs + [a]) == Apply(Run(s, xs), a)
  {
    assert [a][1..] == [];
    RunAppend(s, xs, [a]);
  }

  /* ------------------------------ Invariant ------------------------------ */

  predicate IsPublished(s: State, t: nat) {
    t < |s.wr| && s.wr[t].phase.Published?
  }

  predicate IsReleased(s: State, t: nat) {
    t < |s.rd| && s.rd[t].phase.Returned?
  }

  /** What the sequence number of slot i says about tickets. */
  ghost predicate SlotMeaning(s: State, i: nat)
    requires Shape(s) && i < s.size
  {
    var v := s.seqs[i];
    if Slot(s, v) == i then
      !IsPublished(s, v) && (v >= s.size ==> IsReleased(s, v - s.size))
    else
      v >= 1 && Slot(s, v - 1) == i && IsPublished(s, v - 1) && !IsReleased(s, v - 1)
  }

  /** What the progress of the operations on ticket t says about the sequence number of its slot. */
  ghost predicate TicketMeaning(s: State, t: nat)
    requires Shape(s)
  {
    && (IsPublished(s, t) && !IsReleased(s, t) ==> s.seqs[Slot(s, t)] == t + 1)
    && (IsReleased(s, t) && !IsPublished(s, t + s.size) ==> s.seqs[Slot(s, t)] == t + s.size)
    && (t < s.size && !IsPublished(s, t) ==> s.seqs[t] == t)
  }

  ghost predicate WriteMeaning(s: State, t: nat)
    requires Shape(s) && t < |s.wr|
  {
    var op := s.wr[t];
    && (!op.phase.Waiting? && t >= s.size ==> IsReleased(s, t - s.size))
    && (op.phase.Filling? ==>
          && s.seqs[Slot(s, t)] == t
          && s.data[Slot(s, t)][..op.phase.stored] == op.value[..op.phase.stored])
    && (op.phase.Published? && !IsReleased(s, t) ==> s.data[Slot(s, t)] == op.value)
  }

  ghost predicate ReadMeaning(s: State, t: nat)
    requires t < |s.rd|
  {
    var op := s.rd[t];
    && (!op.phase.Awaiting? ==> IsPublished(s, t))
    && (op.phase.Copying? ==> op.phase.copy <= s.wr[t].value)
    && (op.phase.Returned? ==> op.phase.value == s.wr[t].value)
  }

  ghost predicate SlotsInv(s: State)
    requires Shape(s)
  {
    && (forall i: nat | i < s.size :: SlotMeaning(s, i))
    && (forall t: nat :: TicketMeaning(s, t))
  }

  ghost predicate Inv(s: State) {
    && Shape(s)
    && s.size >= 2
    && SlotsInv(s)
    && (forall t: nat | t < |s.wr| :: WriteMeaning(s, t))
    && (forall t: nat | t < |s.rd| :: ReadMeaning(s, t))
  }

  lemma InitInv(words: nat, stale: seq<Payload>)
    requires GoodStart(words, stale)
    ensures Inv(Init(words, stale))
  {
    var s := Init(words, stale);
    forall i: nat | i < s.size ensures SlotMeaning(s, i) { }
  }

  /** A step that stores no sequence number and finishes no operation keeps the slot invariant. */
  lemma QuietStep(s: State, s': State)
    requires Inv(s) && Shape(s') && s'.size == s.size && s'.seqs == s.seqs
    requires forall t: nat :: IsPublished(s', t) == IsPublished(s, t)
    requires forall t: nat :: IsReleased(s', t) == IsReleased(s, t)
    ensures SlotsInv(s')
  {
    forall i: nat | i < s'.size ensures SlotMeaning(s', i) { assert SlotMeaning(s, i); }
    forall t: nat ensures TicketMeaning(s', t) { assert TicketMeaning(s, t); }
  }

  lemma ClaimKeepsInv(s: State, a: Step)
    requires Inv(s) && Enabled(s, a) && (a.ClaimWrite? || a.ClaimRead?)
    ensures Inv(Apply(s, a))
  {
    var s' := Apply(s, a);
    QuietStep(s, s');
    forall t: nat | t < |s'.wr| ensures WriteMeaning(s', t) { if t < |s.wr| { assert WriteMeaning(s, t); } }
    forall t: nat | t < |s'.rd| ensures ReadMeaning(s', t) { if t < |s.rd| { assert ReadMeaning(s, t); } }
  }

  lemma PassWriteKeepsInv(s: State, u: nat)
    requires Inv(s) && Enabled(s, AdvanceWrite(u)) && s.wr[u].phase.Waiting?
    ensures Inv(WriteStep(s, u))
  {
    var s' := WriteStep(s, u);
    assert SlotMeaning(s, Slot(s, u));
    QuietStep(s, s');
    forall t: nat | t < |s'.wr| ensures WriteMeaning(s', t) { assert WriteMeaning(s, t); }
    forall t: nat | t < |s'.rd| ensures ReadMeaning(s', t) { assert ReadMeaning(s, t); }
  }

  /** No other operation that is past its guard uses the slot that enqueue u is filling. */
  lemma FillerOwnsSlot(s: State, u: nat, t: nat)
    requires Inv(s) && u < |s.wr| && s.wr[u].phase.Filling? && Slot(s, t) == Slot(s, u)
    ensures !(IsPublished(s, t) && !IsReleased(s, t))
    ensures t < |s.wr| && s.wr[t].phase.Filling? ==> t == u
    ensures IsReleased(s, t) && !IsPublished(s, t + s.size) ==> t + s.size == u
    ensures t < s.size && !IsPublished(s, t) ==> t == u
  {
    assert WriteMeaning(s, u) && TicketMeaning(s, t);
    SlotNext(t, s.size);
    if t < |s.wr| { assert WriteMeaning(s, t); }
  }

  lemma StoreWordKeepsInv(s: State, u: nat)
    requires Inv(s) && Enabled(s, AdvanceWrite(u)) && s.wr[u].phase.Filling? && s.wr[u].phase.stored < s.words
    ensures Inv(WriteStep(s, u))
  {
    var s' := WriteStep(s, u);
    var k := s.wr[u].phase.stored;
    QuietStep(s, s');
    forall t: nat | t < |s'.wr| ensures WriteMeaning(s', t) {
      assert WriteMeaning(s, t);
      if Slot(s, t) == Slot(s, u) { FillerOwnsSlot(s, u, t); }
      if t == u {
        var d := s'.data[Slot(s, u)];
        assert d[..k + 1] == s.data[Slot(s, u)][..k] + [s.wr[u].value[k]];
      }
    }
    forall t: nat | t < |s'.rd| ensures ReadMeaning(s', t) { assert ReadMeaning(s, t); }
  }

  lemma PublishSlot(s: State, u: nat, i: nat)
    requires Inv(s) && Enabled(s, AdvanceWrite(u)) && s.wr[u].phase == Filling(s.words) && i < s.size
    ensures SlotMeaning(WriteStep(s, u), i)
  {
    if i == Slot(s, u) {
      SlotNext(u, s.size);
      if u < |s.rd| { assert ReadMeaning(s, u); }
    } else {
      assert SlotMeaning(s, i);
    }
  }

  lemma PublishTicket(s: State, u: nat, t: nat)
    requires Inv(s) && Enabled(s, AdvanceWrite(u)) && s.wr[u].phase == Filling(s.words)
    ensures TicketMeaning(WriteStep(s, u), t)
  {
    assert TicketMeaning(s, t);
    if Slot(s, t) == Slot(s, u) { FillerOwnsSlot(s, u, t); }
  }

  lemma PublishKeepsInv(s: State, u: nat)
    requires Inv(s) && Enabled(s, AdvanceWrite(u)) && s.wr[u].phase == Filling(s.words)
    ensures Inv(WriteStep(s, u))
  {
    var s' := WriteStep(s, u);
    forall i: nat | i < s'.size ensures SlotMeaning(s', i) { PublishSlot(s, u, i); }
    forall t: nat ensures TicketMeaning(s', t) { PublishTicket(s, u, t); }
    forall t: nat | t < |s'.wr| ensures WriteMeaning(s', t) {
      assert WriteMeaning(s, t);
      if Slot(s, t) == Slot(s, u) { FillerOwnsSlot(s, u, t); }
      if t == u { assert s.data[Slot(s, u)][..s.words] == s.data[Slot(s, u)]; }
    }
    forall t: nat | t < |s'.rd| ensures ReadMeaning(s', t) { assert ReadMeaning(s, t); }
  }

  lemma PassReadKeepsInv(s: State, u: nat)
    requires Inv(s) && Enabled(s, AdvanceRead(u)) && s.rd[u].phase.Awaiting?
    ensures Inv(ReadStep(s, u))
  {
    var s' := ReadStep(s, u);
    QuietStep(s, s');
    SlotNext(u, s.size);
    assert SlotMeaning(s, Slot(s, u));
    forall t: nat | t < |s'.wr| ensures WriteMeaning(s', t) { assert WriteMeaning(s, t); }
    forall t: nat | t < |s'.rd| ensures ReadMeaning(s', t) { assert ReadMeaning(s, t); }
  }

  lemma CopyWordKeepsInv(s: State, u: nat)
    requires Inv(s) && Enabled(s, AdvanceRead(u)) && s.rd[u].phase.Copying? && |s.rd[u].phase.copy| < s.words
    ensures Inv(ReadStep(s, u))
  {
    var s' := ReadStep(s, u);
    QuietStep(s, s');
    forall t: nat | t < |s'.wr| ensures WriteMeaning(s', t) { assert WriteMeaning(s, t); }
    assert ReadMeaning(s, u) && WriteMeaning(s, u);
    forall t: nat | t < |s'.rd| ensures ReadMeaning(s', t) { assert ReadMeaning(s, t); }
  }

  /** No other operation that is past its guard uses the slot that dequeue u is copying. */
  lemma CopierOwnsSlot(s: State, u: nat, t: nat)
    requires Inv(s) && u < |s.rd| && s.rd[u].phase.Copying? && Slot(s, t) == Slot(s, u)
    ensures IsPublished(s, t) && !IsReleased(s, t) ==> t == u
    ensures !(t < |s.wr| && s.wr[t].phase.Filling?)
    ensures !(IsReleased(s, t) && !IsPublished(s, t + s.size))
    ensures !(t < s.size && !IsPublished(s, t))
  {
    assert ReadMeaning(s, u) && TicketMeaning(s, u) && TicketMeaning(s, t);
    SlotNext(u, s.size);
    if t < |s.wr| { assert WriteMeaning(s, t); }
  }

  lemma ReleaseSlot(s: State, u: nat, i: nat)
    requires Inv(s) && Enabled(s, AdvanceRead(u)) && s.rd[u].phase.Copying? && |s.rd[u].phase.copy| == s.words
    requires i < s.size
    ensures SlotMeaning(ReadStep(s, u), i)
  {
    if i == Slot(s, u) {
      if u + s.size < |s.wr| { assert WriteMeaning(s, u + s.size); }
    } else {
      assert SlotMeaning(s, i);
    }
  }

  lemma ReleaseTicket(s: State, u: nat, t: nat)
    requires Inv(s) && Enabled(s, AdvanceRead(u)) && s.rd[u].phase.Copying? && |s.rd[u].phase.copy| == s.words
    ensures TicketMeaning(ReadStep(s, u), t)
  {
    assert TicketMeaning(s, t) && ReadMeaning(s, u);
    if Slot(s, t) == Slot(s, u) { CopierOwnsSlot(s, u, t); }
  }

  lemma ReleaseKeepsInv(s: State, u: nat)
    requires Inv(s) && Enabled(s, AdvanceRead(u)) && s.rd[u].phase.Copying? && |s.rd[u].phase.copy| == s.words
    ensures Inv(ReadStep(s, u))
  {
    var s' := ReadStep(s, u);
    forall i: nat | i < s'.size ensures SlotMeaning(s', i) { ReleaseSlot(s, u, i); }
    forall t: nat ensures TicketMeaning(s', t) { ReleaseTicket(s, u, t); }
    forall t: nat | t < |s'.wr| ensures WriteMeaning(s', t) {
      assert WriteMeaning(s, t);
      if Slot(s, t) == Slot(s, u) { CopierOwnsSlot(s, u, t); }
    }
    forall t: nat | t < |s'.rd| ensures ReadMeaning(s', t) { assert ReadMeaning(s, t); }
  }

  lemma WriteKeepsInv(s: State, u: nat)
    requires Inv(s) && Enabled(s, AdvanceWrite(u))
    ensures Inv(WriteStep(s, u))
  {
    assert WriteOpShape(s.wr[u], s.words);
    if s.wr[u].phase.Waiting? {
      PassWriteKeepsInv(s, u);
    } else if s.wr[u].phase.stored < s.words {
      StoreWordKeepsInv(s, u);
    } else {
      PublishKeepsInv(s, u);
    }
  }

  lemma ReadKeepsInv(s: State, u: nat)
    requires Inv(s) && Enabled(s, AdvanceRead(u))
    ensures Inv(ReadStep(s, u))
  {
    assert ReadOpShape(s.rd[u], s.words);
    if s.rd[u].phase.Awaiting? {
      PassReadKeepsInv(s, u);
    } else if |s.rd[u].phase.copy| < s.words {
      CopyWordKeepsInv(s, u);
    } else {
      ReleaseKeepsInv(s, u);
    }
  }

  lemma StepKeepsInv(s: State, a: Step)
    requires Inv(s) && Enabled(s, a)
    ensures Inv(Apply(s, a))
  {
    match a
    case ClaimWrite(_, _) => ClaimKeepsInv(s, a);
    case ClaimRead(_) => ClaimKeepsInv(s, a);
    case AdvanceWrite(t) => WriteKeepsInv(s, t);
    case AdvanceRead(t) => ReadKeepsInv(s, t);
  }

  /** The invariant holds in every state of every run. */
  lemma {:induction false} RunKeepsInv(s: State, steps: seq<Step>)
    requires Inv(s) && Legal(s, steps)
    ensures Inv(Run(s, steps))
    decreases |steps|
  {
    if steps == [] {
    } else {
      StepKeepsInv(s, steps[0]);
      RunKeepsInv(Apply(s, steps[0]), steps[1..]);
    }
  }
}
