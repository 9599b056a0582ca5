/** The ring buffer as an object: arrays updated in place by one method per atomic access, and the
    operations of the public interface as loops over those accesses, run against an arbitrary
    schedule of what the other threads do in between. */
module RingBuffer {
  import opened Ring
  import opened Bits
  import opened RingFifo
  import opened RingReset

  /** The thread that takes a step. */
  function Actor(s: State, a: Step): (th: ThreadId)
    requires Enabled(s, a)
  {
    match a
    case ClaimWrite(th, _) => th
    case ClaimRead(th) => th
    case AdvanceWrite(t) => s.wr[t].owner
    case AdvanceRead(t) => s.rd[t].owner
  }

  /** What thread self can rely on while only others move from s to r. */
  ghost predicate OthersMoved(s: State, r: State, self: ThreadId) {
    && r.size == s.size && r.words == s.words
    && |s.wr| <= |r.wr| && |s.rd| <= |r.rd|
    && (forall t | 0 <= t < |s.wr| ::
          && r.wr[t].owner == s.wr[t].owner && r.wr[t].value == s.wr[t].value
          && (s.wr[t].owner == self ==> r.wr[t] == s.wr[t]))
    && (forall t | 0 <= t < |s.rd| :: r.rd[t].owner == s.rd[t].owner && (s.rd[t].owner == self ==> r.rd[t] == s.rd[t]))
    && (forall t | |s.wr| <= t < |r.wr| :: r.wr[t].owner != self)
    && (forall t | |s.rd| <= t < |r.rd| :: r.rd[t].owner != self)
  }

  lemma OtherStep(s0: State, s: State, a: Step, self: ThreadId)
    requires Shape(s) && OthersMoved(s0, s, self) && Enabled(s, a) && Actor(s, a) != self
    ensures OthersMoved(s0, Apply(s, a), self)
  {
  }

  /** The trace leads from s to r. */
  ghost predicate Reached(s: State, trace: seq<Step>, r: State) {
    Shape(s) && Legal(s, trace) && Run(s, trace) == r
  }

  lemma ReachedJoin(s: State, xs: seq<Step>, m: State, ys: seq<Step>, r: State)
    requires Reached(s, xs, m) && Reached(m, ys, r)
    ensures Reached(s, xs + ys, r)
  {
    RunAppend(s, xs, ys);
  }

  lemma ReachedStep(s: State, xs: seq<Step>, m: State, a: Step)
    requires Reached(s, xs, m) && Enabled(m, a)
    ensures Reached(s, xs + [a], Apply(m, a))
  {
    RunSnoc(s, xs, a);
  }

  /** A burst of others followed by an own step. */
  lemma ReachedMore(s: State, xs: seq<Step>, m: State, burst: seq<Step>, r: State, a: Step)
    requires Reached(s, xs, m) && Reached(m, burst, r) && Enabled(r, a)
    ensures Reached(s, xs + burst + [a], Apply(r, a))
  {
    ReachedJoin(s, xs, m, burst, r);
    ReachedStep(s, xs + burst, r, a);
  }

  /** Every operation of self is finished, except possibly the dequeue that holds ticket t. */
  ghost predicate OnlyRead(s: State, self: ThreadId, t: nat) {
    && (forall u | 0 <= u < |s.wr| && s.wr[u].owner == self :: s.wr[u].phase.Published?)
    && (forall u | 0 <= u < |s.rd| && s.rd[u].owner == self && u != t :: s.rd[u].phase.Returned?)
  }

  /** The burst starts no dequeue, or no enqueue. */
  ghost predicate NoClaims(burst: seq<Step>, dequeues: bool) {
    forall i | 0 <= i < |burst| :: if dequeues then !burst[i].ClaimRead? else !burst[i].ClaimWrite?
  }

  /** Only claims move the counters. */
  lemma {:induction false} ClaimsCount(s: State, steps: seq<Step>)
    requires Shape(s) && Legal(s, steps)
    ensures NoClaims(steps, true) ==> |Run(s, steps).rd| == |s.rd|
    ensures NoClaims(steps, false) ==> |Run(s, steps).wr| == |s.wr|
    decreases |steps|
  {
    if steps == [] {
    } else {
      ClaimsCount(Apply(s, steps[0]), steps[1..]);
    }
  }

  /** No other thread dequeues. */
  ghost predicate NoClaimRead(env: nat -> seq<Step>) {
    forall n: nat :: NoClaims(env(n), true)
  }

  /** What every step keeps: tickets keep their owner and their submitted value, and what is published
      or released stays so. */
  ghost predicate Grew(s: State, r: State) {
    && r.size == s.size && r.words == s.words
    && |s.wr| <= |r.wr| && |s.rd| <= |r.rd|
    && (forall t | 0 <= t < |s.wr| :: r.wr[t].owner == s.wr[t].owner && r.wr[t].value == s.wr[t].value)
    && (forall t: nat | IsPublished(s, t) :: IsPublished(r, t))
    && (forall t: nat | IsReleased(s, t) :: IsReleased(r, t))
    && (forall t | 0 <= t < |s.rd| :: r.rd[t].owner == s.rd[t].owner)
  }

  lemma StepGrows(s: State, a: Step)
    requires Shape(s) && Enabled(s, a)
    ensures Grew(s, Apply(s, a))
  {
  }

  lemma {:induction false} RunGrows(s: State, steps: seq<Step>)
    requires Shape(s) && Legal(s, steps)
    ensures Grew(s, Run(s, steps))
    decreases |steps|
  {
    if steps == [] {
    } else {
      StepGrows(s, steps[0]);
      RunGrows(Apply(s, steps[0]), steps[1..]);
    }
  }

  /** The first k tickets from r on are published. */
  ghost predicate PublishedFrom(s: State, r: nat, k: nat) {
    forall t: nat | r <= t < r + k :: IsPublished(s, t)
  }

  /** The slot of write ticket t is free for it: its first user, or after the release one round before. */
  predicate SlotFreed(s: State, t: nat) {
    t < s.size || IsReleased(s, t - s.size)
  }

  /** A dequeue whose value is published passes its guard, however long ago that was. */
  lemma PublishedMeansGuard(s: State, trace: seq<Step>, r: State, t: nat)
    requires Reached(s, trace, r) && Inv(r) && IsPublished(s, t) && !IsReleased(r, t)
    ensures ReadGuard(r, t)
  {
    RunGrows(s, trace);
    assert TicketMeaning(r, t);
  }

  /** An enqueue whose slot has been freed passes its guard. */
  lemma FreedMeansGuard(s: State, trace: seq<Step>, r: State, t: nat)
    requires Reached(s, trace, r) && Inv(r) && SlotFreed(s, t) && !IsPublished(r, t)
    ensures WriteGuard(r, t)
  {
    RunGrows(s, trace);
    assert TicketMeaning(r, t);
    if t >= s.size { assert TicketMeaning(r, t - s.size); }
  }

  /** With nothing in flight and a free slot, the next enqueue passes its guard at once. */
  lemma RoomMeansGuard(s: State)
    requires Inv(s) && Quiescent(s) && |s.wr| < |s.rd| + s.size
    ensures WriteGuard(s, |s.wr|)
  {
    var t := |s.wr|;
    assert TicketMeaning(s, t);
    if t >= s.size {
      assert TicketMeaning(s, t - s.size);
    }
  }

  /** The batch consists of the values submitted under the tickets from r on. */
  ghost predicate Holds(s: State, r: nat, batch: seq<Payload>) {
    batch != [] ==> r + |batch| <= |s.wr| && forall i | 0 <= i < |batch| :: batch[i] == s.wr[r + i].value
  }

  lemma HoldsMore(s: State, steps: seq<Step>, s': State, r: nat, batch: seq<Payload>)
    requires Reached(s, steps, s') && Holds(s, r, batch)
    ensures Holds(s', r, batch)
  {
    RunGrows(s, steps);
  }

  lemma HoldsNext(s: State, r: nat, batch: seq<Payload>, v: Payload)
    requires Holds(s, r, batch) && r + |batch| < |s.wr| && v == s.wr[r + |batch|].value
    ensures Holds(s, r, batch + [v])
  {
  }

  lemma PublishedStays(s: State, steps: seq<Step>, s': State, r: nat, n: nat)
    requires Reached(s, steps, s') && !IsPublished(s', r + n)
    ensures forall k: nat | PublishedFrom(s, r, k) :: k <= n
  {
    RunGrows(s, steps);
    forall k: nat | PublishedFrom(s, r, k) ensures k <= n {
      assert !IsPublished(s, r + n);
    }
  }

  /** Items taken from ticket r on, followed by what is still queued, are the submissions from r on. */
  lemma BatchPrefix(s: State, r: nat, batch: seq<Payload>)
    requires r + |batch| == |s.rd| && Holds(s, r, batch)
    ensures batch != [] ==> batch + Queue(s) == Values(s.wr)[r..]
  {
    if batch != [] { assert Values(s.wr)[r..] == Values(s.wr)[r..|s.rd|] + Values(s.wr)[|s.rd|..]; }
  }

  /** Two loads do not see one moment: if between them others both enqueue and dequeue, isEmpty can find the
      counters equal although the queue is not empty at any moment from the first load to the second. */
  lemma EmptyWithoutEmptyQueue(words: nat, stale: seq<Payload>) returns (before: seq<Step>, burst: seq<Step>)
    requires GoodStart(words, stale)
    ensures Legal(Init(words, stale), before)
    ensures
      var s := Run(Init(words, stale), before);
      && Legal(s, burst) && |Run(s, burst).rd| == |s.wr|
      && forall k: nat | k <= |burst| :: Legal(s, burst[..k]) && Queue(Run(s, burst[..k])) != []
  {
    var s0, v := Init(words, stale), stale[0];
    before := [] + [ClaimWrite(1, v)];
    RunSnoc(s0, [], ClaimWrite(1, v));
    var s := Run(s0, before);
    var one := [] + [ClaimWrite(2, v)];
    RunSnoc(s, [], ClaimWrite(2, v));
    burst := one + [ClaimRead(3)];
    RunSnoc(s, one, ClaimRead(3));
    forall k: nat | k <= |burst| ensures Legal(s, burst[..k]) && Queue(Run(s, burst[..k])) != [] {
      assert burst[..0] == [] && burst[..1] == one && burst[..2] == burst;
      assert k == 0 || k == 1 || k == 2;
    }
  }

  /** A copy of all words is the value submitted under the ticket. */
  lemma CopiedWhole(s: State, t: nat, value: Payload)
    requires Inv(s) && t < |s.rd| && s.rd[t].phase == Copying(value) && |value| == s.words
    ensures t < |s.wr| && value == s.wr[t].value
  {
    assert ReadMeaning(s, t) && WriteOpShape(s.wr[t], s.words);
  }

  const INT_LIMIT: nat := 0x8000_0000

  /** The program's int. */
  type Int32 = x: int | 0 - INT_LIMIT <= x < INT_LIMIT

  /** The conversion of an int to an unsigned 64-bit number. */
  function Unsigned(x: Int32): (u: nat) {
    if x < 0 then x + 0x1_0000_0000_0000_0000 else x
  }

  class AtomicRingBuffer {
    const size: nat
    const words: nat
    const batchSize: nat
    const seqs: array<nat>
    const data: array<Payload>
    const batchArray: array<Payload>
    var writeTicket: nat
    var readTicket: nat
    // The local variables of every operation, in claim order, and the order of returns.
    var wr: seq<WriteOp>
    var rd: seq<ReadOp>
    var log: seq<nat>

    function Model(): (s: State)
      reads this, seqs, data
    {
      State(size, words, seqs[..], data[..], wr, rd, log)
    }

    ghost predicate Valid()
      reads this, seqs, data
    {
      && SizeTest(size)
      && data != batchArray
      && batchArray.Length == batchSize < INT_LIMIT
      && writeTicket == |wr|
      && readTicket == |rd|
      && Inv(Model())
    }

    constructor (size: nat, words: nat, batchSize: nat, zero: Payload)
      requires SizeTest(size) && size >= 2 && |zero| == words && batchSize < INT_LIMIT
      ensures Valid() && this.size == size && this.words == words && this.batchSize == batchSize
      ensures Model() == Init(words, seq(size, _ => zero))
      ensures fresh(seqs) && fresh(data) && fresh(batchArray)
    {
      this.size, this.words, this.batchSize := size, words, batchSize;
      seqs := new nat[size](_ => 0);
      data := new Payload[size](_ => zero);
      batchArray := new Payload[batchSize](_ => zero);
      writeTicket, readTicket := 0, 0;
      wr, rd, log := [], [], [];
      new;
      PrepareBuffer();
      InitInv(words, data[..]);
      assert data[..] == seq(size, _ => zero);
    }

    /** Slot i expects ticket i. */
    method PrepareBuffer()
      requires seqs.Length == size
      modifies seqs
      ensures seqs[..] == seq(size, i => i)
    {
      for i := 0 to size
        invariant forall j | 0 <= j < i :: seqs[j] == j
      {
        seqs[i] := i;
      }
    }

    /** The slot of a ticket, by bit mask. */
    method Index(ticket: nat) returns (i: nat)
      requires Valid()
      ensures i == Slot(Model(), ticket)
    {
      i := BitAnd(ticket, size - 1);
      SizeTestIsPowerOfTwo(size);
      var k: nat :| size == Pow2(k);
      MaskIsSlot(ticket, k);
    }

    /* ---------------------- One method per atomic access ---------------------- */

    method FetchAddWrite(self: ThreadId, value: Payload) returns (ticket: nat)
      requires Valid() && Enabled(Model(), ClaimWrite(self, value))
      modifies this
      ensures Valid() && ticket == old(writeTicket)
      ensures Model() == Apply(old(Model()), ClaimWrite(self, value))
    {
      ghost var s := Model();
      ticket := writeTicket;
      writeTicket := writeTicket + 1;
      wr := wr + [WriteOp(self, value, Waiting)];
      StepKeepsInv(s, ClaimWrite(self, value));
    }

    method LoadForWrite(ticket: nat) returns (pass: bool)
      requires Valid() && ticket < |wr| && wr[ticket].phase.Waiting?
      modifies this
      ensures Valid() && pass == WriteGuard(old(Model()), ticket)
      ensures Model() == Apply(old(Model()), AdvanceWrite(ticket))
    {
      ghost var s := Model();
      var i := Index(ticket);
      pass := seqs[i] == ticket;
      if pass { wr := wr[ticket := wr[ticket].(phase := Filling(0))]; }
      StepKeepsInv(s, AdvanceWrite(ticket));
    }

    method StoreWord(ticket: nat, k: nat, w: Word)
      requires Valid() && ticket < |wr| && wr[ticket].phase == Filling(k) && k < words && w == wr[ticket].value[k]
      modifies this, data
      ensures Valid()
      ensures Model() == Apply(old(Model()), AdvanceWrite(ticket))
    {
      ghost var s := Model();
      var i := Index(ticket);
      data[i] := data[i][k := w];
      wr := wr[ticket := wr[ticket].(phase := Filling(k + 1))];
      StepKeepsInv(s, AdvanceWrite(ticket));
      assert data[..] == s.data[i := s.data[i][k := w]];
    }

    method StorePublish(ticket: nat)
      requires Valid() && ticket < |wr| && wr[ticket].phase == Filling(words)
      modifies this, seqs
      ensures Valid()
      ensures Model() == Apply(old(Model()), AdvanceWrite(ticket))
    {
      ghost var s := Model();
      var i := Index(ticket);
      seqs[i] := ticket + 1;
      wr := wr[ticket := wr[ticket].(phase := Published)];
      StepKeepsInv(s, AdvanceWrite(ticket));
      assert seqs[..] == s.seqs[i := ticket + 1];
    }

    method FetchAddRead(self: ThreadId) returns (ticket: nat)
      requires Valid() && Enabled(Model(), ClaimRead(self))
      modifies this
      ensures Valid() && ticket == old(readTicket)
      ensures Model() == Apply(old(Model()), ClaimRead(self))
    {
      ghost var s := Model();
      ticket := readTicket;
      readTicket := readTicket + 1;
      rd := rd + [ReadOp(self, Awaiting)];
      StepKeepsInv(s, ClaimRead(self));
    }

    method LoadForRead(ticket: nat) returns (pass: bool)
      requires Valid() && ticket < |rd| && rd[ticket].phase.Awaiting?
      modifies this
      ensures Valid() && pass == ReadGuard(old(Model()), ticket)
      ensures Model() == Apply(old(Model()), AdvanceRead(ticket))
    {
      ghost var s := Model();
      var i := Index(ticket);
      pass := seqs[i] == ticket + 1;
      if pass { rd := rd[ticket := rd[ticket].(phase := Copying([]))]; }
      StepKeepsInv(s, AdvanceRead(ticket));
    }

    method LoadWord(ticket: nat, k: nat) returns (w: Word)
      requires Valid() && ticket < |rd| && rd[ticket].phase.Copying? && |rd[ticket].phase.copy| == k < words
      modifies this
      ensures Valid()
      ensures Model() == Apply(old(Model()), AdvanceRead(ticket))
      ensures ticket < |rd| && rd[ticket].phase == Copying(old(rd[ticket].phase.copy) + [w])
    {
      ghost var s := Model();
      var i := Index(ticket);
      w := data[i][k];
      rd := rd[ticket := rd[ticket].(phase := Copying(rd[ticket].phase.copy + [w]))];
      StepKeepsInv(s, AdvanceRead(ticket));
    }

    method StoreRelease(ticket: nat, value: Payload)
      requires Valid() && ticket < |rd| && rd[ticket].phase == Copying(value) && |value| == words
      modifies this, seqs
      ensures Valid()
      ensures Model() == Apply(old(Model()), AdvanceRead(ticket))
      ensures ticket < |rd| && rd[ticket].phase == Returned(value)
    {
      ghost var s := Model();
      var i := Index(ticket);
      seqs[i] := ticket + size;
      rd := rd[ticket := rd[ticket].(phase := Returned(value))];
      log := log + [ticket];
      StepKeepsInv(s, AdvanceRead(ticket));
      assert seqs[..] == s.seqs[i := ticket + size];
    }

    /* --------------------------- Other threads --------------------------- */

    /** One step of another thread. */
    method Act(a: Step)
      requires Valid() && Enabled(Model(), a)
      modifies this, seqs, data
      ensures Valid()
      ensures Model() == Apply(old(Model()), a)
    {
      match a {
        case ClaimWrite(th, v) =>
          var _ := FetchAddWrite(th, v);
        case ClaimRead(th) =>
          var _ := FetchAddRead(th);
        case AdvanceWrite(t) =>
          assert WriteOpShape(wr[t], words);
          match wr[t].phase {
            case Waiting => var _ := LoadForWrite(t);
            case Filling(k) => if k < words { StoreWord(t, k, wr[t].value[k]); } else { StorePublish(t); }
          }
        case AdvanceRead(t) =>
          assert ReadOpShape(rd[t], words);
          match rd[t].phase {
            case Awaiting => var _ := LoadForRead(t);
            case Copying(c) => if |c| < words { var _ := LoadWord(t, |c|); } else { StoreRelease(t, c); }
          }
      }
    }

    /** A burst of steps of threads other than self; steps that are not enabled are skipped. */
    method Others(self: ThreadId, burst: seq<Step>) returns (ghost done: seq<Step>)
      requires Valid()
      modifies this, seqs, data
      ensures Valid()
      ensures Reached(old(Model()), done, Model())
      ensures OthersMoved(old(Model()), Model(), self)
      ensures NoClaims(burst, true) ==> |rd| == |old(rd)|
      ensures NoClaims(burst, false) ==> |wr| == |old(wr)|
      ensures burst == [] ==> Model() == old(Model())
    {
      done := [];
      for i := 0 to |burst|
        invariant Valid()
        invariant Reached(old(Model()), done, Model())
        invariant OthersMoved(old(Model()), Model(), self)
        invariant forall j | 0 <= j < |done| :: done[j] in burst
        invariant i == 0 ==> Model() == old(Model())
      {
        if Enabled(Model(), burst[i]) && Actor(Model(), burst[i]) != self {
          OtherStep(old(Model()), Model(), burst[i], self);
          RunSnoc(old(Model()), done, burst[i]);
          Act(burst[i]);
          done := done + [burst[i]];
        }
      }
      ClaimsCount(old(Model()), done);
    }

    /* --------------------------- Public operations --------------------------- */

    /** The guard loop of an enqueue: load the sequence number, with env(n) happening before the
        n-th load, until it matches or `patience` further loads have failed. */
    method SpinForWrite(self: ThreadId, ticket: nat, env: nat -> seq<Step>, patience: nat)
      returns (pass: bool, n: nat, ghost trace: seq<Step>)
      requires Valid() && ticket < |wr| && wr[ticket].owner == self && wr[ticket].phase.Waiting?
      modifies this, seqs, data
      ensures Valid() && Reached(old(Model()), trace, Model())
      ensures ticket < |wr| && wr[ticket] == old(wr[ticket]).(phase := if pass then Filling(0) else Waiting)
      ensures SlotFreed(old(Model()), ticket) ==> pass
      ensures env(0) == [] && WriteGuard(old(Model()), ticket) ==>
                pass && Model() == Apply(old(Model()), AdvanceWrite(ticket))
    {
      ghost var s0 := Model();
      trace := Others(self, env(0));
      if SlotFreed(s0, ticket) { FreedMeansGuard(s0, trace, Model(), ticket); }
      ReachedStep(s0, trace, Model(), AdvanceWrite(ticket));
      trace := trace + [AdvanceWrite(ticket)];
      pass := LoadForWrite(ticket);
      n := 1;
      while !pass && n <= patience
        invariant Valid() && Reached(s0, trace, Model())
        invariant ticket < |wr| && wr[ticket] == old(wr[ticket]).(phase := if pass then Filling(0) else Waiting)
        invariant SlotFreed(s0, ticket) ==> pass
        invariant env(0) == [] && WriteGuard(s0, ticket) ==> pass && Model() == Apply(s0, AdvanceWrite(ticket))
      {
        ghost var m := Model();
        ghost var burst := Others(self, env(n));
        ReachedMore(s0, trace, m, burst, Model(), AdvanceWrite(ticket));
        trace := trace + burst + [AdvanceWrite(ticket)];
        pass := LoadForWrite(ticket);
        n := n + 1;
      }
    }

    /** The next store of an enqueue that is past its guard, after a burst of others: a word, or the
        sequence number once all words are stored. */
    method StoreNext(self: ThreadId, ticket: nat, k: nat, burst: seq<Step>) returns (ghost trace: seq<Step>)
      requires Valid() && ticket < |wr| && wr[ticket].owner == self && wr[ticket].phase == Filling(k) && k <= words
      modifies this, seqs, data
      ensures Valid() && Reached(old(Model()), trace, Model())
      ensures ticket < |wr|
      ensures wr[ticket] == old(wr[ticket]).(phase := if k < words then Filling(k + 1) else Published)
      ensures burst == [] ==> wr == old(wr)[ticket := wr[ticket]] && rd == old(rd)
    {
      ghost var s0 := Model();
      trace := Others(self, burst);
      ReachedStep(s0, trace, Model(), AdvanceWrite(ticket));
      trace := trace + [AdvanceWrite(ticket)];
      if k < words {
        StoreWord(ticket, k, wr[ticket].value[k]);
      } else {
        StorePublish(ticket);
      }
    }

    /** The stores of an enqueue that is past its guard. */
    method Fill(self: ThreadId, ticket: nat, env: nat -> seq<Step>, start: nat) returns (ghost trace: seq<Step>)
      requires Valid() && ticket < |wr| && wr[ticket].owner == self && wr[ticket].phase == Filling(0)
      modifies this, seqs, data
      ensures Valid() && Reached(old(Model()), trace, Model())
      ensures ticket < |wr| && wr[ticket] == old(wr[ticket]).(phase := Published)
      ensures (forall n :: env(n) == []) ==> wr == old(wr)[ticket := wr[ticket]] && rd == old(rd)
    {
      ghost var s0 := Model();
      trace := [];
      for k := 0 to words + 1
        invariant Valid() && Reached(s0, trace, Model())
        invariant ticket < |wr|
        invariant wr[ticket] == s0.wr[ticket].(phase := if k <= words then Filling(k) else Published)
        invariant (forall n :: env(n) == []) ==> wr == s0.wr[ticket := wr[ticket]] && rd == s0.rd
      {
        ghost var m := Model();
        ghost var more := StoreNext(self, ticket, k, env(start + k));
        ReachedJoin(s0, trace, m, more, Model());
        trace := trace + more;
      }
    }

    /** enqueue: claim a ticket, spin until the slot expects it, store the value, publish it.
        The schedule env says what the other threads do between its accesses; a call that is
        still spinning when its patience ends reports so, and a call whose slot is free when it
        starts returns, whatever the others do.  The moving, the copying and the
        emplacing overload take these same steps. */
    method Enqueue(self: ThreadId, value: Payload, env: nat -> seq<Step>, patience: nat)
      returns (done: bool, ticket: nat, ghost trace: seq<Step>)
      requires Valid() && Enabled(Model(), ClaimWrite(self, value))
      modifies this, seqs, data
      ensures Valid() && Reached(old(Model()), trace, Model())
      ensures trace != [] && trace[0] == ClaimWrite(self, value)
      ensures ticket == |old(wr)| < |wr|
      ensures wr[ticket] == WriteOp(self, value, if done then Published else Waiting)
      ensures SlotFreed(old(Model()), ticket) ==> done
      ensures WriteGuard(old(Model()), ticket) && (forall n :: env(n) == []) ==>
                done && wr == old(wr) + [WriteOp(self, value, Published)] && rd == old(rd)
    {
      ghost var s0 := Model();
      ReachedStep(s0, [], s0, ClaimWrite(self, value));
      trace := [] + [ClaimWrite(self, value)];
      ticket := FetchAddWrite(self, value);
      var n;
      ghost var m, more := Model(), [];
      done, n, more := SpinForWrite(self, ticket, env, patience);
      ReachedJoin(s0, trace, m, more, Model());
      trace := trace + more;
      if done {
        m := Model();
        more := Fill(self, ticket, env, n);
        ReachedJoin(s0, trace, m, more, Model());
        trace := trace + more;
      }
    }

    method SpinForRead(self: ThreadId, ticket: nat, env: nat -> seq<Step>, patience: nat)
      returns (pass: bool, n: nat, ghost trace: seq<Step>)
      requires Valid() && ticket < |rd| && rd[ticket].owner == self && rd[ticket].phase.Awaiting?
      requires OnlyRead(Model(), self, ticket)
      modifies this, seqs, data
      ensures Valid() && Reached(old(Model()), trace, Model())
      ensures ticket < |rd| && rd[ticket] == ReadOp(self, if pass then Copying([]) else Awaiting)
      ensures OnlyRead(Model(), self, ticket)
      ensures IsPublished(old(Model()), ticket) ==> pass
      ensures NoClaimRead(env) ==> |rd| == |old(rd)|
    {
      ghost var s0 := Model();
      trace, n, pass := [], 0, false;
      while !pass && n <= patience
        invariant Valid() && Reached(s0, trace, Model())
        invariant ticket < |rd| && rd[ticket] == ReadOp(self, if pass then Copying([]) else Awaiting)
        invariant OnlyRead(Model(), self, ticket)
        invariant IsPublished(s0, ticket) && n > 0 ==> pass
        invariant NoClaimRead(env) ==> |rd| == |s0.rd|
      {
        ghost var m := Model();
        ghost var burst := Others(self, env(n));
        ReachedJoin(s0, trace, m, burst, Model());
        if IsPublished(s0, ticket) { PublishedMeansGuard(s0, trace + burst, Model(), ticket); }
        ReachedStep(s0, trace + burst, Model(), AdvanceRead(ticket));
        trace := trace + burst + [AdvanceRead(ticket)];
        pass := LoadForRead(ticket);
        n := n + 1;
      }
    }

    /** The next load of a dequeue that is past its guard, after a burst of others. */
    method CopyWord(self: ThreadId, ticket: nat, value: Payload, burst: seq<Step>)
      returns (next: Payload, ghost trace: seq<Step>)
      requires Valid() && ticket < |rd| && rd[ticket] == ReadOp(self, Copying(value)) && |value| < words
      requires OnlyRead(Model(), self, ticket)
      modifies this, seqs, data
      ensures Valid() && Reached(old(Model()), trace, Model())
      ensures ticket < |rd| && rd[ticket] == ReadOp(self, Copying(next)) && |next| == |value| + 1
      ensures OnlyRead(Model(), self, ticket)
      ensures NoClaims(burst, true) ==> |rd| == |old(rd)|
    {
      ghost var s0 := Model();
      trace := Others(self, burst);
      ReachedStep(s0, trace, Model(), AdvanceRead(ticket));
      trace := trace + [AdvanceRead(ticket)];
      var w := LoadWord(ticket, |value|);
      next := value + [w];
    }

    /** The copying of a dequeue that is past its guard, up to but excluding its releasing store. */
    method Copy(self: ThreadId, ticket: nat, env: nat -> seq<Step>, start: nat)
      returns (value: Payload, ghost trace: seq<Step>)
      requires Valid() && ticket < |rd| && rd[ticket] == ReadOp(self, Copying([]))
      requires OnlyRead(Model(), self, ticket)
      modifies this, seqs, data
      ensures Valid() && Reached(old(Model()), trace, Model())
      ensures ticket < |rd| && rd[ticket] == ReadOp(self, Copying(value)) && |value| == words
      ensures ticket < |wr| && value == wr[ticket].value
      ensures OnlyRead(Model(), self, ticket)
      ensures NoClaimRead(env) ==> |rd| == |old(rd)|
    {
      ghost var s0 := Model();
      trace, value := [], [];
      for k := 0 to words
        invariant Valid() && Reached(s0, trace, Model())
        invariant ticket < |rd| && rd[ticket] == ReadOp(self, Copying(value)) && |value| == k
        invariant OnlyRead(Model(), self, ticket)
        invariant NoClaimRead(env) ==> |rd| == |s0.rd|
      {
        ghost var m, more := Model(), [];
        value, more := CopyWord(self, ticket, value, env(start + k));
        ReachedJoin(s0, trace, m, more, Model());
        trace := trace + more;
      }
      ghost var m := Model();
      ghost var burst := Others(self, env(start + words));
      ReachedJoin(s0, trace, m, burst, Model());
      trace := trace + burst;
      CopiedWhole(Model(), ticket, value);
    }

    /** dequeue: claim a ticket, spin until its value is published, copy it out, release the slot.
        A call that returns has the value submitted under its own ticket; a call whose value is
        published when it starts returns, whatever the others do. */
    method Dequeue(self: ThreadId, env: nat -> seq<Step>, patience: nat)
      returns (done: bool, ticket: nat, value: Payload, ghost trace: seq<Step>)
      requires Valid() && Enabled(Model(), ClaimRead(self))
      modifies this, seqs, data
      ensures Valid() && Reached(old(Model()), trace, Model())
      ensures ticket == |old(rd)| < |rd|
      ensures rd[ticket] == ReadOp(self, if done then Returned(value) else Awaiting)
      ensures done ==> ticket < |wr| && value == wr[ticket].value && Idle(Model(), self)
      ensures IsPublished(old(Model()), ticket) ==> done
      ensures done ==> trace != [] && trace[|trace| - 1] == AdvanceRead(ticket)
      ensures NoClaimRead(env) ==> |rd| == ticket + 1
    {
      ghost var s0 := Model();
      ReachedStep(s0, [], s0, ClaimRead(self));
      trace := [] + [ClaimRead(self)];
      ticket := FetchAddRead(self);
      var n;
      ghost var m, more := Model(), [];
      value := [];
      done, n, more := SpinForRead(self, ticket, env, patience);
      ReachedJoin(s0, trace, m, more, Model());
      trace := trace + more;
      if done {
        m := Model();
        value, more := TakeOut(self, ticket, env, n);
        ReachedJoin(s0, trace, m, more, Model());
        trace := trace + more;
      }
    }

    /** The rest of a dequeue that is past its guard: copy the value out and release the slot. */
    method TakeOut(self: ThreadId, ticket: nat, env: nat -> seq<Step>, start: nat)
      returns (value: Payload, ghost trace: seq<Step>)
      requires Valid() && ticket < |rd| && rd[ticket] == ReadOp(self, Copying([]))
      requires OnlyRead(Model(), self, ticket)
      modifies this, seqs, data
      ensures Valid() && Reached(old(Model()), trace, Model())
      ensures trace != [] && trace[|trace| - 1] == AdvanceRead(ticket)
      ensures ticket < |rd| && rd[ticket] == ReadOp(self, Returned(value))
      ensures ticket < |wr| && value == wr[ticket].value && Idle(Model(), self)
      ensures NoClaimRead(env) ==> |rd| == |old(rd)|
    {
      ghost var s0 := Model();
      value, trace := Copy(self, ticket, env, start);
      ReachedStep(s0, trace, Model(), AdvanceRead(ticket));
      trace := trace + [AdvanceRead(ticket)];
      StoreRelease(ticket, value);
    }

    /** The number of items batchDequeue takes, as computed: the signed count is compared as an unsigned
        64-bit number.  So a negative count takes a whole batch, and any other count at most a batch. */
    function Clamp(count: Int32): (n: nat)
      requires batchSize < INT_LIMIT
      ensures n <= batchSize
      ensures 0 <= count <= batchSize ==> n == count
      ensures count < 0 || count > batchSize ==> n == batchSize
    {
      if Unsigned(count) > batchSize then batchSize else count
    }

    /** One round of batchDequeue: dequeue into position i of the batch array, which already holds the
        values of i tickets counted from `first`. */
    method DequeueInto(self: ThreadId, i: nat, ghost first: nat, env: nat -> seq<Step>, patience: nat)
      returns (done: bool, ghost trace: seq<Step>)
      requires Valid() && i < batchSize && Enabled(Model(), ClaimRead(self)) && NoClaimRead(env)
      requires |rd| == first + i && Holds(Model(), first, batchArray[..i])
      modifies this, seqs, data, batchArray
      ensures Valid() && Reached(old(Model()), trace, Model()) && |rd| == |old(rd)| + 1
      ensures done ==> Idle(Model(), self)
      ensures IsPublished(old(Model()), first + i) ==> done
      ensures Holds(Model(), first, batchArray[..if done then i + 1 else i])
      ensures forall k | (if done then i + 1 else i) <= k < batchSize :: batchArray[k] == old(batchArray[k])
    {
      ghost var m, batch := Model(), batchArray[..i];
      var ticket, value;
      done, ticket, value, trace := Dequeue(self, env, patience);
      HoldsMore(m, trace, Model(), first, batch);
      if done {
        HoldsNext(Model(), first, batch, value);
        ghost var after := Model();
        batchArray[i] := value;
        assert Model() == after && batchArray[..i + 1] == batch + [value];
      } else {
        assert batchArray[..i] == batch;
      }
    }

    /** batchDequeue: dequeue into consecutive positions of the batch array.  With a single
        consumer, under every schedule of the producers, the items are exactly the next ones of
        the queue in order, nothing outside the first `taken` positions is written, and the rest
        stays queued in order.  All that was published at the start, up to the count, is taken. */
    method BatchDequeue(self: ThreadId, count: Int32, env: nat -> nat -> seq<Step>, patience: nat)
      returns (done: bool, taken: nat, ghost trace: seq<Step>)
      requires Valid() && Enabled(Model(), ClaimRead(self))
      requires forall i :: NoClaimRead(env(i))
      modifies this, seqs, data, batchArray
      ensures Valid() && Reached(old(Model()), trace, Model())
      ensures taken <= Clamp(count) && (done <==> taken == Clamp(count))
      ensures forall k: nat | k <= Clamp(count) && PublishedFrom(old(Model()), |old(rd)|, k) :: taken >= k
      ensures |rd| == |old(rd)| + taken + if done then 0 else 1
      ensures Holds(Model(), |old(rd)|, batchArray[..taken])
      ensures forall i | taken <= i < batchSize :: batchArray[i] == old(batchArray[i])
      ensures done && taken > 0 ==> batchArray[..taken] + Queue(Model()) == Values(wr)[|old(rd)|..]
    {
      ghost var s0 := Model();
      ghost var first := |rd|;
      trace, taken, done := [], 0, true;
      while taken < Clamp(count)
        invariant Valid() && Reached(s0, trace, Model())
        invariant taken <= Clamp(count) && done && Idle(Model(), self)
        invariant |rd| == first + taken
        invariant Holds(Model(), first, batchArray[..taken])
        invariant forall i | taken <= i < batchSize :: batchArray[i] == old(batchArray[i])
        decreases Clamp(count) - taken
      {
        ghost var m, more, trace0 := Model(), [], trace;
        done, more := DequeueInto(self, taken, first, env(taken), patience);
        ReachedJoin(s0, trace, m, more, Model());
        trace := trace + more;
        if !done {
          PublishedStays(s0, trace0, m, first, taken);
          return;
        }
        taken := taken + 1;
      }
      BatchPrefix(Model(), first, batchArray[..taken]);
    }

    /** isEmpty loads the write counter, then the read counter, with `burst` of the others in between.
        It says "empty" exactly when all that was submitted by its first load, and nothing else, is
        claimed by its second.  Unless others both submit and claim in between, there was then a
        moment with an empty queue (`EmptyWithoutEmptyQueue` shows the exception).
        To the only consumer, "not empty" stays true until it dequeues. */
    method IsEmpty(self: ThreadId, burst: seq<Step>) returns (empty: bool, ghost trace: seq<Step>)
      requires Valid()
      modifies this, seqs, data
      ensures Valid() && Reached(old(Model()), trace, Model())
      ensures empty <==> |rd| == |old(wr)|
      ensures empty && (NoClaims(burst, true) || NoClaims(burst, false)) ==>
                Queue(old(Model())) == [] || Queue(Model()) == []
      ensures !empty && NoClaims(burst, true) && |old(rd)| <= |old(wr)| ==> Queue(Model()) != []
    {
      var w := writeTicket;
      trace := Others(self, burst);
      empty := w == readTicket;
    }

    /** clearBuffer, called with nothing in flight, leaves the ring as constructed except for the
        stale slot contents. */
    method ClearBuffer()
      requires Valid() && Quiescent(Model())
      modifies this, seqs
      ensures Valid() && Model() == Clear(old(Model()))
    {
      writeTicket := 0;
      readTicket := 0;
      wr, rd, log := [], [], [];
      PrepareBuffer();
      InitInv(words, data[..]);
    }
  }
}
