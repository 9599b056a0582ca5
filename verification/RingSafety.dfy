/** Who may touch a slot, how full the ring can get, and why the size must be at least two. */
module RingSafety {
  import opened Bits
  import opened Ring

  ghost predicate WriterInside(s: State, t: nat) {
    t < |s.wr| && s.wr[t].phase.Filling?
  }

  ghost predicate ReaderInside(s: State, t: nat) {
    t < |s.rd| && s.rd[t].phase.Copying?
  }

  /** Slot exclusivity and integrity, in every state of every run: operations past their guard
      never share a slot, no sequence number lets both a producer and a consumer pass there, a
      consumer inside a slot finds the whole submitted payload there and has copied a prefix of
      it, and a producer inside a slot is overwriting a value that has already been returned. */
  lemma SlotExclusive(words: nat, stale: seq<Payload>, steps: seq<Step>, t: nat, u: nat)
    requires GoodStart(words, stale) && Legal(Init(words, stale), steps)
    ensures
      var s := Run(Init(words, stale), steps);
      && (Slot(s, t) == Slot(s, u) ==>
            && (WriterInside(s, t) && WriterInside(s, u) ==> t == u)
            && (ReaderInside(s, t) && ReaderInside(s, u) ==> t == u)
            && !(WriterInside(s, t) && ReaderInside(s, u))
            && !(WriteGuard(s, t) && ReadGuard(s, u)))
      && (ReaderInside(s, u) ==>
            u < |s.wr| && s.data[Slot(s, u)] == s.wr[u].value && s.rd[u].phase.copy <= s.wr[u].value)
      && (WriterInside(s, t) && t >= s.size ==>
            t - s.size < |s.rd| && s.rd[t - s.size].phase == Returned(s.wr[t - s.size].value))
  {
    var s := Run(Init(words, stale), steps);
    InitInv(words, stale);
    RunKeepsInv(Init(words, stale), steps);
    SlotNext(u, s.size);
    if WriterInside(s, t) {
      assert WriteMeaning(s, t);
      if t >= s.size { assert ReadMeaning(s, t - s.size); }
    }
    if ReaderInside(s, u) { assert ReadMeaning(s, u) && WriteMeaning(s, u); }
    if Slot(s, t) == Slot(s, u) && WriterInside(s, t) { FillerOwnsSlot(s, t, u); }
    if Slot(s, t) == Slot(s, u) && ReaderInside(s, u) { CopierOwnsSlot(s, u, t); }
    if ReaderInside(s, t) { assert ReadMeaning(s, t); }
  }

  /* ---------------------------- Backlog ---------------------------- */

  function PendingWrites(wr: seq<WriteOp>): (n: nat) {
    if wr == [] then 0
    else PendingWrites(wr[..|wr| - 1]) + if wr[|wr| - 1].phase.Published? then 0 else 1
  }

  function PendingReads(rd: seq<ReadOp>): (n: nat) {
    if rd == [] then 0
    else PendingReads(rd[..|rd| - 1]) + if rd[|rd| - 1].phase.Returned? then 0 else 1
  }

  lemma {:induction false} PendingWriteSuffix(wr: seq<WriteOp>, k: nat)
    requires k <= |wr| && forall t | k <= t < |wr| :: !wr[t].phase.Published?
    ensures |wr| - k <= PendingWrites(wr)
  {
    if k == |wr| {
    } else {
      PendingWriteSuffix(wr[..|wr| - 1], k);
    }
  }

  lemma {:induction false} PendingReadSuffix(rd: seq<ReadOp>, k: nat)
    requires k <= |rd| && forall t | k <= t < |rd| :: !rd[t].phase.Returned?
    ensures |rd| - k <= PendingReads(rd)
  {
    if k == |rd| {
    } else {
      PendingReadSuffix(rd[..|rd| - 1], k);
    }
  }

  /** The published values that no dequeue has released yet. */
  ghost function Occupied(s: State): (ts: set<nat>) {
    set t: nat | t < |s.wr| && IsPublished(s, t) && !IsReleased(s, t)
  }

  lemma {:induction false} SlotPigeonhole(ts: set<nat>, slots: set<nat>, n: nat)
    requires n > 0
    requires forall t | t in ts :: SlotOf(t, n) in slots
    requires forall t, u | t in ts && u in ts && SlotOf(t, n) == SlotOf(u, n) :: t == u
    ensures |ts| <= |slots|
    decreases ts
  {
    if ts == {} {
    } else {
      var t :| t in ts;
      SlotPigeonhole(ts - {t}, slots - {SlotOf(t, n)}, n);
    }
  }

  function Upto(n: nat): (r: set<nat>)
    ensures forall i: nat :: i in r <==> i < n
    ensures |r| == n
  {
    if n == 0 then {} else Upto(n - 1) + {n - 1}
  }

  /** The backlog is bounded by the operations in flight, and at most `size` values are stored. */
  lemma BacklogBound(words: nat, stale: seq<Payload>, steps: seq<Step>)
    requires GoodStart(words, stale) && Legal(Init(words, stale), steps)
    ensures
      var s := Run(Init(words, stale), steps);
      && |s.rd| <= |s.wr| + PendingReads(s.rd) && |s.wr| <= |s.rd| + |stale| + PendingWrites(s.wr)
      && |Occupied(s)| <= |stale|
  {
    InitInv(words, stale);
    RunKeepsInv(Init(words, stale), steps);
    RunKeepsSize(Init(words, stale), steps);
    BacklogBoundInv(Run(Init(words, stale), steps));
  }

  lemma {:induction false} RunKeepsSize(s: State, steps: seq<Step>)
    requires Shape(s) && Legal(s, steps)
    ensures Run(s, steps).size == s.size && Run(s, steps).words == s.words
    decreases |steps|
  {
    if steps == [] {
    } else {
      RunKeepsSize(Apply(s, steps[0]), steps[1..]);
    }
  }

  lemma BacklogBoundInv(s: State)
    requires Inv(s)
    ensures |s.rd| <= |s.wr| + PendingReads(s.rd) && |s.wr| <= |s.rd| + s.size + PendingWrites(s.wr)
    ensures |Occupied(s)| <= s.size
  {
    if |s.rd| + s.size < |s.wr| {
      forall t: nat | |s.rd| + s.size <= t < |s.wr| ensures !s.wr[t].phase.Published? { assert WriteMeaning(s, t); }
      PendingWriteSuffix(s.wr, |s.rd| + s.size);
    }
    if |s.wr| < |s.rd| {
      forall t: nat | |s.wr| <= t < |s.rd| ensures !s.rd[t].phase.Returned? { assert ReadMeaning(s, t); }
      PendingReadSuffix(s.rd, |s.wr|);
    }
    forall t, u | t in Occupied(s) && u in Occupied(s) && SlotOf(t, s.size) == SlotOf(u, s.size) ensures t == u {
      assert TicketMeaning(s, t) && TicketMeaning(s, u);
    }
    SlotPigeonhole(Occupied(s), Upto(s.size), s.size);
  }

  /* ---------------------------- Size one ---------------------------- */

  /** Every published value that has not been returned is still in its slot. */
  ghost predicate KeepsUnread(s: State)
    requires Shape(s)
  {
    forall t: nat | IsPublished(s, t) && !IsReleased(s, t) :: s.data[Slot(s, t)] == s.wr[t].value
  }

  ghost predicate SizeIsSafe(n: nat) {
    forall words: nat, stale: seq<Payload>, steps: seq<Step> |
      |stale| == n > 0 && Shape(Init(words, stale)) && Legal(Init(words, stale), steps) ::
      KeepsUnread(Run(Init(words, stale), steps))
  }

  /** With one slot, the second enqueue passes its guard on the value published by the first
      and overwrites it unread. */
  lemma SizeOneOverwrites() returns (s0: State, steps: seq<Step>)
    ensures s0 == Init(1, [[0]]) && Shape(s0) && Legal(s0, steps) && !KeepsUnread(Run(s0, steps))
  {
    s0 := Init(1, [[0]]);
    var s1 := Apply(s0, ClaimWrite(0, [7]));
    var s2 := Apply(s1, AdvanceWrite(0));
    var s3 := Apply(s2, AdvanceWrite(0));
    var s4 := Apply(s3, AdvanceWrite(0));
    assert s4.wr == [WriteOp(0, [7], Published)] && s4.seqs == [1];
    var s5 := Apply(s4, ClaimWrite(0, [8]));
    assert SlotOf(1, 1) == 0;
    var s6 := Apply(s5, AdvanceWrite(1));
    var s7 := Apply(s6, AdvanceWrite(1));
    assert s7.data[0] == [8] && IsPublished(s7, 0) && !IsReleased(s7, 0);
    RunCons(s6, AdvanceWrite(1), []);
    RunCons(s5, AdvanceWrite(1), [AdvanceWrite(1)]);
    var later := [ClaimWrite(0, [8])] + ([AdvanceWrite(1)] + [AdvanceWrite(1)]);
    RunCons(s4, ClaimWrite(0, [8]), [AdvanceWrite(1)] + [AdvanceWrite(1)]);
    RunCons(s3, AdvanceWrite(0), later);
    RunCons(s2, AdvanceWrite(0), [AdvanceWrite(0)] + later);
    RunCons(s1, AdvanceWrite(0), [AdvanceWrite(0)] + ([AdvanceWrite(0)] + later));
    steps := [ClaimWrite(0, [7])] + ([AdvanceWrite(0)] + ([AdvanceWrite(0)] + ([AdvanceWrite(0)] + later)));
    RunCons(s0, ClaimWrite(0, [7]), [AdvanceWrite(0)] + ([AdvanceWrite(0)] + ([AdvanceWrite(0)] + later)));
  }

  /** The static assertion SIZE >= 2 is exactly what keeps unread values safe. */
  lemma SizeTwoIsNeeded(n: nat)
    requires n > 0
    ensures SizeIsSafe(n) <==> n >= 2
  {
    if n == 1 {
      var s0, steps := SizeOneOverwrites();
      assert |[[0]]| == 1;
    } else {
      forall words: nat, stale: seq<Payload>, steps: seq<Step> |
        |stale| == n && Shape(Init(words, stale)) && Legal(Init(words, stale), steps)
        ensures KeepsUnread(Run(Init(words, stale), steps))
      {
        var s0 := Init(words, stale);
        forall i | 0 <= i < n ensures |stale[i]| == words { assert |s0.data[i]| == words; }
        InitInv(words, stale);
        RunKeepsInv(s0, steps);
        var s := Run(s0, steps);
        forall t: nat | IsPublished(s, t) && !IsReleased(s, t) ensures s.data[Slot(s, t)] == s.wr[t].value {
          assert WriteMeaning(s, t);
        }
      }
    }
  }
}
