/** A quiescent reset is indistinguishable from construction. */
module RingReset {
  import opened Bits
  import opened Ring

  /** No operation is in flight. */
  predicate Quiescent(s: State) {
    && (forall t | 0 <= t < |s.wr| :: s.wr[t].phase.Published?)
    && (forall t | 0 <= t < |s.rd| :: s.rd[t].phase.Returned?)
  }

  /** What clearing the ring leaves behind: counters and sequence numbers as constructed, the slot
      contents untouched. */
  function Clear(s: State): (r: State) {
    Init(s.words, s.data)
  }

  ghost predicate SameButData(s: State, r: State) {
    |s.data| == |r.data| && s.(data := r.data) == r
  }

  lemma StepIgnoresStale(s: State, r: State, a: Step)
    requires Inv(s) && Inv(r) && SameButData(s, r)
    ensures Enabled(s, a) <==> Enabled(r, a)
    ensures Enabled(s, a) ==> SameButData(Apply(s, a), Apply(r, a))
  {
    if a.AdvanceRead? && Enabled(s, a) && s.rd[a.rt].phase.Copying? {
      assert ReadMeaning(s, a.rt) && WriteMeaning(s, a.rt) && WriteMeaning(r, a.rt);
    }
  }

  lemma {:induction false} RunIgnoresStale(s: State, r: State, steps: seq<Step>)
    requires Inv(s) && Inv(r) && SameButData(s, r)
    ensures Legal(s, steps) <==> Legal(r, steps)
    ensures Legal(s, steps) ==> SameButData(Run(s, steps), Run(r, steps))
    decreases |steps|
  {
    if steps == [] {
    } else {
      StepIgnoresStale(s, r, steps[0]);
      if Enabled(s, steps[0]) {
        StepKeepsInv(s, steps[0]);
        StepKeepsInv(r, steps[0]);
        RunIgnoresStale(Apply(s, steps[0]), Apply(r, steps[0]), steps[1..]);
      }
    }
  }

  /** Every run after a reset, from any fill level and with any stale slot contents, is a run from
      the constructor and conversely; the two agree in everything but the unread slot contents,
      in particular in every value that every dequeue returns. */
  lemma ResetIsFresh(s: State, stale: seq<Payload>, steps: seq<Step>)
    requires Inv(s) && GoodStart(s.words, stale) && |stale| == s.size
    ensures
      var r := Init(s.words, stale);
      && Shape(Clear(s))
      && (Legal(Clear(s), steps) <==> Legal(r, steps))
      && (Legal(r, steps) ==>
            && Run(Clear(s), steps).wr == Run(r, steps).wr
            && Run(Clear(s), steps).rd == Run(r, steps).rd
            && Run(Clear(s), steps).seqs == Run(r, steps).seqs
            && Run(Clear(s), steps).log == Run(r, steps).log)
  {
    InitInv(s.words, s.data);
    InitInv(s.words, stale);
    RunIgnoresStale(Clear(s), Init(s.words, stale), steps);
  }
}
