/** Every interleaving of the ring is a run of a sequential queue. */
module RingFifo {
  import opened Bits
  import opened Ring
  import opened Fifo

  function Min(a: nat, b: nat): (m: nat) {
    if a < b then a else b
  }

  ghost function Values(wr: seq<WriteOp>): (vs: seq<Payload>)
    ensures |vs| == |wr| && forall t | 0 <= t < |wr| :: vs[t] == wr[t].value
  {
    seq(|wr|, t requires 0 <= t < |wr| => wr[t].value)
  }

  /** The queue that a state stands for: what was submitted and not yet claimed by a reader. */
  ghost function Queue(s: State): (q: seq<Payload>) {
    Values(s.wr)[Min(|s.rd|, |s.wr|)..]
  }

  /** The linearization points of a step.  An enqueue takes effect at its claim; a dequeue takes
      effect at its claim if its value was already submitted, and otherwise at the claim of the
      enqueue that holds the same ticket. */
  ghost function Points(s: State, a: Step): (e: seq<Event<Payload>>) {
    match a
    case ClaimWrite(_, v) => if |s.rd| > |s.wr| then [Put(v), Take(v)] else [Put(v)]
    case ClaimRead(_) => if |s.wr| > |s.rd| then [Take(s.wr[|s.rd|].value)] else []
    case _ => []
  }

  ghost function Linearization(s: State, steps: seq<Step>): (e: seq<Event<Payload>>)
    requires Shape(s) && Legal(s, steps)
    decreases |steps|
  {
    if steps == [] then [] else Points(s, steps[0]) + Linearization(Apply(s, steps[0]), steps[1..])
  }

  lemma AdvanceKeepsValues(s: State, a: Step)
    requires Shape(s) && Enabled(s, a) && (a.AdvanceWrite? || a.AdvanceRead?)
    ensures Values(Apply(s, a).wr) == Values(s.wr) && |Apply(s, a).rd| == |s.rd|
  {
  }

  lemma StepIsSequential(s: State, a: Step)
    requires Shape(s) && Enabled(s, a)
    ensures Sequential(Queue(s), Points(s, a), Queue(Apply(s, a)))
  {
    var s' := Apply(s, a);
    match a
    case ClaimWrite(_, v) =>
      assert Values(s'.wr) == Values(s.wr) + [v];
      if |s.rd| > |s.wr| {
        assert Queue(s) == [] && Queue(s') == [];
        assert Points(s, a)[1..] == [Take(v)] && [Take(v)][1..] == [];
        assert ([] + [v])[1..] == [];
      } else {
        assert Queue(s') == Queue(s) + [v];
      }
    case ClaimRead(_) =>
      if |s.wr| > |s.rd| { assert Queue(s') == Queue(s)[1..]; }
    case AdvanceWrite(_) => AdvanceKeepsValues(s, a);
    case AdvanceRead(_) => AdvanceKeepsValues(s, a);
  }

  lemma {:induction false} RunIsSequential(s: State, steps: seq<Step>)
    requires Shape(s) && Legal(s, steps)
    ensures Sequential(Queue(s), Linearization(s, steps), Queue(Run(s, steps)))
    decreases |steps|
  {
    if steps == [] {
    } else {
      var s' := Apply(s, steps[0]);
      StepIsSequential(s, steps[0]);
      RunIsSequential(s', steps[1..]);
      Compose(Queue(s), Points(s, steps[0]), Queue(s'), Linearization(s', steps[1..]), Queue(Run(s, steps)));
    }
  }

  lemma StepSubmits(s: State, a: Step)
    requires Shape(s) && Enabled(s, a)
    ensures Values(Apply(s, a).wr) == Values(s.wr) + Puts(Points(s, a))
  {
    var e := Points(s, a);
    if a.ClaimWrite? {
      assert e[0] == Put(a.value) && Puts(e[1..]) == [];
      assert Values(Apply(s, a).wr) == Values(s.wr) + [a.value];
    } else {
      assert Puts(e) == [];
      assert Values(Apply(s, a).wr) == Values(s.wr);
    }
  }

  lemma {:induction false} PutsAreSubmissions(s: State, steps: seq<Step>)
    requires Shape(s) && Legal(s, steps)
    ensures Values(Run(s, steps).wr) == Values(s.wr) + Puts(Linearization(s, steps))
    decreases |steps|
  {
    if steps == [] {
    } else {
      var s' := Apply(s, steps[0]);
      StepSubmits(s, steps[0]);
      PutsAreSubmissions(s', steps[1..]);
      PutsAppend(Points(s, steps[0]), Linearization(s', steps[1..]));
      AppendAssociates(Values(s.wr), Puts(Points(s, steps[0])), Puts(Linearization(s', steps[1..])));
    }
  }

  lemma TakenPrefix(all: seq<Payload>, taken: seq<Payload>, m: nat)
    requires m <= |all| && all == taken + all[m..]
    ensures taken == all[..m]
  {
    assert all[..m] + all[m..] == all;
    assert |taken| == m;
    assert (taken + all[m..])[..m] == taken;
  }

  /** What a sequential history of the submitted values says about the dequeues of its final state. */
  lemma HistoryFacts(s: State, lin: seq<Event<Payload>>)
    requires Inv(s) && Sequential([], lin, Queue(s)) && Puts(lin) == Values(s.wr)
    ensures |Takes(lin)| == Min(|s.rd|, |s.wr|)
    ensures forall t: nat | t < |s.rd| && s.rd[t].phase.Returned? ::
              && t < |s.wr|
              && s.rd[t].phase.value == s.wr[t].value
              && t < |Takes(lin)| && Takes(lin)[t] == s.rd[t].phase.value
    ensures forall t: nat | t < |s.rd| && !s.rd[t].phase.Awaiting? :: t < |Takes(lin)|
  {
    assert Takes(lin) == Values(s.wr)[..Min(|s.rd|, |s.wr|)] by { TakesArePrefix(s, lin); }
    forall t: nat | t < |s.rd| && !s.rd[t].phase.Awaiting?
      ensures t < |s.wr| && (s.rd[t].phase.Returned? ==> s.rd[t].phase.value == s.wr[t].value)
    {
      assert ReadMeaning(s, t);
    }
  }

  lemma TakesArePrefix(s: State, lin: seq<Event<Payload>>)
    requires Sequential([], lin, Queue(s)) && Puts(lin) == Values(s.wr)
    ensures Takes(lin) == Values(s.wr)[..Min(|s.rd|, |s.wr|)]
  {
    FirstInFirstOut([], lin, Queue(s));
    assert [] + Puts(lin) == Puts(lin);
    TakenPrefix(Values(s.wr), Takes(lin), Min(|s.rd|, |s.wr|));
  }

  /** Linearizability, for every run from every constructed ring.
      The linearization is a legal sequential queue history; its puts are the submitted values in
      ticket order; and the dequeue that holds read ticket t, once it has returned, returned both
      the value submitted under write ticket t and the value of the t-th take.  The last two
      clauses place the t-th take inside the interval of dequeue t: it is not there before the
      dequeue has claimed its ticket, and it is there as soon as the dequeue has passed its guard. */
  lemma RingLinearizes(words: nat, stale: seq<Payload>, steps: seq<Step>)
    requires GoodStart(words, stale) && Legal(Init(words, stale), steps)
    ensures
      var s := Run(Init(words, stale), steps);
      var lin := Linearization(Init(words, stale), steps);
      && Sequential([], lin, Queue(s))
      && Puts(lin) == Values(s.wr)
      && |Takes(lin)| == Min(|s.rd|, |s.wr|)
      && (forall t: nat | t < |s.rd| && s.rd[t].phase.Returned? ::
            && t < |s.wr|
            && s.rd[t].phase.value == s.wr[t].value
            && t < |Takes(lin)| && Takes(lin)[t] == s.rd[t].phase.value)
      && |Takes(lin)| <= |s.rd|
      && (forall t: nat | t < |s.rd| && !s.rd[t].phase.Awaiting? :: t < |Takes(lin)|)
  {
    var s0 := Init(words, stale);
    var lin := Linearization(s0, steps);
    InitInv(words, stale);
    RunKeepsInv(s0, steps);
    RunIsSequential(s0, steps);
    PutsAreSubmissions(s0, steps);
    assert Queue(s0) == [] && Values(s0.wr) == [];
    HistoryFacts(Run(s0, steps), lin);
  }

  /* ---------------------- Real-time order ---------------------- */

  /** An operation, by its ticket. */
  datatype Operation = EnqueueOf(ticket: nat) | DequeueOf(ticket: nat)

  ghost predicate HasClaimed(s: State, x: Operation) {
    match x
    case EnqueueOf(t) => t < |s.wr|
    case DequeueOf(t) => t < |s.rd|
  }

  ghost predicate HasReturned(s: State, x: Operation) {
    match x
    case EnqueueOf(t) => IsPublished(s, t)
    case DequeueOf(t) => IsReleased(s, t)
  }

  /** Event i of a history is the point of operation x: the put, or the take, with the number of its ticket. */
  ghost predicate IsPointOf(lin: seq<Event<Payload>>, i: nat, x: Operation) {
    && i < |lin|
    && match x
       case EnqueueOf(t) => lin[i].Put? && |Puts(lin[..i])| == t
       case DequeueOf(t) => lin[i].Take? && |Takes(lin[..i])| == t
  }

  ghost function Done(lin: seq<Event<Payload>>, x: Operation): (n: nat) {
    if x.EnqueueOf? then |Puts(lin)| else |Takes(lin)|
  }

  /** A point lies in a prefix of the history exactly when the prefix has more puts, or takes, than its number. */
  lemma PointInPrefix(lin: seq<Event<Payload>>, i: nat, x: Operation, n: nat)
    requires IsPointOf(lin, i, x) && n <= |lin|
    ensures i < n <==> x.ticket < Done(lin[..n], x)
  {
    if i < n {
      assert lin[..n] == lin[..i] + ([lin[i]] + lin[i + 1..n]);
      PutsAppend(lin[..i], [lin[i]] + lin[i + 1..n]);
      TakesAppend(lin[..i], [lin[i]] + lin[i + 1..n]);
      assert ([lin[i]] + lin[i + 1..n])[0] == lin[i];
    } else {
      assert lin[..i] == lin[..n] + lin[n..i];
      PutsAppend(lin[..n], lin[n..i]);
      TakesAppend(lin[..n], lin[n..i]);
    }
  }

  lemma {:induction false} PointExists(lin: seq<Event<Payload>>, x: Operation) returns (i: nat)
    requires x.ticket < Done(lin, x)
    ensures IsPointOf(lin, i, x)
    decreases |lin|
  {
    var n := |lin| - 1;
    assert lin == lin[..n] + [lin[n]] && [lin[n]][1..] == [];
    PutsAppend(lin[..n], [lin[n]]);
    TakesAppend(lin[..n], [lin[n]]);
    if x.ticket < Done(lin[..n], x) {
      i := PointExists(lin[..n], x);
      assert lin[..n][..i] == lin[..i];
    } else {
      i := n;
    }
  }

  lemma {:induction false} LinearizationAppend(s: State, xs: seq<Step>, ys: seq<Step>)
    requires Shape(s) && Legal(s, xs) && Legal(Run(s, xs), ys) && Legal(s, xs + ys)
    ensures Linearization(s, xs + ys) == Linearization(s, xs) + Linearization(Run(s, xs), ys)
    decreases |xs|
  {
    if xs == [] {
      assert xs + ys == ys;
    } else {
      var s' := Apply(s, xs[0]);
      assert (xs + ys)[0] == xs[0] && (xs + ys)[1..] == xs[1..] + ys;
      LinearizationAppend(s', xs[1..], ys);
      AppendAssociates(Points(s, xs[0]), Linearization(s', xs[1..]), Linearization(Run(s, xs), ys));
    }
  }

  /** At every moment of every run, the history so far is a beginning of the final one, it contains the
      point of every operation that has returned, and of no operation that has not yet claimed its
      ticket: each operation takes effect between its claim and its return. */
  lemma PointsInIntervals(words: nat, stale: seq<Payload>, before: seq<Step>, after: seq<Step>, x: Operation, i: nat)
    requires GoodStart(words, stale) && Legal(Init(words, stale), before)
    requires Legal(Run(Init(words, stale), before), after) && Legal(Init(words, stale), before + after)
    requires IsPointOf(Linearization(Init(words, stale), before + after), i, x)
    ensures
      var mid := Run(Init(words, stale), before);
      var lin, past := Linearization(Init(words, stale), before + after), Linearization(Init(words, stale), before);
      && past <= lin
      && (HasReturned(mid, x) ==> i < |past|)
      && (!HasClaimed(mid, x) ==> i >= |past|)
  {
    var s0 := Init(words, stale);
    var mid := Run(s0, before);
    var lin, past := Linearization(s0, before + after), Linearization(s0, before);
    LinearizationAppend(s0, before, after);
    RingLinearizes(words, stale, before);
    assert lin[..|past|] == past;
    PointInPrefix(lin, i, x, |past|);
  }

  /** Real-time order: in the history of every run, an operation that returned before another claimed its
      ticket comes before it, and it does have a point. */
  lemma RealTimeOrder(words: nat, stale: seq<Payload>, before: seq<Step>, after: seq<Step>, x: Operation, y: Operation)
    requires GoodStart(words, stale) && Legal(Init(words, stale), before)
    requires Legal(Run(Init(words, stale), before), after) && Legal(Init(words, stale), before + after)
    requires HasReturned(Run(Init(words, stale), before), x) && !HasClaimed(Run(Init(words, stale), before), y)
    ensures
      var lin := Linearization(Init(words, stale), before + after);
      && (exists i: nat :: IsPointOf(lin, i, x))
      && (forall i: nat, j: nat | IsPointOf(lin, i, x) && IsPointOf(lin, j, y) :: i < j)
      && (HasReturned(Run(Init(words, stale), before + after), y) ==> exists j: nat :: IsPointOf(lin, j, y))
  {
    var lin := Linearization(Init(words, stale), before + after);
    forall i: nat, j: nat | IsPointOf(lin, i, x) && IsPointOf(lin, j, y) ensures i < j {
      PointsInIntervals(words, stale, before, after, x, i);
      PointsInIntervals(words, stale, before, after, y, j);
    }
    var s0 := Init(words, stale);
    var past := Linearization(s0, before);
    RingLinearizes(words, stale, before);
    var i := PointExists(past, x);
    LinearizationAppend(s0, before, after);
    assert lin[..i] == past[..i];
    assert IsPointOf(lin, i, x);
    RingLinearizes(words, stale, before + after);
    if HasReturned(Run(s0, before + after), y) { var j := PointExists(lin, y); }
  }

  /* ---------------------- Per-thread order ---------------------- */

  /** A thread's earlier operations are finished. */
  ghost predicate WritersInOrder(s: State) {
    forall t, u | 0 <= t < u < |s.wr| && s.wr[t].owner == s.wr[u].owner :: s.wr[t].phase.Published?
  }

  ghost predicate ReadersInOrder(s: State) {
    forall t, u | 0 <= t < u < |s.rd| && s.rd[t].owner == s.rd[u].owner :: s.rd[t].phase.Returned?
  }

  /** The log lists returned dequeues, each consumer's in ticket order. */
  ghost predicate LogInOrder(s: State) {
    && (forall i | 0 <= i < |s.log| :: s.log[i] < |s.rd| && s.rd[s.log[i]].phase.Returned?)
    && (forall i, j | 0 <= i < j < |s.log| && s.rd[s.log[i]].owner == s.rd[s.log[j]].owner :: s.log[i] < s.log[j])
  }

  ghost predicate ThreadOrder(s: State) {
    WritersInOrder(s) && ReadersInOrder(s) && LogInOrder(s)
  }

  lemma StepKeepsLogOrder(s: State, a: Step)
    requires Shape(s) && ThreadOrder(s) && Enabled(s, a)
    ensures LogInOrder(Apply(s, a))
  {
  }

  lemma StepKeepsThreadOrder(s: State, a: Step)
    requires Shape(s) && ThreadOrder(s) && Enabled(s, a)
    ensures ThreadOrder(Apply(s, a))
  {
    StepKeepsLogOrder(s, a);
    assert WritersInOrder(Apply(s, a));
    assert ReadersInOrder(Apply(s, a));
  }

  lemma {:induction false} RunKeepsThreadOrder(s: State, steps: seq<Step>)
    requires Shape(s) && ThreadOrder(s) && Legal(s, steps)
    ensures ThreadOrder(Run(s, steps))
    decreases |steps|
  {
    if steps == [] {
    } else {
      StepKeepsThreadOrder(s, steps[0]);
      RunKeepsThreadOrder(Apply(s, steps[0]), steps[1..]);
    }
  }

  /** Each consumer sees each producer's items in the order in which that producer sent them:
      of two dequeues of one consumer, i returning before j, whose values came from one producer,
      the first got the earlier submission, which was fully published before the later one began. */
  lemma ConsumerSeesProducerOrder(words: nat, stale: seq<Payload>, steps: seq<Step>, i: nat, j: nat)
    requires GoodStart(words, stale) && Legal(Init(words, stale), steps)
    requires i < j < |Run(Init(words, stale), steps).log|
    ensures
      var s := Run(Init(words, stale), steps);
      var t, u := s.log[i], s.log[j];
      && t < |s.rd| && u < |s.rd| && t < |s.wr| && u < |s.wr|
      && s.rd[t].phase == Returned(s.wr[t].value)
      && s.rd[u].phase == Returned(s.wr[u].value)
      && (s.rd[t].owner == s.rd[u].owner && s.wr[t].owner == s.wr[u].owner ==>
            t < u && s.wr[t].phase.Published?)
  {
    var s0 := Init(words, stale);
    InitInv(words, stale);
    RunKeepsInv(s0, steps);
    RunKeepsThreadOrder(s0, steps);
    var s := Run(s0, steps);
    assert ReadMeaning(s, s.log[i]) && ReadMeaning(s, s.log[j]);
  }
}
