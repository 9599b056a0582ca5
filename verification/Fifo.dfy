/** The sequential queue that both ring buffers implement: the reference against which
    concurrent runs are judged. */
module Fifo {

  datatype Event<V> = Put(value: V) | Take(value: V)

  /** Doing `events` one at a time turns queue q into queue q', and every Take gets the head. */
  ghost predicate Sequential<V>(q: seq<V>, events: seq<Event<V>>, q': seq<V>)
    decreases |events|
  {
    if events == [] then q == q'
    else match events[0]
      case Put(v) => Sequential(q + [v], events[1..], q')
      case Take(v) => q != [] && q[0] == v && Sequential(q[1..], events[1..], q')
  }

  ghost function Puts<V>(events: seq<Event<V>>): (vs: seq<V>) {
    if events == [] then []
    else (if events[0].Put? then [events[0].value] else []) + Puts(events[1..])
  }

  ghost function Takes<V>(events: seq<Event<V>>): (vs: seq<V>) {
    if events == [] then []
    else (if events[0].Take? then [events[0].value] else []) + Takes(events[1..])
  }

  lemma AppendAssociates<V>(a: seq<V>, b: seq<V>, c: seq<V>)
    ensures (a + b) + c == a + (b + c)
  {
  }

  lemma {:induction false} PutsAppend<V>(a: seq<Event<V>>, b: seq<Event<V>>)
    ensures Puts(a + b) == Puts(a) + Puts(b)
  {
    if a == [] {
      assert a + b == b;
    } else {
      var head := if a[0].Put? then [a[0].value] else [];
      assert (a + b)[0] == a[0] && (a + b)[1..] == a[1..] + b;
      PutsAppend(a[1..], b);
      AppendAssociates(head, Puts(a[1..]), Puts(b));
    }
  }

  lemma {:induction false} TakesAppend<V>(a: seq<Event<V>>, b: seq<Event<V>>)
    ensures Takes(a + b) == Takes(a) + Takes(b)
  {
    if a == [] {
      assert a + b == b;
    } else {
      var head := if a[0].Take? then [a[0].value] else [];
      assert (a + b)[0] == a[0] && (a + b)[1..] == a[1..] + b;
      TakesAppend(a[1..], b);
      AppendAssociates(head, Takes(a[1..]), Takes(b));
    }
  }

  /** Sequential histories compose. */
  lemma {:induction false} Compose<V>(q: seq<V>, e1: seq<Event<V>>, q1: seq<V>, e2: seq<Event<V>>, q2: seq<V>)
    requires Sequential(q, e1, q1) && Sequential(q1, e2, q2)
    ensures Sequential(q, e1 + e2, q2)
    decreases |e1|
  {
    if e1 == [] {
      assert e1 + e2 == e2;
    } else {
      assert (e1 + e2)[1..] == e1[1..] + e2;
      match e1[0] {
        case Put(v) => Compose(q + [v], e1[1..], q1, e2, q2);
        case Take(v) => Compose(q[1..], e1[1..], q1, e2, q2);
      }
    }
  }

  lemma TakeHead<V>(q: seq<V>, puts: seq<V>, takes: seq<V>, q': seq<V>)
    requires q != [] && q[1..] + puts == takes + q'
    ensures q + puts == ([q[0]] + takes) + q'
  {
    AppendAssociates([q[0]], q[1..], puts);
    AppendAssociates([q[0]], takes, q');
    assert [q[0]] + q[1..] == q;
  }

  /** First in, first out: what was there plus what was put equals what was taken plus what is left. */
  lemma {:induction false} FirstInFirstOut<V>(q: seq<V>, events: seq<Event<V>>, q': seq<V>)
    requires Sequential(q, events, q')
    ensures q + Puts(events) == Takes(events) + q'
    decreases |events|
  {
    if events == [] {
      assert q + [] == q && [] + q' == q';
    } else if events[0].Put? {
      var v := events[0].value;
      FirstInFirstOut(q + [v], events[1..], q');
      AppendAssociates(q, [v], Puts(events[1..]));
      assert Takes(events) == Takes(events[1..]);
    } else {
      FirstInFirstOut(q[1..], events[1..], q');
      TakeHead(q, Puts(events[1..]), Takes(events[1..]), q');
      assert Puts(events) == Puts(events[1..]) && Takes(events) == [q[0]] + Takes(events[1..]);
    }
  }
}
