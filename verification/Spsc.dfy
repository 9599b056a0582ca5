/** The single-producer single-consumer ring: a 0/1 flag per slot and two private cursors.
    Works for every size from one up. */
module Spsc {
  import opened Bits
  import opened Fifo

  datatype Writer = WIdle | WSpin | WFill(stored: nat)

  datatype Reader = RIdle | RSpin | RCopy(copy: Payload)

  datatype Buffer = Buffer(
    size: nat,
    words: nat,
    flags: seq<nat>,
    data: seq<Payload>,
    lastRead: nat,
    lastWritten: nat,
    writer: Writer,
    reader: Reader,
    input: seq<Payload>,    // every value submitted
    output: seq<Payload>)   // every value returned

  datatype Move = Submit(value: Payload) | WriterAccess | Request | ReaderAccess

  /** Published values, and dequeues begun. */
  function Published(b: Buffer): (p: int) {
    |b.input| - if b.writer.WIdle? then 0 else 1
  }

  function Requests(b: Buffer): (n: nat) {
    |b.output| + if b.reader.RIdle? then 0 else 1
  }

  ghost predicate Shape(b: Buffer) {
    && b.size > 0 && |b.flags| == b.size && |b.data| == b.size
    && b.lastRead < b.size && b.lastWritten < b.size
    && (forall i | 0 <= i < b.size :: |b.data[i]| == b.words)
    && (forall i | 0 <= i < |b.input| :: |b.input[i]| == b.words)
    && (b.writer.WFill? ==> b.writer.stored <= b.words)
    && (b.reader.RCopy? ==> |b.reader.copy| <= b.words)
    && Published(b) >= 0
  }

  predicate CanMove(b: Buffer, a: Move) {
    match a
    case Submit(v) => b.writer.WIdle? && |v| == b.words
    case WriterAccess => !b.writer.WIdle?
    case Request => b.reader.RIdle?
    case ReaderAccess => !b.reader.RIdle?
  }

  /** The wrapping increment of a cursor. */
  function NextCursor(c: nat, size: nat): (r: nat) {
    if c + 1 < size then c + 1 else 0
  }

  function WriterStep(b: Buffer): (r: Buffer)
    requires Shape(b) && CanMove(b, WriterAccess)
    ensures Shape(r)
  {
    var i := b.lastWritten;
    match b.writer
    case WSpin => if b.flags[i] == 0 then b.(writer := WFill(0)) else b
    case WFill(k) =>
      if k < b.words then
        b.(data := b.data[i := b.data[i][k := b.input[|b.input| - 1][k]]], writer := WFill(k + 1))
      else
        b.(flags := b.flags[i := 1], writer := WIdle)
  }

  function ReaderStep(b: Buffer): (r: Buffer)
    requires Shape(b) && CanMove(b, ReaderAccess)
    ensures Shape(r)
  {
    var i := b.lastRead;
    match b.reader
    case RSpin => if b.flags[i] != 0 then b.(reader := RCopy([])) else b
    case RCopy(c) =>
      if |c| < b.words then b.(reader := RCopy(c + [b.data[i][|c|]]))
      else b.(flags := b.flags[i := 0], reader := RIdle, output := b.output + [c])
  }

  function Apply(b: Buffer, a: Move): (r: Buffer)
    requires Shape(b) && CanMove(b, a)
    ensures Shape(r)
  {
    match a
    case Submit(v) =>
      b.(lastWritten := NextCursor(b.lastWritten, b.size), writer := WSpin, input := b.input + [v])
    case WriterAccess => WriterStep(b)
    case Request => b.(lastRead := NextCursor(b.lastRead, b.size), reader := RSpin)
    case ReaderAccess => ReaderStep(b)
  }

  function Init(words: nat, stale: seq<Payload>): (b: Buffer) {
    Buffer(|stale|, words, seq(|stale|, _ => 0), stale, 0, 0, WIdle, RIdle, [], [])
  }

  ghost predicate GoodStart(words: nat, stale: seq<Payload>) {
    |stale| >= 1 && forall i | 0 <= i < |stale| :: |stale[i]| == words
  }

  ghost predicate Legal(b: Buffer, moves: seq<Move>)
    requires Shape(b)
    decreases |moves|
  {
    moves == [] || (CanMove(b, moves[0]) && Legal(Apply(b, moves[0]), moves[1..]))
  }

  ghost function Run(b: Buffer, moves: seq<Move>): (r: Buffer)
    requires Shape(b) && Legal(b, moves)
    ensures Shape(r)
    decreases |moves|
  {
    if moves == [] then b else Run(Apply(b, moves[0]), moves[1..])
  }

  /* ------------------------------ Invariant ------------------------------ */

  /** Item k is the k-th value submitted, counting from one; its slot is k modulo the size. */
  ghost predicate ItemMeaning(b: Buffer, k: nat)
    requires Shape(b)
  {
    var j := SlotOf(k, b.size);
    && (|b.output| < k <= Published(b) ==> b.flags[j] == 1 && b.data[j] == b.input[k - 1])
    && (Published(b) < k <= |b.output| + b.size ==> b.flags[j] == 0)
  }

  ghost predicate Inv(b: Buffer) {
    && Shape(b)
    && |b.output| <= Published(b) <= |b.output| + b.size
    && b.lastWritten == SlotOf(|b.input|, b.size)
    && b.lastRead == SlotOf(Requests(b), b.size)
    && b.output == b.input[..|b.output|]
    && (forall k: nat :: ItemMeaning(b, k))
    && (b.writer.WFill? ==>
          && Published(b) < |b.output| + b.size
          && b.data[b.lastWritten][..b.writer.stored] == b.input[Published(b)][..b.writer.stored])
    && (b.reader.RCopy? ==> |b.output| < Published(b) && b.reader.copy <= b.input[|b.output|])
  }

  lemma {:induction false} CursorCounts(n: nat, size: nat)
    requires size > 0
    ensures NextCursor(SlotOf(n, size), size) == SlotOf(n + 1, size)
    decreases n
  {
    if n >= size { CursorCounts(n - size, size); } else if size == 1 { SlotOfOne(n); }
  }

  /** The free and filled items of one window of `size` items have different slots. */
  lemma WindowSlots(k: nat, l: nat, size: nat)
    requires size > 0 && k < l < k + size
    ensures SlotOf(k, size) != SlotOf(l, size)
  {
    SlotClose(k, l, size);
  }

  lemma InitInv(words: nat, stale: seq<Payload>)
    requires GoodStart(words, stale)
    ensures Inv(Init(words, stale))
  {
    var b := Init(words, stale);
    forall k: nat ensures ItemMeaning(b, k) { }
  }

  lemma BeginKeepsInv(b: Buffer, a: Move)
    requires Inv(b) && CanMove(b, a) && (a.Submit? || a.Request?)
    ensures Inv(Apply(b, a))
  {
    CursorCounts(|b.input|, b.size);
    CursorCounts(Requests(b), b.size);
    var r := Apply(b, a);
    forall k: nat ensures ItemMeaning(r, k) { assert ItemMeaning(b, k); }
  }

  /** The producer's guard fails exactly when all slots hold unread items. */
  lemma WriterGuard(b: Buffer)
    requires Inv(b) && !b.writer.WIdle?
    ensures b.flags[b.lastWritten] == 0 <==> Published(b) < |b.output| + b.size
  {
    assert ItemMeaning(b, |b.input|);
    if Published(b) == |b.output| + b.size { assert ItemMeaning(b, |b.input| - b.size); }
  }

  /** The consumer's guard fails exactly when no item is unread. */
  lemma ReaderGuard(b: Buffer)
    requires Inv(b) && !b.reader.RIdle?
    ensures b.flags[b.lastRead] == 0 <==> Published(b) == |b.output|
  {
    assert ItemMeaning(b, Requests(b));
  }

  lemma WriterItem(b: Buffer, k: nat)
    requires Inv(b) && CanMove(b, WriterAccess)
    ensures ItemMeaning(WriterStep(b), k)
  {
    assert ItemMeaning(b, k);
    var p := |b.input|;
    if b.writer.WFill? && |b.output| < k <= |b.output| + b.size && k != p {
      if k < p { WindowSlots(k, p, b.size); } else { WindowSlots(p, k, b.size); }
    }
    if b.writer.WFill? && k == p {
      var d := b.data[b.lastWritten];
      assert b.writer.stored == b.words ==> d[..b.words] == d && b.input[p - 1][..b.words] == b.input[p - 1];
    }
  }

  lemma WriterKeepsInv(b: Buffer)
    requires Inv(b) && CanMove(b, WriterAccess)
    ensures Inv(WriterStep(b))
  {
    var r := WriterStep(b);
    WriterGuard(b);
    forall k: nat ensures ItemMeaning(r, k) { WriterItem(b, k); }
    if b.writer.WFill? && b.writer.stored < b.words {
      var k, i := b.writer.stored, b.lastWritten;
      assert r.data[i][..k + 1] == b.data[i][..k] + [b.input[Published(b)][k]];
    }
  }

  lemma ReaderItem(b: Buffer, k: nat)
    requires Inv(b) && CanMove(b, ReaderAccess)
    ensures ItemMeaning(ReaderStep(b), k)
  {
    assert ItemMeaning(b, k);
    var c := |b.output| + 1;
    if b.reader.RCopy? && c < k < c + b.size { WindowSlots(c, k, b.size); }
    if b.reader.RCopy? && k == c + b.size { assert SlotOf(k, b.size) == SlotOf(c, b.size); }
  }

  lemma ReaderKeepsInv(b: Buffer)
    requires Inv(b) && CanMove(b, ReaderAccess)
    ensures Inv(ReaderStep(b))
  {
    ReaderGuard(b);
    var r := ReaderStep(b);
    forall k: nat ensures ItemMeaning(r, k) { ReaderItem(b, k); }
    if b.reader.RCopy? {
      var c := |b.output|;
      assert ItemMeaning(b, c + 1);
      assert |b.reader.copy| == b.words ==> b.reader.copy == b.input[c];
      assert b.input[..c + 1] == b.input[..c] + [b.input[c]];
    }
  }

  lemma {:induction false} RunKeepsInv(b: Buffer, moves: seq<Move>)
    requires Inv(b) && Legal(b, moves)
    ensures Inv(Run(b, moves))
    decreases |moves|
  {
    if moves == [] {
    } else {
      StepKeepsInv(b, moves[0]);
      RunKeepsInv(Apply(b, moves[0]), moves[1..]);
    }
  }

  lemma StepKeepsInv(b: Buffer, a: Move)
    requires Inv(b) && CanMove(b, a)
    ensures Inv(Apply(b, a))
  {
    match a
    case Submit(_) => BeginKeepsInv(b, a);
    case Request => BeginKeepsInv(b, a);
    case WriterAccess => WriterKeepsInv(b);
    case ReaderAccess => ReaderKeepsInv(b);
  }

  /* ------------------------------ Refinement ------------------------------ */

  /** The queue that a buffer stands for: published and not yet returned. */
  ghost function Queue(b: Buffer): (q: seq<Payload>)
    requires Inv(b)
  {
    b.input[|b.output|..Published(b)]
  }

  /** An enqueue takes effect when it raises its flag, a dequeue when it lowers it. */
  ghost function Points(b: Buffer, a: Move): (e: seq<Event<Payload>>)
    requires Shape(b) && CanMove(b, a)
  {
    if a.WriterAccess? && b.writer == WFill(b.words) then [Put(b.input[|b.input| - 1])]
    else if a.ReaderAccess? && b.reader.RCopy? && |b.reader.copy| == b.words then [Take(b.reader.copy)]
    else []
  }

  ghost function Linearization(b: Buffer, moves: seq<Move>): (e: seq<Event<Payload>>)
    requires Shape(b) && Legal(b, moves)
    decreases |moves|
  {
    if moves == [] then [] else Points(b, moves[0]) + Linearization(Apply(b, moves[0]), moves[1..])
  }

  lemma WriterIsSequential(b: Buffer)
    requires Inv(b) && CanMove(b, WriterAccess) && Inv(WriterStep(b))
    ensures Sequential(Queue(b), Points(b, WriterAccess), Queue(WriterStep(b)))
  {
    var r, e := WriterStep(b), Points(b, WriterAccess);
    if b.writer == WFill(b.words) {
      assert Queue(r) == Queue(b) + [b.input[|b.input| - 1]] && e[1..] == [];
    } else {
      assert Queue(r) == Queue(b);
    }
  }

  lemma ReaderIsSequential(b: Buffer)
    requires Inv(b) && CanMove(b, ReaderAccess) && Inv(ReaderStep(b))
    ensures Sequential(Queue(b), Points(b, ReaderAccess), Queue(ReaderStep(b)))
  {
    var r, e := ReaderStep(b), Points(b, ReaderAccess);
    if b.reader.RCopy? && |b.reader.copy| == b.words {
      assert Queue(r) == Queue(b)[1..] && e[1..] == [];
      assert b.reader.copy == b.input[|b.output|];
    } else {
      assert Queue(r) == Queue(b);
    }
  }

  lemma StepIsSequential(b: Buffer, a: Move)
    requires Inv(b) && CanMove(b, a)
    ensures Inv(Apply(b, a)) && Sequential(Queue(b), Points(b, a), Queue(Apply(b, a)))
  {
    StepKeepsInv(b, a);
    match a
    case WriterAccess => WriterIsSequential(b);
    case ReaderAccess => ReaderIsSequential(b);
    case _ => assert Queue(Apply(b, a)) == Queue(b);
  }

  lemma {:induction false} RunIsSequential(b: Buffer, moves: seq<Move>)
    requires Inv(b) && Legal(b, moves)
    ensures Inv(Run(b, moves)) && Sequential(Queue(b), Linearization(b, moves), Queue(Run(b, moves)))
    decreases |moves|
  {
    if moves == [] {
    } else {
      var r := Apply(b, moves[0]);
      StepIsSequential(b, moves[0]);
      RunIsSequential(r, moves[1..]);
      Compose(Queue(b), Points(b, moves[0]), Queue(r), Linearization(r, moves[1..]), Queue(Run(b, moves)));
    }
  }

  /** The takes of the history are the values returned. */
  lemma {:induction false} TakesAreOutput(b: Buffer, moves: seq<Move>)
    requires Shape(b) && Legal(b, moves)
    ensures Run(b, moves).output == b.output + Takes(Linearization(b, moves))
    decreases |moves|
  {
    if moves == [] {
    } else {
      var r, e := Apply(b, moves[0]), Points(b, moves[0]);
      if e != [] { assert e[1..] == []; }
      assert r.output == b.output + Takes(e);
      TakesAreOutput(r, moves[1..]);
      TakesAppend(e, Linearization(r, moves[1..]));
      AppendAssociates(b.output, Takes(e), Takes(Linearization(r, moves[1..])));
    }
  }

  /** The flags raised are exactly the slots of the unread items. */
  ghost predicate FlagsExact(b: Buffer)
    requires Shape(b)
  {
    forall j: nat | j < b.size ::
      b.flags[j] == if exists k: nat :: IsUnreadAt(b, k, j) then 1 else 0
  }

  ghost predicate IsUnreadAt(b: Buffer, k: nat, j: nat)
    requires b.size > 0
  {
    |b.output| < k <= Published(b) && SlotOf(k, b.size) == j
  }

  /** Some item of the window (c, c + size] has slot j. */
  lemma {:induction false} WindowCovers(c: nat, size: nat, j: nat) returns (k: nat)
    requires j < size
    ensures c < k <= c + size && SlotOf(k, size) == j
    decreases c
  {
    if c >= size {
      k := WindowCovers(c - size, size, j);
      k := k + size;
    } else if c < j {
      k := j;
    } else {
      k := j + size;
    }
  }

  lemma FlagsAreExact(b: Buffer)
    requires Inv(b)
    ensures FlagsExact(b)
  {
    forall j: nat | j < b.size ensures b.flags[j] == if exists k: nat :: IsUnreadAt(b, k, j) then 1 else 0 {
      var k := WindowCovers(|b.output|, b.size, j);
      assert ItemMeaning(b, k);
      if l: nat :| IsUnreadAt(b, l, j) {
        assert ItemMeaning(b, l);
      } else {
        assert !IsUnreadAt(b, k, j);
      }
    }
  }

  /** Refinement of the same sequential queue, for every size from one up and every run: the history puts
      the published values and takes the returned ones, the k-th dequeue returned the k-th submitted
      value, between zero and `size` items are unread, the raised flags are exactly their slots, and the
      cursors equal the operation counts modulo the size. */
  lemma SpscRefinesFifo(words: nat, stale: seq<Payload>, moves: seq<Move>)
    requires GoodStart(words, stale) && Shape(Init(words, stale)) && Legal(Init(words, stale), moves)
    ensures
      var b := Run(Init(words, stale), moves);
      var lin := Linearization(Init(words, stale), moves);
      && Inv(b)
      && Sequential([], lin, Queue(b))
      && Takes(lin) == b.output
      && Puts(lin) == b.input[..Published(b)]
      && b.output == b.input[..|b.output|]
      && 0 <= Published(b) - |b.output| <= b.size
      && FlagsExact(b)
      && b.lastWritten == |b.input| % b.size
      && b.lastRead == Requests(b) % b.size
  {
    var b0 := Init(words, stale);
    InitInv(words, stale);
    RunIsSequential(b0, moves);
    assert Queue(b0) == [];
    var b := Run(b0, moves);
    TakesAreOutput(b0, moves);
    FirstInFirstOut([], Linearization(b0, moves), Queue(b));
    assert b.input[..Published(b)] == b.output + Queue(b);
    FlagsAreExact(b);
    SlotIsModulo(|b.input|, b.size);
    SlotIsModulo(Requests(b), b.size);
  }

  /* ------------------------------- Progress ------------------------------- */

  ghost predicate WriterBlocked(b: Buffer)
    requires Shape(b)
  {
    b.writer.WSpin? && b.flags[b.lastWritten] != 0
  }

  ghost predicate ReaderBlocked(b: Buffer)
    requires Shape(b)
  {
    b.reader.RSpin? && b.flags[b.lastRead] == 0
  }

  /** A spinning producer is blocked exactly when `size` items are unread, a spinning consumer exactly
      when none is, and so the two never spin against each other in any run. */
  lemma SpscNeverDeadlocks(words: nat, stale: seq<Payload>, moves: seq<Move>)
    requires GoodStart(words, stale) && Shape(Init(words, stale)) && Legal(Init(words, stale), moves)
    ensures
      var b := Run(Init(words, stale), moves);
      && (b.writer.WSpin? ==> (WriterBlocked(b) <==> Published(b) - |b.output| == b.size))
      && (b.reader.RSpin? ==> (ReaderBlocked(b) <==> Published(b) == |b.output|))
      && !(WriterBlocked(b) && ReaderBlocked(b))
  {
    InitInv(words, stale);
    RunKeepsInv(Init(words, stale), moves);
    var b := Run(Init(words, stale), moves);
    if b.writer.WSpin? { WriterGuard(b); }
    if b.reader.RSpin? { ReaderGuard(b); }
  }

  /* ------------------------------ The object ------------------------------ */

  ghost predicate Reached(b: Buffer, trace: seq<Move>, r: Buffer) {
    Shape(b) && Legal(b, trace) && Run(b, trace) == r
  }

  lemma {:induction false} ReachedStep(b: Buffer, trace: seq<Move>, m: Buffer, a: Move)
    requires Reached(b, trace, m) && CanMove(m, a)
    ensures Reached(b, trace + [a], Apply(m, a))
    decreases |trace|
  {
    if trace == [] {
      assert ([] + [a])[1..] == [];
    } else {
      ReachedStep(Apply(b, trace[0]), trace[1..], m, a);
      assert (trace + [a])[1..] == trace[1..] + [a];
    }
  }

  class SpscRingBuffer {
    const size: nat
    const words: nat
    const flags: array<nat>
    const data: array<Payload>
    var lastRead: nat
    var lastWritten: nat
    // The program counters of the two threads and what has gone in and come out.
    var writer: Writer
    var reader: Reader
    var input: seq<Payload>
    var output: seq<Payload>

    function Model(): (b: Buffer)
      reads this, flags, data
    {
      Buffer(size, words, flags[..], data[..], lastRead, lastWritten, writer, reader, input, output)
    }

    ghost predicate Valid()
      reads this, flags, data
    {
      Inv(Model())
    }

    constructor (size: nat, zero: Payload)
      requires size >= 1
      ensures Valid() && this.size == size && Model() == Init(|zero|, seq(size, _ => zero))
      ensures fresh(flags) && fresh(data)
    {
      this.size, words := size, |zero|;
      flags := new nat[size](_ => 0);
      data := new Payload[size](_ => zero);
      lastRead, lastWritten := 0, 0;
      writer, reader, input, output := WIdle, RIdle, [], [];
      new;
      assert data[..] == seq(size, _ => zero) && flags[..] == seq(size, _ => 0);
      InitInv(words, data[..]);
    }

    /** The start of an enqueue: the producer's cursor moves on, wrapping at the end. */
    method BeginEnqueue(v: Payload)
      requires Valid() && CanMove(Model(), Submit(v))
      modifies this
      ensures Valid() && Model() == Apply(old(Model()), Submit(v))
    {
      StepKeepsInv(Model(), Submit(v));
      lastWritten := if lastWritten + 1 < size then lastWritten + 1 else 0;
      writer, input := WSpin, input + [v];
    }

    method BeginDequeue()
      requires Valid() && CanMove(Model(), Request)
      modifies this
      ensures Valid() && Model() == Apply(old(Model()), Request)
    {
      StepKeepsInv(Model(), Request);
      lastRead := if lastRead + 1 < size then lastRead + 1 else 0;
      reader := RSpin;
    }

    /** One access of the producer: load the flag, store a word, or raise the flag. */
    method WriterMove()
      requires Valid() && CanMove(Model(), WriterAccess)
      modifies this, flags, data
      ensures Valid() && Model() == Apply(old(Model()), WriterAccess)
    {
      ghost var b := Model();
      StepKeepsInv(b, WriterAccess);
      if writer.WSpin? {
        if flags[lastWritten] == 0 { writer := WFill(0); }
      } else if writer.stored < words {
        data[lastWritten] := data[lastWritten][writer.stored := input[|input| - 1][writer.stored]];
        writer := WFill(writer.stored + 1);
        assert data[..] == WriterStep(b).data;
      } else {
        flags[lastWritten] := 1;
        writer := WIdle;
        assert flags[..] == WriterStep(b).flags;
      }
    }

    /** One access of the consumer: load the flag, copy a word, or lower the flag. */
    method ReaderMove()
      requires Valid() && CanMove(Model(), ReaderAccess)
      modifies this, flags
      ensures Valid() && Model() == Apply(old(Model()), ReaderAccess)
    {
      ghost var b := Model();
      StepKeepsInv(b, ReaderAccess);
      if reader.RSpin? {
        if flags[lastRead] != 0 { reader := RCopy([]); }
      } else if |reader.copy| < words {
        reader := RCopy(reader.copy + [data[lastRead][|reader.copy|]]);
      } else {
        flags[lastRead] := 0;
        output := output + [reader.copy];
        reader := RIdle;
        assert flags[..] == ReaderStep(b).flags;
      }
    }

    /** Any moves of the consumer, one after the other; moves that it cannot make are skipped. */
    method Consumer(burst: seq<Move>, ghost b: Buffer, ghost before: seq<Move>) returns (ghost trace: seq<Move>)
      requires Valid() && Reached(b, before, Model())
      modifies this, flags
      ensures Valid() && Reached(b, trace, Model())
      ensures input == old(input) && writer == old(writer) && |output| >= |old(output)|
    {
      trace := before;
      for i := 0 to |burst|
        invariant Valid() && Reached(b, trace, Model())
        invariant input == old(input) && writer == old(writer) && |output| >= |old(output)|
      {
        var a := burst[i];
        if (a.Request? || a.ReaderAccess?) && CanMove(Model(), a) {
          ReachedStep(b, trace, Model(), a);
          trace := trace + [a];
          if a.Request? { BeginDequeue(); } else { ReaderMove(); }
        }
      }
    }

    /** Any moves of the producer, one after the other; moves that it cannot make are skipped. */
    method Producer(burst: seq<Move>, ghost b: Buffer, ghost before: seq<Move>) returns (ghost trace: seq<Move>)
      requires Valid() && Reached(b, before, Model())
      modifies this, flags, data
      ensures Valid() && Reached(b, trace, Model())
      ensures output == old(output) && reader == old(reader) && Published(Model()) >= old(Published(Model()))
    {
      trace := before;
      for i := 0 to |burst|
        invariant Valid() && Reached(b, trace, Model())
        invariant output == old(output) && reader == old(reader) && Published(Model()) >= old(Published(Model()))
      {
        var a := burst[i];
        if (a.Submit? || a.WriterAccess?) && CanMove(Model(), a) {
          ReachedStep(b, trace, Model(), a);
          trace := trace + [a];
          if a.Submit? { BeginEnqueue(a.value); } else { WriterMove(); }
        }
      }
    }

    /** A burst of the consumer, then one access of the producer, whose guard passes if there was room. */
    method WriterTurn(burst: seq<Move>, ghost b: Buffer, ghost before: seq<Move>) returns (ghost trace: seq<Move>)
      requires Valid() && Reached(b, before, Model()) && !writer.WIdle?
      modifies this, flags, data
      ensures Valid() && Reached(b, trace, Model()) && input == old(input)
      ensures old(writer).WSpin? ==> writer.WSpin? || writer == WFill(0)
      ensures old(writer).WSpin? && |old(input)| <= |old(output)| + size ==> writer == WFill(0)
      ensures old(writer).WFill? ==>
                writer == if old(writer).stored < words then WFill(old(writer).stored + 1) else WIdle
    {
      trace := Consumer(burst, b, before);
      WriterGuard(Model());
      ReachedStep(b, trace, Model(), WriterAccess);
      trace := trace + [WriterAccess];
      WriterMove();
    }

    /** enqueue against any behaviour of the consumer, which may make any moves before each access; a
        call that is still spinning when its patience ends reports so, and a call that starts with
        fewer than `size` unread items returns. */
    method Enqueue(value: Payload, env: nat -> seq<Move>, patience: nat) returns (done: bool, ghost trace: seq<Move>)
      requires Valid() && CanMove(Model(), Submit(value))
      modifies this, flags, data
      ensures Valid() && Reached(old(Model()), trace, Model())
      ensures input == old(input) + [value]
      ensures writer == if done then WIdle else WSpin
      ensures |old(input)| - |old(output)| < size ==> done
    {
      ghost var b := Model();
      ReachedStep(b, [], b, Submit(value));
      trace := [] + [Submit(value)];
      BeginEnqueue(value);
      var n := 0;
      while writer.WSpin? && n <= patience
        invariant Valid() && Reached(b, trace, Model())
        invariant input == old(input) + [value]
        invariant writer.WSpin? || writer == WFill(0)
        invariant if n == 0 then output == old(output) else |old(input)| - |old(output)| < size ==> !writer.WSpin?
      {
        trace := WriterTurn(env(n), b, trace);
        n := n + 1;
      }
      done := !writer.WSpin?;
      if !done { return; }
      trace := Fill(env, n, b, trace);
    }

    /** The stores of an enqueue that is past its guard. */
    method Fill(env: nat -> seq<Move>, n: nat, ghost b: Buffer, ghost before: seq<Move>)
      returns (ghost trace: seq<Move>)
      requires Valid() && Reached(b, before, Model()) && writer == WFill(0)
      modifies this, flags, data
      ensures Valid() && Reached(b, trace, Model()) && input == old(input) && writer.WIdle?
    {
      trace := before;
      for k := 0 to words
        invariant Valid() && Reached(b, trace, Model())
        invariant input == old(input) && writer == WFill(k)
      {
        trace := WriterTurn(env(n + k), b, trace);
      }
      trace := WriterTurn(env(n + words), b, trace);
    }

    /** A burst of the producer, then one access of the consumer, whose guard passes if an item was there. */
    method ReaderTurn(burst: seq<Move>, ghost b: Buffer, ghost before: seq<Move>) returns (ghost trace: seq<Move>)
      requires Valid() && Reached(b, before, Model()) && !reader.RIdle?
      modifies this, flags, data
      ensures Valid() && Reached(b, trace, Model())
      ensures old(reader).RSpin? ==> (reader.RSpin? || reader == RCopy([])) && output == old(output)
      ensures old(reader).RSpin? && |old(output)| < old(Published(Model())) ==> reader == RCopy([])
      ensures old(reader).RCopy? && |old(reader).copy| < words ==>
                reader.RCopy? && |reader.copy| == |old(reader).copy| + 1 && output == old(output)
      ensures old(reader).RCopy? && |old(reader).copy| == words ==>
                reader.RIdle? && output == old(output) + [old(reader).copy]
    {
      trace := Producer(burst, b, before);
      ReaderGuard(Model());
      ReachedStep(b, trace, Model(), ReaderAccess);
      trace := trace + [ReaderAccess];
      ReaderMove();
    }

    /** dequeue against any behaviour of the producer, which may make any moves before each access: the
        k-th call to return has the k-th value ever submitted, and a call that starts with an unread
        item returns. */
    method Dequeue(env: nat -> seq<Move>, patience: nat) returns (done: bool, value: Payload, ghost trace: seq<Move>)
      requires Valid() && CanMove(Model(), Request)
      modifies this, flags, data
      ensures Valid() && Reached(old(Model()), trace, Model())
      ensures if done then reader.RIdle? else reader.RSpin?
      ensures output == if done then old(output) + [value] else old(output)
      ensures done ==> |old(output)| < |input| && value == input[|old(output)|]
      ensures |old(output)| < old(Published(Model())) ==> done
    {
      ghost var b := Model();
      ReachedStep(b, [], b, Request);
      trace := [] + [Request];
      BeginDequeue();
      value := [];
      var n := 0;
      while reader.RSpin? && n <= patience
        invariant Valid() && Reached(b, trace, Model())
        invariant output == old(output) && (reader.RSpin? || reader == RCopy([]))
        invariant if n == 0 then Published(Model()) == Published(b) else |b.output| < Published(b) ==> !reader.RSpin?
      {
        trace := ReaderTurn(env(n), b, trace);
        n := n + 1;
      }
      done := !reader.RSpin?;
      if !done { return; }
      for k := 0 to words
        invariant Valid() && Reached(b, trace, Model())
        invariant output == old(output) && reader.RCopy? && |reader.copy| == k
      {
        trace := ReaderTurn(env(n + k), b, trace);
      }
      value := reader.copy;
      trace := ReaderTurn(env(n + words), b, trace);
      assert output[|old(output)|] == input[..|output|][|old(output)|];
    }
  }
}
