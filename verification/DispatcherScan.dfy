/** The dispatcher's search for a free worker, as loops over the workers' pool flags while the
    workers free themselves concurrently. */
module DispatcherScan {
  import opened Bits

  /** The worker at attempt k of a search among n workers that begins at `start`: (start + k) modulo n. */
  function Tried(start: nat, k: nat, n: nat): (i: nat)
    requires n > 0
    ensures i < n
  {
    SlotOf(start + k, n)
  }

  /** A pass of n attempts from any start tries every worker exactly once. */
  lemma PassCoversAll(start: nat, n: nat, i: nat)
    requires start < n && i < n
    ensures exists k: nat :: k < n && Tried(start, k, n) == i
    ensures forall j: nat, k: nat | j < n && k < n && Tried(start, j, n) == i && Tried(start, k, n) == i :: j == k
  {
    var k: nat := if i >= start then i - start else i + n - start;
    assert SlotOf(i, n) == i && SlotOf(i + n, n) == SlotOf(i, n);
    assert Tried(start, k, n) == i;
    forall j: nat | j < n && Tried(start, j, n) == i ensures j == k {
      if j <= k { SlotClose(start + j, start + k, n); } else { SlotClose(start + k, start + j, n); }
    }
  }

  /** A pass is back where it started exactly after n attempts. */
  lemma BackAtStart(start: nat, attempts: nat, n: nat)
    requires start < n && 0 < attempts <= n
    ensures Tried(start, attempts, n) == start <==> attempts == n
  {
    assert SlotOf(start, n) == start && SlotOf(start + n, n) == SlotOf(start, n);
    if attempts < n { SlotClose(start, start + attempts, n); }
  }

  /** The attempt after attempt k is at the round-robin successor. */
  lemma TriedNext(start: nat, k: nat, n: nat)
    requires n > 0
    ensures Tried(start, k + 1, n) == (Tried(start, k, n) + 1) % n
  {
    SlotAdd(start + k, 1, n);
    SlotIsModulo(Tried(start, k, n) + 1, n);
  }

  /** The number of attempts in the given number of failing passes. */
  function Attempts(passes: nat, n: nat): (a: nat) {
    if passes == 0 then 0 else Attempts(passes - 1, n) + n
  }

  lemma {:induction false} TriedAfterPasses(start: nat, passes: nat, k: nat, n: nat)
    requires n > 0
    ensures Tried(start, Attempts(passes, n) + k, n) == Tried(start, k, n)
  {
    if passes == 0 {
    } else {
      TriedAfterPasses(start, passes - 1, k, n);
    }
  }

  /** Worker i frees itself right before one of the attempts lo, ..., hi - 1. */
  ghost predicate Freed(frees: nat -> set<nat>, i: nat, lo: nat, hi: nat) {
    exists j: nat :: lo <= j < hi && i in frees(j)
  }

  /** The flag of worker i when, from the given flags on, frees(lo), ..., frees(hi - 1) have happened
      and no worker has been assigned to. */
  ghost function Flag(flags: seq<nat>, frees: nat -> set<nat>, i: nat, lo: nat, hi: nat): (f: nat)
    requires i < |flags|
  {
    if Freed(frees, i, lo, hi) then 0 else flags[i]
  }

  /** Attempt k after `lo` finds its worker busy. */
  ghost predicate Fails(flags: seq<nat>, frees: nat -> set<nat>, start: nat, lo: nat, k: nat)
    requires flags != []
  {
    Flag(flags, frees, Tried(start, k, |flags|), lo, lo + k + 1) == 1
  }

  lemma FreedMore(frees: nat -> set<nat>, i: nat, lo: nat, hi: nat)
    requires lo <= hi
    ensures Freed(frees, i, lo, hi + 1) <==> Freed(frees, i, lo, hi) || i in frees(hi)
  {
    if i in frees(hi) { assert Freed(frees, i, lo, hi + 1); }
  }

  /** The flags of a search, seen from the start of a later pass. */
  lemma FlagLater(flags: seq<nat>, mid: seq<nat>, frees: nat -> set<nat>, i: nat, m: nat, hi: nat)
    requires m <= hi && |flags| == |mid| && i < |mid| && mid[i] == Flag(flags, frees, i, 0, m)
    ensures Flag(mid, frees, i, m, hi) == Flag(flags, frees, i, 0, hi)
  {
    if Freed(frees, i, 0, hi) {
      var j: nat :| 0 <= j < hi && i in frees(j);
      assert j < m || m <= j < hi;
    }
  }

  lemma FailsLater(flags: seq<nat>, mid: seq<nat>, frees: nat -> set<nat>, start: nat, passes: nat, k: nat)
    requires |flags| == |mid| && flags != []
    requires forall i: nat | i < |mid| :: mid[i] == Flag(flags, frees, i, 0, Attempts(passes, |flags|))
    ensures Fails(mid, frees, start, Attempts(passes, |flags|), k)
         == Fails(flags, frees, start, 0, Attempts(passes, |flags|) + k)
  {
    var n := |flags|;
    TriedAfterPasses(start, passes, k, n);
    FlagLater(flags, mid, frees, Tried(start, k, n), Attempts(passes, n), Attempts(passes, n) + k + 1);
  }

  /** What the attempts lo, ..., lo + attempts - 1 of a search from `start` have done to the flags: every
      worker tried before the last attempt was busy when it was tried, the last one tried was free exactly
      if one was found, and then its flag has been raised; no other flag has been raised. */
  ghost predicate Outcome(flags: seq<nat>, after: seq<nat>, frees: nat -> set<nat>, start: nat, lo: nat,
                          attempts: nat, found: bool, worker: nat)
    requires flags != [] && |after| == |flags|
  {
    && 0 < attempts && worker == Tried(start, attempts - 1, |flags|)
    && (forall k: nat | k < attempts - 1 :: Fails(flags, frees, start, lo, k))
    && (if found then Flag(flags, frees, worker, lo, lo + attempts) == 0
        else Fails(flags, frees, start, lo, attempts - 1))
    && forall i: nat | i < |flags| ::
         after[i] == if found && i == worker then 1 else Flag(flags, frees, i, lo, lo + attempts)
  }

  /** A search that has failed for some whole passes, and then one more pass. */
  lemma OutcomeJoin(flags: seq<nat>, mid: seq<nat>, after: seq<nat>, frees: nat -> set<nat>, start: nat,
                    passes: nat, last: nat, more: nat, found: bool, worker: nat)
    requires flags != [] && |flags| == |mid| == |after|
    requires Outcome(flags, mid, frees, start, 0, Attempts(passes, |flags|), false, last)
    requires Outcome(mid, after, frees, start, Attempts(passes, |flags|), more, found, worker)
    ensures Outcome(flags, after, frees, start, 0, Attempts(passes, |flags|) + more, found, worker)
  {
    var n, done := |flags|, Attempts(passes, |flags|);
    TriedAfterPasses(start, passes, more - 1, n);
    forall k: nat | k < more ensures Fails(mid, frees, start, done, k) == Fails(flags, frees, start, 0, done + k) {
      FailsLater(flags, mid, frees, start, passes, k);
    }
    forall k: nat | k < done + more - 1 ensures Fails(flags, frees, start, 0, k) {
      if k >= done { assert Fails(mid, frees, start, done, k - done); }
    }
    var all := done + more;
    forall i: nat | i < n ensures Flag(mid, frees, i, done, all) == Flag(flags, frees, i, 0, all) {
      FlagLater(flags, mid, frees, i, done, all);
    }
  }

  class Scanner {
    const poolFlags: array<nat>
    var id: nat

    ghost predicate Valid()
      reads this, poolFlags
    {
      && id < poolFlags.Length
      && forall i | 0 <= i < poolFlags.Length :: poolFlags[i] == 0 || poolFlags[i] == 1
    }

    constructor (workers: nat)
      requires workers > 0
      ensures Valid() && fresh(poolFlags) && poolFlags.Length == workers && id == 0
      ensures forall i | 0 <= i < workers :: poolFlags[i] == 0
    {
      poolFlags := new nat[workers](_ => 0);
      id := 0;
    }

    /** The flags are those that `flags` became while frees(lo), ..., frees(hi - 1) happened, except that
        `worker` has been assigned to if `found`. */
    ghost predicate FlagsAre(flags: seq<nat>, frees: nat -> set<nat>, lo: nat, hi: nat, found: bool, worker: nat)
      reads poolFlags
    {
      && |flags| == poolFlags.Length
      && forall i: nat | i < |flags| ::
           poolFlags[i] == if found && i == worker then 1 else Flag(flags, frees, i, lo, hi)
    }

    /** The workers in `free` finish their tasks and lower their flags. */
    method WorkersFree(free: set<nat>)
      requires Valid()
      modifies poolFlags
      ensures Valid()
      ensures forall i | 0 <= i < poolFlags.Length :: poolFlags[i] == if i in free then 0 else old(poolFlags[i])
    {
      for i := 0 to poolFlags.Length
        invariant forall k | 0 <= k < i :: poolFlags[k] == if k in free then 0 else old(poolFlags[k])
        invariant forall k | i <= k < poolFlags.Length :: poolFlags[k] == old(poolFlags[k])
      {
        if i in free { poolFlags[i] := 0; }
      }
    }

    /** One attempt: some workers become free, then the compare-exchange of the current worker's flag,
        then the index moves on. */
    method Attempt(frees: nat -> set<nat>, ghost flags: seq<nat>, ghost lo: nat, now: nat) returns (found: bool)
      requires Valid() && lo <= now && FlagsAre(flags, frees, lo, now, false, 0)
      modifies this, poolFlags
      ensures Valid() && id == (old(id) + 1) % poolFlags.Length
      ensures Flag(flags, frees, old(id), lo, now + 1) == if found then 0 else 1
      ensures FlagsAre(flags, frees, lo, now + 1, found, old(id))
    {
      WorkersFree(frees(now));
      forall i: nat ensures Freed(frees, i, lo, now + 1) <==> Freed(frees, i, lo, now) || i in frees(now) {
        FreedMore(frees, i, lo, now);
      }
      found := poolFlags[id] == 0;
      if found { poolFlags[id] := 1; }
      id := (id + 1) % poolFlags.Length;
    }

    /** One pass, whose k-th attempt is number lo + k of the search.  A failing pass has tried every worker
        once, found it busy and is back where it started, so a pass that starts with a free worker assigns;
        a pass that assigns has moved past the worker that it took. */
    method Pass(frees: nat -> set<nat>, lo: nat) returns (found: bool, worker: nat, attempts: nat)
      requires Valid()
      modifies this, poolFlags
      ensures Valid() && attempts <= poolFlags.Length
      ensures Outcome(old(poolFlags[..]), poolFlags[..], frees, old(id), lo, attempts, found, worker)
      ensures id == if found then (worker + 1) % poolFlags.Length else old(id)
      ensures !found ==> attempts == poolFlags.Length
      ensures (exists i: nat :: i < poolFlags.Length && old(poolFlags[i]) == 0) ==> found
    {
      ghost var flags := poolFlags[..];
      var start, n := id, poolFlags.Length;
      found, worker, attempts := false, id, 0;
      while true
        invariant Valid() && 0 <= attempts < n && !found && start < n
        invariant id == Tried(start, attempts, n)
        invariant forall k: nat | k < attempts :: Fails(flags, frees, start, lo, k)
        invariant FlagsAre(flags, frees, lo, lo + attempts, false, 0)
        decreases n - attempts
      {
        worker := id;
        found := Attempt(frees, flags, lo, lo + attempts);
        TriedNext(start, attempts, n);
        attempts := attempts + 1;
        if found { break; }
        BackAtStart(start, attempts, n);
        assert Fails(flags, frees, start, lo, attempts - 1);
        if id == start { break; }
      }
      if !found {
        forall i: nat | i < n ensures flags[i] != 0 {
          PassCoversAll(start, n, i);
          var k: nat :| k < n && Tried(start, k, n) == i;
          assert Fails(flags, frees, start, lo, k);
        }
      }
    }

    /** The search: pass after pass until one assigns, for at most `patience` further passes.  Attempt k
        is at worker (id + k) modulo n, and frees(k) happens right before it. */
    method Assign(frees: nat -> set<nat>, patience: nat) returns (found: bool, worker: nat, attempts: nat)
      requires Valid()
      modifies this, poolFlags
      ensures Valid()
      ensures Outcome(old(poolFlags[..]), poolFlags[..], frees, old(id), 0, attempts, found, worker)
      ensures id == if found then (worker + 1) % poolFlags.Length else old(id)
      ensures !found ==> attempts == Attempts(patience + 1, poolFlags.Length)
      ensures (exists i: nat :: i < poolFlags.Length && old(poolFlags[i]) == 0) ==>
                found && attempts <= poolFlags.Length
    {
      ghost var flags, start := poolFlags[..], id;
      found, worker, attempts := Pass(frees, 0);
      ghost var inFirst := found;
      var passes := 1;
      while !found && passes <= patience
        invariant Valid() && 1 <= passes <= patience + 1
        invariant Outcome(flags, poolFlags[..], frees, start, 0, attempts, found, worker)
        invariant id == if found then (worker + 1) % poolFlags.Length else start
        invariant !found ==> attempts == Attempts(passes, poolFlags.Length)
        invariant inFirst ==> found && attempts <= poolFlags.Length
      {
        ghost var mid, last := poolFlags[..], worker;
        var more;
        found, worker, more := Pass(frees, attempts);
        OutcomeJoin(flags, mid, poolFlags[..], frees, start, passes, last, more, found, worker);
        attempts, passes := attempts + more, passes + 1;
      }
    }
  }
}
