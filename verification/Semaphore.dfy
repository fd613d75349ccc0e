/** The counting semaphore with abortable waiters (src/lib/semaphore.ts). */
module Semaphore {
  datatype Outcome = Waiting | Granted | Rejected

  /** One queued acquire. `aborted` is its signal's flag, `outcome` what its promise was settled with. */
  class Waiter {
    var aborted: bool
    var outcome: Outcome

    constructor ()
      ensures outcome == Waiting && !aborted
    {
      aborted, outcome := false, Waiting;
    }
  }

  datatype Acquired = Immediately | RejectedAtOnce | Queued(waiter: Waiter)

  /** `splice(k, 1)` */
  function Without<T>(s: seq<T>, k: nat): (t: seq<T>)
    requires k < |s|
    ensures |t| == |s| - 1
  {
    s[..k] + s[k + 1..]
  }

  lemma WithoutFirst<T>(s: seq<T>, n: nat)
    requires n < |s|
    ensures Without(s[n..], 0) == s[n + 1..]
  {
  }

  /** All that is taken out is the element there. */
  lemma WithoutOne<T>(s: seq<T>, k: nat, x: T)
    requires k < |s| && forall i, j :: 0 <= i < j < |s| ==> s[i] != s[j]
    ensures x in Without(s, k) <==> x in s && x != s[k]
  {
    if x in s && x != s[k] {
      var i :| 0 <= i < |s| && s[i] == x;
      assert x == Without(s, k)[if i < k then i else i - 1];
    }
  }

  /** The queue is where `positions` says in the order of arrival. */
  predicate Placed<T(==)>(arrivals: seq<T>, waiting: seq<T>, positions: seq<nat>) {
    && |positions| == |waiting|
    && (forall k :: 0 <= k < |waiting| ==> positions[k] < |arrivals| && arrivals[positions[k]] == waiting[k])
    && (forall k, l :: 0 <= k < l < |positions| ==> positions[k] < positions[l])
  }

  predicate AllDiffer<T(==)>(s: seq<T>) {
    forall i, j :: 0 <= i < j < |s| ==> s[i] != s[j]
  }

  lemma PlacedWithout<T>(arrivals: seq<T>, waiting: seq<T>, positions: seq<nat>, k: nat)
    requires Placed(arrivals, waiting, positions) && k < |waiting| && AllDiffer(arrivals)
    ensures Placed(arrivals, Without(waiting, k), Without(positions, k))
    ensures AllDiffer(waiting) && AllDiffer(positions)
  {
  }

  lemma PlacedSnoc<T>(arrivals: seq<T>, waiting: seq<T>, positions: seq<nat>, x: T)
    requires Placed(arrivals, waiting, positions)
    ensures Placed(arrivals + [x], waiting + [x], positions + [|arrivals|])
  {
  }

  /** The signals of a queue. */
  ghost function Flags(queue: seq<Waiter>): (flags: seq<bool>)
    reads queue
    ensures |flags| == |queue| && forall k :: 0 <= k < |queue| ==> flags[k] == queue[k].aborted
  {
    seq(|queue|, k requires 0 <= k < |queue| reads queue => queue[k].aborted)
  }

  class Semaphore {
    const limit: nat
    var available: nat
    var waiting: seq<Waiter>
    ghost var held: nat
    ghost var arrivals: seq<Waiter>
    /** Where in `arrivals` each queued waiter is. */
    ghost var positions: seq<nat>

    /** The queue is exactly the unsettled waiters, in order of arrival. */
    ghost predicate InOrder()
      reads this, arrivals
    {
      && Placed(arrivals, waiting, positions)
      && (forall i :: 0 <= i < |arrivals| ==> (arrivals[i].outcome == Waiting <==> i in positions))
    }

    /** Nobody has been granted a permit ahead of an earlier waiter. */
    ghost predicate Fair()
      reads this, arrivals
    {
      forall i, j :: 0 <= i < j < |arrivals| && arrivals[j].outcome == Granted ==> arrivals[i].outcome != Waiting
    }

    /** Permits are conserved, and none is free while somebody waits. */
    ghost predicate Valid()
      reads this, arrivals
    {
      && available + held == limit
      && (available > 0 ==> waiting == [])
      && AllDiffer(arrivals)
      && InOrder() && Fair()
    }

    /** Settled is settled: no promise is settled twice. */
    twostate predicate SettledOnce()
      reads this, arrivals
    {
      && old(arrivals) <= arrivals
      && forall w :: w in old(arrivals) && old(w.outcome) != Waiting ==> w.outcome == old(w.outcome)
    }

    constructor (permits: nat)
      requires permits >= 1
      ensures Valid() && limit == permits && available == permits && arrivals == [] && held == 0
    {
      limit, available, waiting, held, arrivals, positions := permits, permits, [], 0, [], [];
    }

    method Acquire(aborted: bool) returns (r: Acquired)
      requires Valid()
      modifies this
      ensures Valid()
      ensures aborted <==> r == RejectedAtOnce
      ensures r == RejectedAtOnce ==> unchanged(this)
      ensures r == Immediately ==> old(available) > 0 && held == old(held) + 1 && arrivals == old(arrivals)
      ensures r.Queued? ==>
                && old(available) == 0 && fresh(r.waiter) && r.waiter.outcome == Waiting
                && arrivals == old(arrivals) + [r.waiter] && held == old(held) && available == old(available)
    {
      if aborted { return RejectedAtOnce; }
      if available > 0 {
        available := available - 1;
        held := held + 1;
        return Immediately;
      }
      var waiter := new Waiter();
      PlacedSnoc(arrivals, waiting, positions, waiter);
      waiting := waiting + [waiter];
      positions := positions + [|arrivals|];
      arrivals := arrivals + [waiter];
      return Queued(waiter);
    }

    /** Signals go up, any number at once. */
    method RaiseSignals(ws: set<Waiter>)
      requires Valid()
      modifies ws
      ensures Valid() && SettledOnce()
      ensures forall w :: w in ws ==> w.aborted && w.outcome == old(w.outcome)
    {
      var left := ws;
      while left != {}
        invariant left <= ws && Valid()
        invariant forall w :: w in ws ==> w.outcome == old(w.outcome) && (w !in left ==> w.aborted)
      {
        var w :| w in left;
        w.aborted := true;
        left := left - {w};
      }
    }

    /** One queued waiter is settled, and leaves the queue. Only the first may be granted. */
    method Settle(k: nat, outcome: Outcome)
      requires Valid() && k < |waiting| && (outcome == Rejected || (outcome == Granted && k == 0))
      modifies this`waiting, this`positions, waiting[k]
      ensures Valid() && SettledOnce()
      ensures old(waiting[k]).outcome == outcome && old(waiting[k]).aborted == old(waiting[k].aborted)
      ensures waiting == Without(old(waiting), k) && old(waiting[k]) !in waiting
    {
      var next := waiting[k];
      PlacedWithout(arrivals, waiting, positions, k);
      WithoutOne(waiting, k, next);
      forall i { WithoutOne(positions, k, i); }
      waiting, positions := Without(waiting, k), Without(positions, k);
      next.outcome := outcome;
    }

    /** The abort listener of one waiter: it leaves the queue, unless it was settled before. */
    method HandleAbort(w: Waiter)
      requires Valid() && w in arrivals && w.aborted
      modifies this`waiting, this`positions, w
      ensures Valid() && SettledOnce()
      ensures old(w.outcome) == Waiting ==>
                w.outcome == Rejected && w !in waiting && |waiting| == |old(waiting)| - 1
      ensures old(w.outcome) != Waiting ==> waiting == old(waiting)
    {
      if w.outcome != Waiting { return; }
      ghost var i :| 0 <= i < |arrivals| && arrivals[i] == w;
      var k :| 0 <= k < |waiting| && waiting[k] == w;
      Settle(k, Rejected);
    }

    /** One pass of release: the first waiter gets the permit, or is rejected if its signal is up. */
    method Offer() returns (granted: bool)
      requires Valid() && waiting != []
      modifies this`waiting, this`positions, waiting[0]
      ensures Valid() && SettledOnce()
      ensures waiting == old(waiting)[1..] && old(waiting[0]) !in waiting
      ensures granted == !old(waiting[0].aborted)
      ensures old(waiting[0]).outcome == (if granted then Granted else Rejected)
      ensures old(waiting[0]).aborted == old(waiting[0].aborted)
    {
      granted := !waiting[0].aborted;
      WithoutFirst(waiting, 0);
      assert waiting[0..] == waiting;
      Settle(0, if granted then Granted else Rejected);
    }

    /** The first n had their signals up, and are rejected. */
    ghost predicate RejectedBefore(queue: seq<Waiter>, flags: seq<bool>, n: nat)
      requires n <= |queue| == |flags|
      reads queue
    {
      forall k :: 0 <= k < n ==> flags[k] && queue[k].outcome == Rejected
    }

    /** Release has gone past the first n of the queue it met: their signals were up, and the
        others are as they were. */
    ghost predicate Passed(queue: seq<Waiter>, flags: seq<bool>, n: nat)
      reads this, queue
    {
      && n <= |queue| == |flags| && AllDiffer(queue) && waiting == queue[n..]
      && (forall k :: 0 <= k < n ==> flags[k] && queue[k].outcome == Rejected)
      && (forall k :: n <= k < |queue| ==> queue[k].aborted == flags[k])
    }

    /** The next pass. */
    method Pass(ghost queue: seq<Waiter>, ghost flags: seq<bool>, ghost n: nat) returns (granted: bool)
      requires Valid() && waiting != [] && Passed(queue, flags, n)
      modifies this`waiting, this`positions, waiting[0]
      ensures Valid() && SettledOnce()
      ensures granted == !flags[n]
      ensures if granted then
                queue[n].outcome == Granted && waiting == queue[n + 1..] && RejectedBefore(queue, flags, n)
              else
                Passed(queue, flags, n + 1)
    {
      assert waiting[0] == queue[n] && waiting[1..] == queue[n + 1..];
      granted := Offer();
    }

    /** Nobody waits: the permit becomes free. */
    method Free()
      requires Valid() && held > 0 && waiting == []
      modifies this`available, this`held
      ensures Valid() && SettledOnce() && held == old(held) - 1 && available == old(available) + 1
    {
      available := available + 1;
      held := held - 1;
    }

    /** release: the first waiter whose signal is not up gets the permit, and those before it are
        rejected. Without such a waiter the permit becomes free. */
    method Release() returns (ghost n: nat)
      requires Valid() && held > 0
      modifies this, waiting
      ensures Valid() && SettledOnce() && arrivals == old(arrivals)
      ensures n <= |old(waiting)| && RejectedBefore(old(waiting), old(Flags(waiting)), n)
      ensures n < |old(waiting)| ==>
                && !old(waiting[n].aborted) && old(waiting)[n].outcome == Granted && waiting == old(waiting)[n + 1..]
                && held == old(held) && available == old(available)
      ensures n == |old(waiting)| ==> waiting == [] && held == old(held) - 1 && available == old(available) + 1
    {
      n := 0;
      ghost var queue, flags := waiting, Flags(waiting);
      if waiting != [] { PlacedWithout(arrivals, waiting, positions, 0); }
      while waiting != []
        invariant Valid() && SettledOnce()
        invariant arrivals == old(arrivals) && held == old(held) && available == old(available)
        invariant Passed(queue, flags, n)
        decreases |waiting|
      {
        var granted := Pass(queue, flags, n);
        if granted { return; }
        n := n + 1;
      }
      Free();
    }
  }
}
