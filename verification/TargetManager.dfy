/**
 The target's connection budget: growing, recycling, shrinking, health checks and drain, and the count of open
 connections that they share.
 */
module TargetManager {
  import opened Sequences

  type Conn = nat

  datatype Sample = Sample(active: nat, at: int)

  /** A pool: every connection it owns, the idle ones in the queue, those waiting to be closed, and the peak samples. */
  datatype Pool = Pool(all: seq<Conn>, queue: seq<Conn>, closing: seq<Conn>, samples: seq<Sample>, connCount: nat,
                       capacity: nat)

  predicate Sound(p: Pool) {
    && Distinct(p.all) && Distinct(p.queue) && Distinct(p.closing) && p.connCount == |p.all|
    && SetOf(p.queue) <= SetOf(p.all) && SetOf(p.closing) <= SetOf(p.all) && SetOf(p.queue) !! SetOf(p.closing)
  }

  function Owned(ps: seq<Pool>): nat { if ps == [] then 0 else Owned(ps[..|ps| - 1]) + |ps[|ps| - 1].all| }

  lemma {:induction false} OwnedUpdate(ps: seq<Pool>, i: nat, p: Pool)
    requires i < |ps|
    ensures Owned(ps[i := p]) == Owned(ps) - |ps[i].all| + |p.all|
  {
    var n := |ps| - 1;
    if i < n {
      OwnedUpdate(ps[..n], i, p);
      assert ps[i := p][..n] == ps[..n][i := p];
    } else {
      assert ps[i := p][..n] == ps[..n];
    }
  }

  lemma {:induction false} Size(q: seq<Conn>)
    requires Distinct(q)
    ensures |SetOf(q)| == |q|
  {
    if q != [] {
      var n := |q| - 1;
      Size(q[..n]);
      assert SetOf(q) == SetOf(q[..n]) + {q[n]};
    }
  }

  lemma Narrower(a: set<Conn>, b: set<Conn>)
    requires a <= b
    ensures |b - a| == |b| - |a|
  {
    assert b == a + (b - a) && a !! (b - a);
  }

  // --- Peak tracking ---

  /** ActiveConnections: connections checked out, by the counters. */
  function Active(p: Pool): nat { if |p.queue| > p.connCount then 0 else p.connCount - |p.queue| }

  /** Drops the samples before the cutoff from the front. */
  function Prune(s: seq<Sample>, cutoff: int): seq<Sample> {
    if s != [] && s[0].at < cutoff then Prune(s[1..], cutoff) else s
  }

  /** The high-water mark: at least 1. */
  function Peak(s: seq<Sample>): (m: nat)
    ensures m >= 1
    ensures forall x :: x in s ==> x.active <= m
    ensures m == 1 || exists x :: x in s && x.active == m
  {
    if s == [] then 1
    else
      var m := Peak(s[..|s| - 1]);
      assert forall x :: x in s <==> x in s[..|s| - 1] || x == s[|s| - 1];
      if s[|s| - 1].active > m then s[|s| - 1].active else m
  }

  function Sampled(p: Pool, now: int, window: nat): Pool {
    p.(samples := Prune(p.samples + [Sample(Active(p), now)], now - window))
  }

  function Excess(p: Pool): nat { if |p.queue| > Peak(p.samples) + 1 then |p.queue| - (Peak(p.samples) + 1) else 0 }

  predicate Contended(p: Pool) { |p.all| == 0 || Active(p) == |p.all| }

  predicate Ordered(s: seq<Sample>) { forall i, j :: 0 <= i < j < |s| ==> s[i].at <= s[j].at }

  /** With stamps that never go back, pruning the front keeps exactly the samples of the window. */
  lemma {:induction false} PruneKeepsWindow(s: seq<Sample>, cutoff: int)
    requires Ordered(s)
    ensures Ordered(Prune(s, cutoff))
    ensures forall x :: x in Prune(s, cutoff) <==> x in s && x.at >= cutoff
  {
    if s != [] && s[0].at < cutoff {
      assert Ordered(s[1..]);
      PruneKeepsWindow(s[1..], cutoff);
      assert forall x :: x in s <==> x == s[0] || x in s[1..];
    }
  }

  /** The high-water mark is 1 or the peak of the connections in use over the window. */
  lemma PeakOfWindow(p: Pool, now: int, window: nat)
    requires Ordered(p.samples) && (forall x :: x in p.samples ==> x.at <= now)
    ensures var m := Peak(Sampled(p, now, window).samples);
      && Ordered(Sampled(p, now, window).samples)
      && m >= 1 && m >= Active(p)
      && (forall x :: x in p.samples && x.at >= now - window ==> x.active <= m)
      && (m == 1 || m == Active(p) || exists x :: x in p.samples && x.at >= now - window && x.active == m)
  {
    var s := p.samples + [Sample(Active(p), now)];
    forall i | 0 <= i < |p.samples| ensures s[i].at <= now { assert s[i] in p.samples; }
    assert Ordered(s);
    PruneKeepsWindow(s, now - window);
    assert forall x :: x in s <==> x in p.samples || x == Sample(Active(p), now);
    assert Sample(Active(p), now) in Prune(s, now - window);
  }

  /** Spare is what is idle beyond the high-water mark and one. */
  lemma SpareIff(p: Pool)
    ensures Excess(p) > 0 <==> |p.queue| > Peak(p.samples) + 1
    ensures Excess(p) > 0 ==> Excess(p) + Peak(p.samples) + 1 == |p.queue|
  {
  }

  /** The connections in use, by the counters, are those that clients have and those that wait to be closed. */
  lemma ActiveIsOut(p: Pool)
    requires Sound(p)
    ensures Active(p) == |p.all| - |p.queue| == |CheckedOut(p)| + |p.closing|
  {
    Size(p.queue);
    Size(p.all);
    Size(p.closing);
    Narrower(SetOf(p.queue), SetOf(p.all));
    Narrower(SetOf(p.closing), SetOf(p.all) - SetOf(p.queue));
  }

  /** A pool needs a connection exactly when none is idle. */
  lemma ContendedIff(p: Pool)
    requires Sound(p)
    ensures Contended(p) <==> p.queue == []
  {
    ActiveIsOut(p);
  }

  /** A pool that needs a connection has none to give away. */
  lemma ContendedIsNoDonor(p: Pool)
    requires Sound(p) && Contended(p)
    ensures Excess(p) == 0
  {
    Size(p.queue);
    Size(p.all);
    Narrower(SetOf(p.queue), SetOf(p.all));
  }

  // --- Health check ---

  /** The connections of the queue that stay, in order. */
  function Young(q: seq<Conn>, aged: set<Conn>): seq<Conn> {
    if q == [] then [] else Young(q[..|q| - 1], aged) + if q[|q| - 1] in aged then [] else [q[|q| - 1]]
  }

  /** removeFromAll: the last entry takes the place of the one removed. */
  method RemoveFromAll(all: seq<Conn>, c: Conn) returns (r: seq<Conn>)
    requires Distinct(all)
    ensures Distinct(r) && SetOf(r) == SetOf(all) - {c}
    ensures |r| == if c in all then |all| - 1 else |all|
  {
    var i := 0;
    while i < |all|
      invariant 0 <= i <= |all| && c !in all[..i]
    {
      if all[i] == c {
        r := all[i := all[|all| - 1]];
        r := r[..|r| - 1];
        SwapRemoved(all, i);
        return;
      }
      i := i + 1;
    }
    assert all[..i] == all;
    return all;
  }

  lemma SwapRemoved(all: seq<Conn>, i: nat)
    requires Distinct(all) && i < |all|
    ensures var r := all[i := all[|all| - 1]][..|all| - 1];
      Distinct(r) && SetOf(r) == SetOf(all) - {all[i]}
  {
    var n := |all| - 1;
    var r := all[i := all[n]][..n];
    forall c ensures c in SetOf(r) <==> c in SetOf(all) - {all[i]} {
      if c in all && c != all[i] {
        var j :| 0 <= j < |all| && all[j] == c;
        assert if j == n then r[i] == c else r[j] == c;
      }
    }
  }

  class Target {
    const maxConnections: nat
    var pools: seq<Pool>
    var totalOpen: int
    var atomicTotalOpen: int
    var privileged: bool
    var nextConn: Conn

    constructor (maxConnections: nat)
      ensures this.maxConnections == maxConnections && Valid() && Counted() && pools == [] && totalOpen == 0
    {
      this.maxConnections := maxConnections;
      pools, totalOpen, atomicTotalOpen, privileged, nextConn := [], 0, 0, false, 0;
    }

    predicate Valid()
      reads this
    {
      forall i :: 0 <= i < |pools| ==> Sound(pools[i]) && forall c :: c in pools[i].all ==> c < nextConn
    }

    /** Conservation: the count is the privileged connection and everything the pools own. */
    predicate Counted()
      reads this
    {
      totalOpen == (if privileged then 1 else 0) + Owned(pools)
    }

    /** StorePool. */
    method StorePool(capacity: nat)
      requires Valid() && Counted()
      modifies this`pools
      ensures Valid() && Counted() && pools == old(pools) + [Pool([], [], [], [], 0, capacity)]
    {
      pools := pools + [Pool([], [], [], [], 0, capacity)];
      assert pools[..|pools| - 1] == old(pools);
    }

    /** openPrivilegedConn, once it succeeds. */
    method OpenPrivileged()
      requires Counted() && !privileged
      modifies this`totalOpen, this`atomicTotalOpen, this`privileged
      ensures Counted() && privileged && totalOpen == old(totalOpen) + 1 && atomicTotalOpen == totalOpen
    {
      privileged := true;
      totalOpen := totalOpen + 1;
      atomicTotalOpen := totalOpen;
    }

    /** borrowConn, when a connection is idle: the head of the queue goes to a client. */
    method BorrowConn(i: nat) returns (borrowed: bool, c: Conn)
      requires Valid() && Counted() && i < |pools|
      modifies this`pools
      ensures Valid() && Counted() && borrowed == (old(pools)[i].queue != [])
      ensures if borrowed then
                c == old(pools)[i].queue[0]
                    && pools == old(pools)[i := old(pools)[i].(queue := old(pools)[i].queue[1..])]
                && CheckedOut(pools[i]) == CheckedOut(old(pools)[i]) + {c}
              else pools == old(pools)
    {
      var p := pools[i];
      if p.queue == [] { return false, 0; }
      var q := p.(queue := p.queue[1..]);
      TakenOut(p, q);
      OwnedUpdate(pools, i, q);
      pools := pools[i := q];
      return true, p.queue[0];
    }

    /** Return: a connection that a client has goes back to the queue, or is left to be closed when the queue is
        full. */
    method ReturnConn(i: nat, c: Conn)
      requires Valid() && Counted() && i < |pools| && c in CheckedOut(pools[i])
      modifies this`pools
      ensures Valid() && Counted()
      ensures var p := old(pools)[i];
        && pools == old(pools)[i := if |p.queue| < p.capacity then p.(queue := p.queue + [c])
                                    else p.(closing := p.closing + [c])]
        && CheckedOut(pools[i]) == CheckedOut(p) - {c}
    {
      var p := pools[i];
      PutBack(p, c);
      var q := if |p.queue| < p.capacity then p.(queue := p.queue + [c]) else p.(closing := p.closing + [c]);
      OwnedUpdate(pools, i, q);
      pools := pools[i := q];
    }

    /** Release: a connection that a client has is left to be closed. */
    method ReleaseConn(i: nat, c: Conn)
      requires Valid() && Counted() && i < |pools| && c in CheckedOut(pools[i])
      modifies this`pools
      ensures Valid() && Counted()
      ensures pools == old(pools)[i := old(pools)[i].(closing := old(pools)[i].closing + [c])]
      ensures CheckedOut(pools[i]) == CheckedOut(old(pools)[i]) - {c}
    {
      var p := pools[i];
      PutBack(p, c);
      OwnedUpdate(pools, i, p.(closing := p.closing + [c]));
      pools := pools[i := p.(closing := p.closing + [c])];
    }

    /** openOne: nothing when opening fails; undone when the queue is full. */
    method OpenOne(i: nat, opens: bool)
      requires Valid() && Counted() && i < |pools|
      modifies this`pools, this`totalOpen, this`atomicTotalOpen, this`nextConn
      ensures Valid() && Counted() && |pools| == |old(pools)|
      ensures var grown := opens && |old(pools)[i].queue| < old(pools)[i].capacity;
        && totalOpen == old(totalOpen) + (if grown then 1 else 0)
        && (grown ==> atomicTotalOpen == old(atomicTotalOpen))
        && pools == if grown then old(pools)[i := Grown(old(pools)[i], old(nextConn))] else old(pools)
    {
      if !opens { return; }
      var p, c := pools[i], nextConn;
      nextConn := nextConn + 1;
      var q := p.(all := p.all + [c], connCount := |p.all| + 1);
      totalOpen := totalOpen + 1;
      if |p.queue| < p.capacity {
        GrownIsSound(p, c);
        OwnedUpdate(pools, i, Grown(p, c));
        pools := pools[i := q.(queue := q.queue + [c])];
      } else {
        totalOpen := totalOpen - 1;
        atomicTotalOpen := totalOpen;
        assert q.all[..|q.all| - 1] == p.all;
        pools := pools[i := q.(all := q.all[..|q.all| - 1], connCount := |q.all| - 1)];
        assert pools == old(pools);
      }
    }

    /** closeOneIdle. */
    method CloseOneIdle(i: nat) returns (closed: bool)
      requires Valid() && Counted() && i < |pools|
      modifies this`pools, this`totalOpen, this`atomicTotalOpen
      ensures Valid() && Counted() && |pools| == |old(pools)|
      ensures closed == (old(pools)[i].queue != [])
      ensures totalOpen == old(totalOpen) - (if closed then 1 else 0)
      ensures if closed then ShrunkBy(old(pools)[i], pools[i], old(pools)[i].queue[0])
          && pools == old(pools)[i := pools[i]]
              else pools == old(pools)
    {
      var p := pools[i];
      if p.queue == [] { return false; }
      var c := p.queue[0];
      totalOpen := totalOpen - 1;
      atomicTotalOpen := totalOpen;
      var all := RemoveFromAll(p.all, c);
      var q := p.(queue := p.queue[1..], all := all, connCount := |all|);
      HeadRemoved(p, q);
      OwnedUpdate(pools, i, q);
      pools := pools[i := q];
      return true;
    }

    /** handleClose of a connection that was checked out and released. */
    method HandleClose(i: nat, c: Conn)
      requires Valid() && Counted() && i < |pools| && c in pools[i].closing
      modifies this`pools, this`totalOpen
      ensures Valid() && Counted() && totalOpen == old(totalOpen) - 1
      ensures |pools| == |old(pools)| && pools == old(pools)[i := pools[i]]
      ensures pools[i].queue == old(pools)[i].queue && SetOf(pools[i].all) == SetOf(old(pools)[i].all) - {c}
      ensures SetOf(pools[i].closing) == SetOf(old(pools)[i].closing) - {c}
    {
      var p := pools[i];
      totalOpen := totalOpen - 1;
      var all := RemoveFromAll(p.all, c);
      var closing := RemoveFromAll(p.closing, c);
      var q := p.(all := all, closing := closing, connCount := |all|);
      assert c in SetOf(p.closing) && c in SetOf(p.all);
      assert c !in SetOf(p.queue);
      assert Sound(q);
      assert forall x :: x in q.all <==> x in SetOf(q.all);
      OwnedUpdate(pools, i, q);
      pools := pools[i := q];
    }

    /** The sampling pass of growthCycle. */
    method SamplePools(now: int, window: nat)
      requires Valid() && Counted()
      modifies this`pools
      ensures Valid() && Counted() && |pools| == |old(pools)|
      ensures forall i :: 0 <= i < |pools| ==> pools[i] == Sampled(old(pools)[i], now, window)
    {
      var i := 0;
      while i < |pools|
        invariant 0 <= i <= |pools| == |old(pools)|
        invariant forall j :: 0 <= j < i ==> pools[j] == Sampled(old(pools)[j], now, window)
        invariant forall j :: i <= j < |pools| ==> pools[j] == old(pools)[j]
        invariant Owned(pools) == Owned(old(pools))
      {
        var p := pools[i];
        var samples := p.samples + [Sample(Active(p), now)];
        var k := 0;
        while k < |samples| && samples[k].at < now - window
          invariant 0 <= k <= |samples|
          invariant Prune(samples, now - window) == Prune(samples[k..], now - window)
        {
          assert samples[k..][1..] == samples[k + 1..];
          k := k + 1;
        }
        var q := p.(samples := samples[k..]);
        OwnedUpdate(pools, i, q);
        pools := pools[i := q];
        i := i + 1;
      }
    }

    /** The pools that need a connection and the pools that can give some away, with how many. */
    method Sort() returns (contended: seq<nat>, donors: seq<nat>, excess: seq<nat>)
      ensures contended == Needy(pools) && donors == Donors(pools) && excess == Excesses(pools)
    {
      contended, donors, excess := [], [], [];
      var i := 0;
      while i < |pools|
        invariant 0 <= i <= |pools|
        invariant contended == Needy(pools[..i]) && donors == Donors(pools[..i]) && excess == Excesses(pools[..i])
      {
        assert pools[..i + 1][..i] == pools[..i];
        if Contended(pools[i]) { contended := contended + [i]; }
        if Excess(pools[i]) > 0 { donors, excess := donors + [i], excess + [Excess(pools[i])]; }
        i := i + 1;
      }
      assert pools[..i] == pools;
    }

    /** Frees a slot: the first donor that is not the pool in need gives one idle connection, if it has one. */
    method RecycleSlot(needy: nat, donors: seq<nat>, left: seq<nat>, idleIdx: nat)
      returns (recycled: bool, rest: seq<nat>, next: nat)
      requires Valid() && Counted() && Members(donors, |pools|) && |left| == |donors| && idleIdx <= |donors|
      requires forall d :: idleIdx <= d < |donors| ==> left[d] > 0
      modifies this`pools, this`totalOpen, this`atomicTotalOpen
      ensures Valid() && Counted() && |pools| == |old(pools)|
      ensures totalOpen == old(totalOpen) - (if recycled then 1 else 0)
      ensures var d := FirstOther(donors, needy, idleIdx);
        && recycled == (d < |donors| && old(pools)[donors[d]].queue != [])
        && (if recycled then
              TookOne(old(pools), pools, donors[d]) && rest == left[d := left[d] - 1]
              && next == (if left[d] == 1 then d + 1 else d)
            else pools == old(pools) && rest == left && next == d)
    {
      recycled, rest, next := false, left, idleIdx;
      while next < |donors|
        invariant idleIdx <= next <= |donors| && pools == old(pools) && totalOpen == old(totalOpen)
        invariant rest == left && !recycled && Valid() && Counted()
        invariant FirstOther(donors, needy, next) == FirstOther(donors, needy, idleIdx)
      {
        var i := donors[next];
        if i == needy {
          next := next + 1;
          continue;
        }
        recycled := CloseOneIdle(i);
        if recycled {
          rest := rest[next := rest[next] - 1];
          if rest[next] == 0 { next := next + 1; }
        }
        break;
      }
    }

    /** A slot for the next pool in need: recycled from a donor if one has something left, fresh otherwise. */
    method ServeNeedy(donors: seq<nat>, left: seq<nat>, idleIdx: nat, needy: nat, serverAvailable: int, opens: bool,
                      ghost plan: Plan, ghost base: seq<Pool>, ghost k: nat)
      returns (rest: seq<nat>, next: nat)
      requires Valid() && Counted() && totalOpen < maxConnections && serverAvailable > 1
      requires Sensible(plan, base) && k < |plan.contended| && needy == plan.contended[k] && opens == plan.opens[needy]
      requires donors == plan.donors && Growing(plan, base, pools, k, left, idleIdx)
      modifies this`pools, this`totalOpen, this`atomicTotalOpen, this`nextConn
      ensures Valid() && Counted() && |pools| == |old(pools)| && totalOpen <= old(totalOpen) + 1
      ensures Growing(plan, base, pools, k + 1, rest, next)
    {
      hide Valid, Counted, Books, Gave, Served, Sensible, Peak;
      SumIsLeft(plan.excess, left, idleIdx);
      BooksSays(plan, base, pools, k, left, idleIdx);
      ghost var before := pools;
      var recycled: bool;
      recycled, rest, next := RecycleSlot(needy, donors, left, idleIdx);
      if recycled {
        BooksTake(plan, base, before, pools, k, left, idleIdx);
        SumUpdate(left, idleIdx, left[idleIdx] - 1);
      }
      ghost var middle, c := pools, nextConn;
      BooksServe(plan, base, pools, k, rest, c);
      if recycled || (totalOpen < maxConnections && serverAvailable > 1) { OpenOne(needy, opens); }
    }

    /** One connection for each pool in need, first come first served, while the budget lasts; slots of donors first. */
    method GrowContended(contended: seq<nat>, donors: seq<nat>, excess: seq<nat>, serverAvailable: int,
                         opens: seq<bool>)
      returns (ghost served: nat, ghost left: seq<nat>)
      requires Valid() && Counted() && Sensible(Plan(contended, opens, donors, excess), pools)
      modifies this`pools, this`totalOpen, this`atomicTotalOpen, this`nextConn
      ensures Valid() && Counted() && |pools| == |old(pools)|
      ensures old(totalOpen) <= maxConnections ==> totalOpen <= maxConnections
      ensures totalOpen <= old(totalOpen) + |contended|
      ensures Grew(Plan(contended, opens, donors, excess), old(pools), pools, served, left)
      ensures served == 0 <==> contended == [] || old(totalOpen) >= maxConnections || serverAvailable <= 1
      ensures served == 0 ==> pools == old(pools)
      ensures served < |contended| ==> totalOpen >= maxConnections || serverAvailable <= 1
    {
      hide Valid, Counted, Sensible, Growing, Grew;
      ghost var base, plan := pools, Plan(contended, opens, donors, excess);
      var k, idleIdx, rest := 0, 0, excess;
      BooksStart(plan, base);
      GrowingSays(plan, base, base, 0, rest, 0);
      while k < |contended|
        invariant 0 <= k <= |contended|
        invariant Valid() && Counted() && |pools| == |base|
        invariant old(totalOpen) <= maxConnections ==> totalOpen <= maxConnections
        invariant totalOpen <= old(totalOpen) + k
        invariant k > 0 ==> old(totalOpen) < maxConnections && serverAvailable > 1
        invariant k == 0 ==> totalOpen == old(totalOpen) && pools == base
        invariant Growing(plan, base, pools, k, rest, idleIdx)
      {
        if totalOpen >= maxConnections || serverAvailable <= 1 { break; }
        GrowingSays(plan, base, pools, k, rest, idleIdx);
        var needy := contended[k];
        rest, idleIdx := ServeNeedy(donors, rest, idleIdx, needy, serverAvailable, opens[needy], plan, base, k);
        k := k + 1;
      }
      GrowingSays(plan, base, pools, k, rest, idleIdx);
      served, left := k, rest;
    }

    /** With nothing contended, every donor gives one connection back. */
    method ShrinkDonors(donors: seq<nat>)
      requires Valid() && Counted() && Members(donors, |pools|)
      modifies this`pools, this`totalOpen, this`atomicTotalOpen
      ensures Valid() && Counted() && |pools| == |old(pools)| && totalOpen <= old(totalOpen)
      ensures forall i :: 0 <= i < |pools| ==> Shrunk(old(pools)[i], pools[i], i in donors)
    {
      ghost var base := pools;
      var k := 0;
      while k < |donors|
        invariant 0 <= k <= |donors| && Valid() && Counted() && |pools| == |base| && totalOpen <= old(totalOpen)
        invariant forall i :: 0 <= i < |pools| ==> Shrunk(base[i], pools[i], i in donors[..k])
      {
        hide Valid, Counted, ShrunkBy;
        var i := donors[k];
        MemberNext(donors, |pools|, k);
        var closed := CloseOneIdle(i);
        k := k + 1;
      }
      assert donors[..k] == donors;
    }

    /** growthCycle. When some pool needs a connection, the pools in need are served in order until the budget is used
        up: each gains one if it can be opened and there is room, and each time a donor, the first ones first, gives one
        of its oldest idle connections as long as one has some to spare. When none does, every donor gives one. */
    method GrowthCycle(now: int, window: nat, serverMaxConns: int, serverOpenConns: int, opens: seq<bool>)
      returns (ghost served: nat, ghost left: seq<nat>)
      requires Valid() && Counted() && |opens| == |pools|
      modifies this`pools, this`totalOpen, this`atomicTotalOpen, this`nextConn
      ensures Valid() && Counted() && |pools| == |old(pools)|
      ensures old(totalOpen) <= maxConnections ==> totalOpen <= maxConnections
      ensures var base := AllSampled(old(pools), now, window);
        var available := if serverMaxConns > 0 then serverMaxConns - serverOpenConns
                         else maxConnections - old(totalOpen);
        if Needy(base) == [] then
          forall i :: 0 <= i < |pools| ==> Shrunk(base[i], pools[i], Spares(base[i]))
        else
          && Grew(Plan(Needy(base), opens, Donors(base), Excesses(base)), base, pools, served, left)
          && (served == 0 <==> old(totalOpen) >= maxConnections || available <= 1)
          && (served == 0 ==> pools == base)
          && (served < |Needy(base)| ==> totalOpen >= maxConnections || available <= 1)
      ensures AllChanged(AllSampled(old(pools), now, window), pools)
    {
      var serverAvailable := if serverMaxConns > 0 then serverMaxConns - serverOpenConns
          else maxConnections - totalOpen;
      SamplePools(now, window);
      ghost var base := pools;
      assert base == AllSampled(old(pools), now, window);
      served, left := 0, [];
      var contended, donors, excess := Sort();
      assert forall i :: 0 <= i < |base| ==> Sound(base[i]);
      hide Valid, Counted, AllSampled, Sampled, Sound, Sensible, Grew, AllChanged, Shrunk, Spares, Needy, Donors,
        Excesses;
      NeedyAndDonorsIff(base);
      if contended != [] {
        PlanIsSensible(Plan(contended, opens, donors, excess), base);
        served, left := GrowContended(contended, donors, excess, serverAvailable, opens);
        GrewChanged(Plan(contended, opens, donors, excess), base, pools, served, left);
      } else {
        ShrinkDonors(donors);
        ShrunkChanged(base, pools, donors);
      }
    }

    /** The privileged connection is replaced when it does not answer. */
    method CheckPrivileged(answers: bool, reopens: bool)
      requires Counted()
      modifies this`totalOpen, this`atomicTotalOpen, this`privileged
      ensures Counted() && privileged == (old(privileged) && (answers || reopens))
    {
      if privileged && !answers {
        totalOpen := totalOpen - 1;
        atomicTotalOpen := totalOpen;
        privileged := false;
        if reopens { OpenPrivileged(); }
      }
    }

    /** The queue loop of healthCheck for one pool: each idle connection is taken out once, and goes back unless it is
        over age. */
    method ReapPool(i: nat, aged: set<Conn>)
      requires Valid() && Counted() && i < |pools|
      modifies this`pools, this`totalOpen, this`atomicTotalOpen
      ensures Valid() && Counted() && |pools| == |old(pools)| && pools == old(pools)[i := pools[i]]
      ensures Reaped(old(pools)[i], pools[i], |old(pools)[i].queue|, aged)
    {
      var poolLen, k := |pools[i].queue|, 0;
      ghost var p0 := pools[i];
      ReapStarts(p0, aged);
      hide Valid, Counted, Reaped, Sound, ShrunkBy;
      while k < poolLen
        invariant 0 <= k <= poolLen == |p0.queue| && |pools| == |old(pools)| && pools == old(pools)[i := pools[i]]
        invariant Valid() && Counted() && Reaped(p0, pools[i], k, aged)
      {
        ghost var p := pools[i];
        ReapHead(p0, p, k, aged);
        if pools[i].queue[0] in aged {
          var _ := CloseOneIdle(i);
          ReapEvicts(p0, p, pools[i], k, aged);
        } else {
          Requeue(i);
          ReapRotates(p0, p, k, aged);
        }
        k := k + 1;
      }
    }

    /** healthCheck: over every pool exactly the over-age idle connections go and the others keep their order. */
    method HealthCheck(answers: bool, reopens: bool, aged: set<Conn>)
      requires Valid() && Counted()
      modifies this`pools, this`totalOpen, this`atomicTotalOpen, this`privileged
      ensures Valid() && Counted() && |pools| == |old(pools)| && privileged == (old(privileged) && (answers || reopens))
      ensures forall i :: 0 <= i < |pools| ==> Reaped(old(pools)[i], pools[i], |old(pools)[i].queue|, aged)
    {
      hide Sound, Reaped;
      CheckPrivileged(answers, reopens);
      ghost var base := pools;
      var i := 0;
      while i < |pools|
        invariant 0 <= i <= |pools| == |base| && Valid() && Counted()
        invariant privileged == (old(privileged) && (answers || reopens))
        invariant forall j :: 0 <= j < i ==> Reaped(base[j], pools[j], |base[j].queue|, aged)
        invariant forall j :: i <= j < |pools| ==> pools[j] == base[j]
      {
        ReapPool(i, aged);
        i := i + 1;
      }
    }

    /** Takes the head of a queue and puts it back at the end. */
    method Requeue(i: nat)
      requires Valid() && Counted() && i < |pools| && pools[i].queue != []
      modifies this`pools
      ensures Valid() && Counted() && pools == old(pools)[i := Turned(old(pools)[i])]
    {
      var p := pools[i];
      Rotated(p, Turned(p));
      OwnedUpdate(pools, i, Turned(p));
      pools := pools[i := p.(queue := p.queue[1..] + [p.queue[0]])];
    }

    /** drain: everything that waits or idles is closed, and the privileged connection; the pools are left as they
        are. */
    method Drain()
      requires Valid() && Counted()
      modifies this`pools, this`totalOpen, this`atomicTotalOpen, this`privileged
      ensures totalOpen == Out(old(pools)) && !privileged
      ensures |pools| == |old(pools)|
      ensures forall i :: 0 <= i < |pools| ==> pools[i] == old(pools)[i].(queue := [], closing := [])
    {
      ghost var base := pools;
      OutIsLeft(base);
      hide Sound, Out, Owned, Gone;
      DrainClosing();
      ghost var middle := pools;
      DrainQueues();
      SameQueues(base, middle);
      if privileged {
        totalOpen := totalOpen - 1;
        atomicTotalOpen := totalOpen;
        privileged := false;
      }
    }

    method DrainClosing()
      modifies this`pools, this`totalOpen, this`atomicTotalOpen
      ensures totalOpen == old(totalOpen) - Gone(old(pools), true) && |pools| == |old(pools)|
      ensures forall i :: 0 <= i < |pools| ==> pools[i] == old(pools)[i].(closing := [])
    {
      ghost var base := pools;
      var i := 0;
      assert base[..0] == [] && Gone([], true) == 0;
      while i < |pools|
        invariant 0 <= i <= |pools| == |base|
        invariant forall j :: 0 <= j < i ==> pools[j] == base[j].(closing := [])
        invariant forall j :: i <= j < |pools| ==> pools[j] == base[j]
        invariant totalOpen == old(totalOpen) - Gone(base[..i], true)
      {
        assert base[..i + 1][..i] == base[..i];
        totalOpen := totalOpen - |pools[i].closing|;
        atomicTotalOpen := totalOpen;
        pools := pools[i := pools[i].(closing := [])];
        i := i + 1;
      }
      assert base[..i] == base;
    }

    method DrainQueues()
      modifies this`pools, this`totalOpen, this`atomicTotalOpen
      ensures totalOpen == old(totalOpen) - Gone(old(pools), false) && |pools| == |old(pools)|
      ensures forall i :: 0 <= i < |pools| ==> pools[i] == old(pools)[i].(queue := [])
    {
      ghost var base := pools;
      var i := 0;
      assert base[..0] == [] && Gone([], false) == 0;
      while i < |pools|
        invariant 0 <= i <= |pools| == |base|
        invariant forall j :: 0 <= j < i ==> pools[j] == base[j].(queue := [])
        invariant forall j :: i <= j < |pools| ==> pools[j] == base[j]
        invariant totalOpen == old(totalOpen) - Gone(base[..i], false)
      {
        assert base[..i + 1][..i] == base[..i];
        totalOpen := totalOpen - |pools[i].queue|;
        atomicTotalOpen := totalOpen;
        pools := pools[i := pools[i].(queue := [])];
        i := i + 1;
      }
      assert base[..i] == base;
    }
  }

  /** The connections of a pool that clients have. */
  function CheckedOut(p: Pool): set<Conn> { SetOf(p.all) - SetOf(p.queue) - SetOf(p.closing) }

  lemma TakenOut(p: Pool, q: Pool)
    requires Sound(p) && p.queue != [] && q == p.(queue := p.queue[1..])
    ensures Sound(q) && CheckedOut(q) == CheckedOut(p) + {p.queue[0]}
  {
    var c := p.queue[0];
    assert c in SetOf(p.queue) && c in SetOf(p.all);
    assert SetOf(q.queue) == SetOf(p.queue) - {c};
  }

  lemma PutBack(p: Pool, c: Conn)
    requires Sound(p) && c in CheckedOut(p)
    ensures var q := p.(queue := p.queue + [c]); Sound(q) && CheckedOut(q) == CheckedOut(p) - {c}
    ensures var q := p.(closing := p.closing + [c]); Sound(q) && CheckedOut(q) == CheckedOut(p) - {c}
  {
    assert SetOf(p.queue + [c]) == SetOf(p.queue) + {c} && SetOf(p.closing + [c]) == SetOf(p.closing) + {c};
  }

  function Out(ps: seq<Pool>): nat {
    if ps == [] then 0 else Out(ps[..|ps| - 1]) + |CheckedOut(ps[|ps| - 1])|
  }

  /** Connections waiting to be closed, or idle. */
  function Gone(ps: seq<Pool>, closing: bool): nat {
    if ps == [] then 0
    else Gone(ps[..|ps| - 1], closing) + if closing then |ps[|ps| - 1].closing| else |ps[|ps| - 1].queue|
  }

  lemma {:induction false} OutIsLeft(ps: seq<Pool>)
    requires forall i :: 0 <= i < |ps| ==> Sound(ps[i])
    ensures Out(ps) == Owned(ps) - Gone(ps, true) - Gone(ps, false)
  {
    if ps != [] {
      var p := ps[|ps| - 1];
      OutIsLeft(ps[..|ps| - 1]);
      Size(p.all);
      Size(p.queue);
      Size(p.closing);
      Narrower(SetOf(p.queue), SetOf(p.all));
      Narrower(SetOf(p.closing), SetOf(p.all) - SetOf(p.queue));
    }
  }

  lemma {:induction false} SameQueues(ps: seq<Pool>, qs: seq<Pool>)
    requires |ps| == |qs| && forall i :: 0 <= i < |ps| ==> qs[i].queue == ps[i].queue
    ensures Gone(ps, false) == Gone(qs, false)
  {
    if ps != [] { SameQueues(ps[..|ps| - 1], qs[..|qs| - 1]); }
  }

  function Turned(p: Pool): Pool
    requires p.queue != []
  {
    p.(queue := p.queue[1..] + [p.queue[0]])
  }

  /** A pool after k connections of its queue have been looked at. */
  predicate Reaped(p0: Pool, p: Pool, k: nat, aged: set<Conn>) {
    && k <= |p0.queue| && p.queue == p0.queue[k..] + Young(p0.queue[..k], aged)
    && SetOf(p.all) == SetOf(p0.all) - SetOf(p0.queue[..k]) * aged
  }

  lemma ReapStarts(p0: Pool, aged: set<Conn>)
    ensures Reaped(p0, p0, 0, aged)
  {
    assert p0.queue[..0] == [];
  }

  lemma ReapHead(p0: Pool, p: Pool, k: nat, aged: set<Conn>)
    requires Reaped(p0, p, k, aged) && k < |p0.queue|
    ensures p.queue != [] && p.queue[0] == p0.queue[k]
  {
  }

  lemma ReapEvicts(p0: Pool, p: Pool, q: Pool, k: nat, aged: set<Conn>)
    requires Reaped(p0, p, k, aged) && k < |p0.queue| && p0.queue[k] in aged && p.queue != []
        && ShrunkBy(p, q, p.queue[0])
    ensures Reaped(p0, q, k + 1, aged)
  {
    var u := p0.queue;
    assert u[..k + 1][..k] == u[..k] && u[..k + 1] == u[..k] + [u[k]];
    assert Young(u[..k], aged) + [] == Young(u[..k], aged);
    assert q.queue == u[k + 1..] + Young(u[..k], aged);
    assert SetOf(u[..k + 1]) == SetOf(u[..k]) + {u[k]};
  }

  lemma ReapRotates(p0: Pool, p: Pool, k: nat, aged: set<Conn>)
    requires Reaped(p0, p, k, aged) && k < |p0.queue| && p0.queue[k] !in aged && p.queue != []
    ensures Reaped(p0, Turned(p), k + 1, aged)
  {
    var u := p0.queue;
    assert u[..k + 1][..k] == u[..k] && u[..k + 1] == u[..k] + [u[k]];
    assert Turned(p).queue == u[k + 1..] + (Young(u[..k], aged) + [u[k]]);
    assert SetOf(u[..k + 1]) == SetOf(u[..k]) + {u[k]};
  }

  lemma ReapEnds(p0: Pool, p: Pool, aged: set<Conn>)
    requires Reaped(p0, p, |p0.queue|, aged)
    ensures p.queue == Young(p0.queue, aged) && SetOf(p.all) == SetOf(p0.all) - SetOf(p0.queue) * aged
  {
    assert p0.queue[..|p0.queue|] == p0.queue;
  }

  /** In increasing order: a pool is served exactly when none of its connections is idle, and can give some away exactly
      when more are idle than the high-water mark and one. */
  lemma NeedyAndDonorsIff(ps: seq<Pool>)
    requires forall i :: 0 <= i < |ps| ==> Sound(ps[i])
    ensures Members(Needy(ps), |ps|) && forall i :: 0 <= i < |ps| ==> (i in Needy(ps) <==> ps[i].queue == [])
    ensures Members(Donors(ps), |ps|) && forall i :: 0 <= i < |ps| ==> (i in Donors(ps) <==> Spares(ps[i]))
  {
    NeedyOnes(ps);
    DonorsAre(ps);
    forall i | 0 <= i < |ps| ensures Contended(ps[i]) <==> ps[i].queue == [] { ContendedIff(ps[i]); }
    hide Contended, Sound, Spares;
  }

  lemma ShrunkChanged(base: seq<Pool>, now: seq<Pool>, donors: seq<nat>)
    requires |now| == |base| && forall i :: 0 <= i < |base| ==> (i in donors <==> Spares(base[i]))
    requires forall i :: 0 <= i < |now| ==> Shrunk(base[i], now[i], i in donors)
    ensures forall i :: 0 <= i < |now| ==> Shrunk(base[i], now[i], Spares(base[i]))
    ensures AllChanged(base, now)
  {
    hide Changed, Shrunk, Spares;
    forall i | 0 <= i < |now| ensures Shrunk(base[i], now[i], Spares(base[i])) && Changed(base[i], now[i]) {
      OneLess(base[i], now[i]);
    }
  }

  lemma OneLess(p: Pool, q: Pool)
    requires Shrunk(p, q, Spares(p))
    ensures Changed(p, q)
  {
  }

  lemma Rotated(p: Pool, r: Pool)
    requires Sound(p) && p.queue != [] && r == p.(queue := p.queue[1..] + [p.queue[0]])
    ensures Sound(r)
  {
    assert SetOf(r.queue) == SetOf(p.queue);
  }

  /** One idle connection of pool i is closed. */
  predicate TookOne(ps: seq<Pool>, qs: seq<Pool>, i: nat) {
    i < |ps| == |qs| && ps[i].queue != [] && ShrunkBy(ps[i], qs[i], ps[i].queue[0]) && qs == ps[i := qs[i]]
  }

  // --- A cycle of growth ---

  /** The pools that need a connection, in order. */
  function Needy(ps: seq<Pool>): seq<nat> {
    if ps == [] then []
    else
      var n := |ps| - 1;
      Needy(ps[..n]) + if Contended(ps[n]) then [n] else []
  }

  /** The pools that have some to spare, in order, and how many. */
  function Donors(ps: seq<Pool>): seq<nat> {
    if ps == [] then []
    else
      var n := |ps| - 1;
      Donors(ps[..n]) + if Excess(ps[n]) > 0 then [n] else []
  }

  function Excesses(ps: seq<Pool>): seq<nat> {
    if ps == [] then []
    else
      var n := |ps| - 1;
      Excesses(ps[..n]) + if Excess(ps[n]) > 0 then [Excess(ps[n])] else []
  }

  lemma {:induction false} NeedyOnes(ps: seq<Pool>)
    ensures Members(Needy(ps), |ps|) && forall i :: 0 <= i < |ps| ==> (i in Needy(ps) <==> Contended(ps[i]))
  {
    if ps != [] {
      hide Contended;
      var n := |ps| - 1;
      NeedyOnes(ps[..n]);
      assert forall i :: 0 <= i < n ==> ps[..n][i] == ps[i];
      assert forall i :: i in Needy(ps) <==> i in Needy(ps[..n]) || (i == n && Contended(ps[n]));
    }
  }

  /** More idle connections than the high-water mark and one. */
  predicate Spares(p: Pool) { |p.queue| > Peak(p.samples) + 1 }

  predicate DonorList(ps: seq<Pool>, ds: seq<nat>, es: seq<nat>) {
    && Members(ds, |ps|) && |es| == |ds|
    && (forall i :: 0 <= i < |ps| ==> (i in ds <==> Spares(ps[i])))
    && (forall d :: 0 <= d < |ds| ==> 0 < es[d] && es[d] + Peak(ps[ds[d]].samples) + 1 == |ps[ds[d]].queue|)
  }

  lemma DonorSnoc(ps: seq<Pool>, p: Pool, ds: seq<nat>, es: seq<nat>)
    requires DonorList(ps, ds, es)
    ensures if Excess(p) > 0 then DonorList(ps + [p], ds + [|ps|], es + [Excess(p)]) else DonorList(ps + [p], ds, es)
  {
    SpareIff(p);
    hide Excess, Peak;
    var qs := ps + [p];
    assert forall i :: 0 <= i < |ps| ==> qs[i] == ps[i];
    assert qs[|ps|] == p;
    if Excess(p) > 0 {
      var us, vs := ds + [|ps|], es + [Excess(p)];
      forall d | 0 <= d < |us| ensures us[d] < |qs| && 0 < vs[d]
          && vs[d] + Peak(qs[us[d]].samples) + 1 == |qs[us[d]].queue| {
        if d < |ds| { assert us[d] == ds[d] < |ps|; }
      }
    }
  }

  lemma {:induction false} DonorsAre(ps: seq<Pool>)
    ensures DonorList(ps, Donors(ps), Excesses(ps))
  {
    hide DonorList, Excess;
    if ps == [] {
      NoDonors();
    } else {
      var n := |ps| - 1;
      DonorsAre(ps[..n]);
      DonorSnoc(ps[..n], ps[n], Donors(ps[..n]), Excesses(ps[..n]));
      assert ps[..n] + [ps[n]] == ps;
      assert Donors(ps[..n]) + [] == Donors(ps[..n]) && Excesses(ps[..n]) + [] == Excesses(ps[..n]);
    }
  }

  lemma NoDonors()
    ensures DonorList([], [], [])
  {
  }

  function AllSampled(ps: seq<Pool>, now: int, window: nat): seq<Pool> {
    seq(|ps|, i requires 0 <= i < |ps| => Sampled(ps[i], now, window))
  }

  /** The position of the first donor from i on that is not the pool in need. */
  function FirstOther(donors: seq<nat>, needy: nat, i: nat): (d: nat)
    requires i <= |donors|
    ensures i <= d <= |donors|
    decreases |donors| - i
  {
    if i == |donors| || donors[i] != needy then i else FirstOther(donors, needy, i + 1)
  }

  function Least(a: nat, b: nat): nat { if a < b then a else b }

  function Sum(q: seq<nat>): nat { if q == [] then 0 else Sum(q[..|q| - 1]) + q[|q| - 1] }

  lemma {:induction false} SumUpdate(q: seq<nat>, i: nat, v: nat)
    requires i < |q|
    ensures Sum(q[i := v]) == Sum(q) - q[i] + v
  {
    var n := |q| - 1;
    if i < n {
      SumUpdate(q[..n], i, v);
      assert q[i := v][..n] == q[..n][i := v];
    } else {
      assert q[i := v][..n] == q[..n];
    }
  }

  /** Who is to be served, which pools can be opened for, and who can give how many. */
  datatype Plan = Plan(contended: seq<nat>, opens: seq<bool>, donors: seq<nat>, excess: seq<nat>)

  /** The pools in need and the donors are different pools, and a donor can spare what it is to give. */
  predicate Sensible(plan: Plan, base: seq<Pool>) {
    && Members(plan.contended, |base|) && Members(plan.donors, |base|)
    && |plan.opens| == |base| && |plan.excess| == |plan.donors|
    && (forall i :: i in plan.contended ==> i !in plan.donors)
    && (forall d :: 0 <= d < |plan.donors| ==>
          0 < plan.excess[d] && plan.excess[d] + Peak(base[plan.donors[d]].samples) + 1 == |base[plan.donors[d]].queue|)
  }

  lemma PlanIsSensible(plan: Plan, base: seq<Pool>)
    requires forall i :: 0 <= i < |base| ==> Sound(base[i])
    requires |plan.opens| == |base|
    requires plan.contended == Needy(base) && plan.donors == Donors(base) && plan.excess == Excesses(base)
    ensures Sensible(plan, base)
  {
    NeedyOnes(base);
    DonorsAre(base);
    forall i | i in plan.contended ensures i !in plan.donors { ContendedIff(base[i]); }
    hide Sound, Contended, Peak;
  }

  /** A pool in need that is served gains one connection if one can be opened and there is room. */
  predicate Served(p: Pool, q: Pool, opens: bool) {
    if opens && |p.queue| < p.capacity then q.queue != [] && q == Grown(p, q.queue[|q.queue| - 1]) else q == p
  }

  /** A donor that has given t connections: the ones that have been idle longest. */
  predicate Gave(p: Pool, q: Pool, t: nat) {
    && t <= |p.queue| && q.queue == p.queue[t..] && SetOf(q.all) == SetOf(p.all) - SetOf(p.queue[..t])
    && |q.all| == |p.all| - t && q.closing == p.closing && q.samples == p.samples && q.capacity == p.capacity
  }

  /** What is left with the donors when slots are taken from the first ones first. */
  predicate TakenInOrder(excess: seq<nat>, left: seq<nat>, idx: nat) {
    && |left| == |excess| && idx <= |left|
    && (forall d :: 0 <= d < idx ==> left[d] == 0)
    && (forall d :: idx <= d < |left| ==> 0 < left[d] <= excess[d])
    && (forall d :: idx < d < |left| ==> left[d] == excess[d])
  }

  /** The state after k pools in need have been served. */
  predicate Books(plan: Plan, base: seq<Pool>, now: seq<Pool>, k: nat, left: seq<nat>) {
    && Sensible(plan, base) && |now| == |base| && k <= |plan.contended| && |left| == |plan.excess|
    && Others(plan, base, now, k) && (forall d :: 0 <= d < |left| ==> GaveSome(plan, base, now, left[d], d))
  }

  /** The pools that are no donors. */
  predicate Others(plan: Plan, base: seq<Pool>, now: seq<Pool>, k: nat)
    requires |now| == |base| == |plan.opens| && k <= |plan.contended|
  {
    forall i :: 0 <= i < |base| && i !in plan.donors ==>
      if i in plan.contended[..k] then Served(base[i], now[i], plan.opens[i]) else now[i] == base[i]
  }

  predicate GaveSome(plan: Plan, base: seq<Pool>, now: seq<Pool>, left: nat, d: nat)
    requires |now| == |base| && Members(plan.donors, |base|) && |plan.excess| == |plan.donors| && d < |plan.donors|
  {
    left <= plan.excess[d] && Gave(base[plan.donors[d]], now[plan.donors[d]], plan.excess[d] - left)
  }

  /** The result: so many of the pools in need have been served, and for each of them a donor has given a connection,
      the first donors first, as long as there was one. */
  ghost predicate Grew(plan: Plan, base: seq<Pool>, now: seq<Pool>, served: nat, left: seq<nat>) {
    && Books(plan, base, now, served, left)
    && Sum(left) + Least(served, Sum(plan.excess)) == Sum(plan.excess)
    && exists idx: nat :: TakenInOrder(plan.excess, left, idx)
  }

  /** A cycle under way: the donor at idx is the next to give. */
  predicate Growing(plan: Plan, base: seq<Pool>, now: seq<Pool>, k: nat, left: seq<nat>, idx: nat) {
    && Books(plan, base, now, k, left) && TakenInOrder(plan.excess, left, idx)
    && Sum(left) + Least(k, Sum(plan.excess)) == Sum(plan.excess)
  }

  lemma GrowingSays(plan: Plan, base: seq<Pool>, now: seq<Pool>, k: nat, left: seq<nat>, idx: nat)
    requires Growing(plan, base, now, k, left, idx)
    ensures Grew(plan, base, now, k, left) && |now| == |base| == |plan.opens|
    ensures k < |plan.contended| ==> plan.contended[k] < |now|
  {
    hide Books, TakenInOrder, Sum, Members, Sensible;
    BooksSizes(plan, base, now, k, left);
    if k < |plan.contended| { MemberBound(plan.contended, |base|, k); }
  }

  lemma MemberBound(q: seq<nat>, n: nat, k: nat)
    requires Members(q, n) && k < |q|
    ensures q[k] < n
  {
  }

  /** With nothing contended: a donor gives one. */
  predicate Shrunk(p: Pool, q: Pool, donor: bool) {
    if donor && p.queue != [] then ShrunkBy(p, q, p.queue[0]) else q == p
  }

  lemma BooksSizes(plan: Plan, base: seq<Pool>, now: seq<Pool>, k: nat, left: seq<nat>)
    requires Books(plan, base, now, k, left)
    ensures Sensible(plan, base) && |now| == |base| && k <= |plan.contended| && |left| == |plan.excess|
    ensures Members(plan.contended, |base|) && Members(plan.donors, |base|)
    ensures |plan.opens| == |base| && |plan.excess| == |plan.donors|
  {
  }

  lemma BooksStart(plan: Plan, base: seq<Pool>)
    requires Sensible(plan, base)
    ensures Growing(plan, base, base, 0, plan.excess, 0)
  {
    forall d | 0 <= d < |plan.donors| ensures GaveSome(plan, base, base, plan.excess[d], d) {
      var p := base[plan.donors[d]];
      assert p.queue[0..] == p.queue && p.queue[..0] == [];
    }
  }

  lemma {:induction false} SumIsLeft(excess: seq<nat>, left: seq<nat>, idx: nat)
    requires TakenInOrder(excess, left, idx)
    ensures Sum(left) > 0 <==> idx < |left|
    decreases |left|
  {
    if left != [] {
      var n := |left| - 1;
      if idx < |left| {
        assert left[n] > 0;
      } else {
        SumIsLeft(excess[..n], left[..n], n);
      }
    }
  }

  /** The next donor is the one at idleIdx, and it has an idle connection. */
  lemma BooksSays(plan: Plan, base: seq<Pool>, now: seq<Pool>, k: nat, left: seq<nat>, idx: nat)
    requires Books(plan, base, now, k, left) && TakenInOrder(plan.excess, left, idx) && k < |plan.contended|
    ensures |now| == |base| && Members(plan.donors, |now|) && |left| == |plan.donors| && idx <= |left|
    ensures plan.contended[k] < |now| && FirstOther(plan.donors, plan.contended[k], idx) == idx
    ensures idx < |plan.donors| ==> now[plan.donors[idx]].queue != []
  {
    assert plan.contended[k] in plan.contended;
    if idx < |plan.donors| {
      var i := plan.donors[idx];
      assert i in plan.donors;
      assert GaveSome(plan, base, now, left[idx], idx);
    }
  }

  lemma BooksTake(plan: Plan, base: seq<Pool>, now: seq<Pool>, next: seq<Pool>, k: nat, left: seq<nat>, d: nat)
    requires Books(plan, base, now, k, left) && TakenInOrder(plan.excess, left, d)
    requires d < |left| && d < |plan.donors| && TookOne(now, next, plan.donors[d])
    ensures Books(plan, base, next, k, left[d := left[d] - 1])
    ensures TakenInOrder(plan.excess, left[d := left[d] - 1], if left[d] == 1 then d + 1 else d)
  {
    hide Others, Gave;
    var i, rest := plan.donors[d], left[d := left[d] - 1];
    OthersStay(plan, base, now, next, k, i);
    assert GaveSome(plan, base, now, left[d], d);
    GaveMore(base[i], now[i], next[i], plan.excess[d] - left[d]);
    hide ShrunkBy;
    assert GaveSome(plan, base, next, rest[d], d);
    MembersDiffer(plan.donors, |base|, d);
    forall e | 0 <= e < |rest| ensures GaveSome(plan, base, next, rest[e], e) {
      if e != d {
        assert GaveSome(plan, base, now, left[e], e);
        assert next[plan.donors[e]] == now[plan.donors[e]];
      }
    }
  }

  lemma OthersStay(plan: Plan, base: seq<Pool>, now: seq<Pool>, next: seq<Pool>, k: nat, i: nat)
    requires |next| == |now| == |base| == |plan.opens| && k <= |plan.contended|
    requires Others(plan, base, now, k) && i in plan.donors && i < |now| && next == now[i := next[i]]
    ensures Others(plan, base, next, k)
  {
    hide Served;
  }

  lemma MembersDiffer(q: seq<nat>, n: nat, d: nat)
    requires Members(q, n) && d < |q|
    ensures forall e :: 0 <= e < |q| && e != d ==> q[e] != q[d]
  {
  }

  lemma GaveMore(p: Pool, q: Pool, r: Pool, t: nat)
    requires Gave(p, q, t) && q.queue != [] && ShrunkBy(q, r, q.queue[0])
    ensures Gave(p, r, t + 1)
  {
    assert p.queue[..t + 1] == p.queue[..t] + [p.queue[t]];
    assert SetOf(p.queue[..t + 1]) == SetOf(p.queue[..t]) + {p.queue[t]};
  }

  lemma BooksServe(plan: Plan, base: seq<Pool>, now: seq<Pool>, k: nat, left: seq<nat>, c: Conn)
    requires Books(plan, base, now, k, left) && k < |plan.contended|
    ensures var i := plan.contended[k];
      && i < |now| && i < |plan.opens|
      && (if plan.opens[i] && |now[i].queue| < now[i].capacity
          then Books(plan, base, now[i := Grown(now[i], c)], k + 1, left)
          else Books(plan, base, now, k + 1, left))
  {
    hide Gave;
    var i := plan.contended[k];
    MemberNext(plan.contended, |base|, k);
    assert i in plan.contended && i !in plan.donors && now[i] == base[i];
    assert Grown(now[i], c).queue[|now[i].queue|] == c;
    var q := if plan.opens[i] && |now[i].queue| < now[i].capacity then Grown(now[i], c) else now[i];
    assert Served(base[i], q, plan.opens[i]);
    hide Served, Grown;
    var next := now[i := q];
    assert Others(plan, base, next, k + 1);
    hide Others;
    forall d | 0 <= d < |left| ensures GaveSome(plan, base, next, left[d], d) {
      assert GaveSome(plan, base, now, left[d], d);
      assert plan.donors[d] in plan.donors;
    }
    assert q == now[i] ==> next == now;
  }

  /** What a cycle has done to one pool. */
  lemma BooksChanged(plan: Plan, base: seq<Pool>, now: seq<Pool>, served: nat, left: seq<nat>, i: nat)
    requires Books(plan, base, now, served, left) && i < |base|
    requires i in plan.contended ==> base[i].queue == []
    ensures Changed(base[i], now[i])
  {
    hide Peak;
    if i in plan.donors {
      var d :| 0 <= d < |plan.donors| && plan.donors[d] == i;
      hide Others;
      assert GaveSome(plan, base, now, left[d], d);
    } else {
      hide GaveSome;
      assert i in plan.contended[..served] ==> i in plan.contended;
    }
  }

  lemma GrewChanged(plan: Plan, base: seq<Pool>, now: seq<Pool>, served: nat, left: seq<nat>)
    requires Grew(plan, base, now, served, left)
    requires forall i :: 0 <= i < |base| && i in plan.contended ==> base[i].queue == []
    ensures AllChanged(base, now)
  {
    BooksSizes(plan, base, now, served, left);
    hide Changed, Books, TakenInOrder, Sum;
    forall i | 0 <= i < |now| ensures Changed(base[i], now[i]) { BooksChanged(plan, base, now, served, left, i); }
  }

  lemma MemberNext(q: seq<nat>, n: nat, k: nat)
    requires Members(q, n) && k < |q|
    ensures q[k] < n && q[k] !in q[..k] && q[..k + 1] == q[..k] + [q[k]]
  {
  }

  /** Strictly increasing pool numbers. */
  predicate Members(q: seq<nat>, n: nat) {
    (forall i :: 0 <= i < |q| ==> q[i] < n) && forall i, j :: 0 <= i < j < |q| ==> q[i] < q[j]
  }

  /** What a cycle may do to a pool: one more if nothing in it is idle; less only as long as its idle connections stay
      above the high-water mark. */
  predicate Changed(p: Pool, q: Pool) {
    && (if p.queue == [] then |q.all| <= |p.all| + 1 else |q.all| <= |p.all|)
    && (|q.all| < |p.all| ==> |q.queue| >= Peak(p.samples) + 1)
    && |q.queue| - |p.queue| == |q.all| - |p.all|
    && q.samples == p.samples
  }

  predicate AllChanged(ps: seq<Pool>, qs: seq<Pool>) {
    |ps| == |qs| && forall i :: 0 <= i < |ps| ==> Changed(ps[i], qs[i])
  }

  function Grown(p: Pool, c: Conn): Pool {
    p.(all := p.all + [c], queue := p.queue + [c], connCount := |p.all| + 1)
  }

  lemma GrownIsSound(p: Pool, c: Conn)
    requires Sound(p) && c !in p.all
    ensures Sound(Grown(p, c))
  {
    var q := Grown(p, c);
    assert SetOf(q.all) == SetOf(p.all) + {c} && SetOf(q.queue) == SetOf(p.queue) + {c};
    assert c !in SetOf(p.all);
    assert forall x :: x in p.queue ==> x in SetOf(p.queue);
    assert c !in SetOf(p.closing) && c !in p.queue;
  }

  /** The idle connection c is gone; the rest of the queue keeps its order. */
  predicate ShrunkBy(p: Pool, q: Pool, c: Conn) {
    && p.queue != [] && c == p.queue[0] && q.queue == p.queue[1..] && SetOf(q.all) == SetOf(p.all) - {c}
    && |q.all| == |p.all| - 1 && q.closing == p.closing && q.samples == p.samples && q.capacity == p.capacity
  }

  lemma HeadRemoved(p: Pool, q: Pool)
    requires Sound(p) && p.queue != [] && Distinct(q.all) && SetOf(q.all) == SetOf(p.all) - {p.queue[0]}
    requires q == p.(queue := p.queue[1..], all := q.all, connCount := |q.all|)
    ensures Sound(q) && p.queue[0] in p.all
    ensures forall x :: x in q.all ==> x in p.all
  {
    var c := p.queue[0];
    assert c in SetOf(p.queue);
    assert SetOf(q.queue) == SetOf(p.queue) - {c};
    forall x | x in q.all ensures x in p.all { assert x in SetOf(q.all); }
  }
}
