/**
 Whole runs of the multiplexer: exclusive ownership, transaction affinity and cancel routing.
 */
module Runs {
  import opened Protocol
  import opened Naming
  import opened CachedQuery
  import opened Connection
  import opened Custody
  import opened Multiplexer

  /** A step that cannot happen changes nothing. */
  ghost function Do(x: Mux, e: Event): Mux { if Enabled(x, e) then Next(x, e) else x }

  ghost function Run(x: Mux, es: seq<Event>): Mux {
    if es == [] then x else Do(Run(x, es[..|es| - 1]), es[|es| - 1])
  }

  // --- Ownership ---

  /** No reply is lost on the extended or cached path of a client pinned by named statements. */
  ghost predicate KeepsReplies(x: Mux, es: seq<Event>) {
    forall i :: 0 <= i < |es| ==> !LosesPinned(Run(x, es[..i]), es[i])
  }

  lemma KeepsPrefix(x: Mux, es: seq<Event>, n: nat)
    requires KeepsReplies(x, es) && n <= |es|
    ensures KeepsReplies(x, es[..n])
  {
    forall i | 0 <= i < n ensures !LosesPinned(Run(x, es[..n][..i]), es[..n][i]) {
      assert es[..n][..i] == es[..i];
    }
  }

  lemma StartIsOwned(capacity: nat)
    ensures Owned(Start(capacity))
  {
  }

  lemma {:induction false} OwnedRun(x: Mux, es: seq<Event>)
    requires Owned(x) && KeepsReplies(x, es)
    ensures Owned(Run(x, es))
  {
    hide Owned, Enabled, Next, LosesPinned;
    if es != [] {
      var n := |es| - 1;
      KeepsPrefix(x, es, n);
      OwnedRun(x, es[..n]);
      if Enabled(Run(x, es[..n]), es[n]) { OwnedStep(Run(x, es[..n]), es[n]); }
    }
  }

  /** No monitor is lost under a client that is pinned to a backend it is not working on. */
  ghost predicate KeepsMonitors(x: Mux, es: seq<Event>) {
    forall i :: 0 <= i < |es| ==> !StrandsPin(Run(x, es[..i]), es[i])
  }

  lemma {:induction false} IntactRun(x: Mux, es: seq<Event>)
    requires Intact(x) && KeepsReplies(x, es) && KeepsMonitors(x, es)
    ensures Intact(Run(x, es))
  {
    hide Intact, Enabled, Next, LosesPinned, StrandsPin;
    if es != [] {
      var n := |es| - 1;
      KeepsPrefix(x, es, n);
      forall i | 0 <= i < n ensures !StrandsPin(Run(x, es[..n][..i]), es[..n][i]) {
        assert es[..n][..i] == es[..i];
      }
      IntactRun(x, es[..n]);
      if Enabled(Run(x, es[..n]), es[n]) { StaysIntactIff(Run(x, es[..n]), es[n]); }
    }
  }

  /** In every reachable state each connection is idle once, or waits to be closed once, or is held by one client. */
  lemma EveryConnectionInOnePlace(capacity: nat, es: seq<Event>, b: Bid)
    requires KeepsReplies(Start(capacity), es) && KeepsMonitors(Start(capacity), es)
    ensures var k := Run(Start(capacity), es).custody;
      b in k.all ==> multiset(k.queue)[b] + multiset(k.closing)[b] + |Holders(k, b)| == 1
  {
    StartIsOwned(capacity);
    IntactRun(Start(capacity), es);
    hide Run, Exclusive, KeepsReplies, KeepsMonitors, Holders;
    var k := Run(Start(capacity), es).custody;
    if b in k.all { ExactlyOnePlace(k, b); }
  }

  /** Lost monitors included: a connection is in one place, or it is lost and in none. */
  lemma EveryConnectionAccountedFor(capacity: nat, es: seq<Event>, b: Bid)
    requires KeepsReplies(Start(capacity), es)
    ensures var k := Run(Start(capacity), es).custody;
      b in k.all ==> multiset(k.queue)[b] + multiset(k.closing)[b] + |Holders(k, b)| == if b in k.lost then 0 else 1
  {
    StartIsOwned(capacity);
    OwnedRun(Start(capacity), es);
    hide Run, Exclusive, KeepsReplies, Holders;
    var k := Run(Start(capacity), es).custody;
    if b in k.all { ExactlyOnePlace(k, b); }
  }

  // --- The queue has room ---

  predicate Roomy(k: Custody, capacity: nat) { k.capacity == capacity && |k.queue| <= capacity }

  lemma {:induction false} WithoutShrinks(q: seq<Bid>, stale: set<Bid>)
    ensures |Without(q, stale)| <= |q|
  {
    if q != [] { WithoutShrinks(q[..|q| - 1], stale); }
  }

  lemma RoomyStep(x: Mux, e: Event, capacity: nat)
    requires Roomy(x.custody, capacity) && Enabled(x, e)
    ensures Roomy(Next(x, e).custody, capacity)
  {
    hide NextAsk, NextNotify, NextSend, NextFinish, NextLose, NextAbort;
    if e.Ask? || e.Notify? || e.Send? {
      MessagesKeepRoom(x, e, capacity);
    } else if e.Finish? || e.Lose? || e.Abort? {
      RepliesKeepRoom(x, e, capacity);
    } else if e.TargetEvict? {
      WithoutShrinks(x.custody.queue, e.stale);
    }
  }

  lemma HoldKeepsRoom(x: Mux, c: Cid, pins: bool, capacity: nat)
    requires Roomy(x.custody, capacity) && CanAcquire(x, c)
    ensures Roomy(Acquire(x.custody, c), capacity) && Roomy(Hold(x, c, pins), capacity)
    ensures Roomy(Release(Hold(x, c, pins), c, Target(x, c)), capacity)
  {
  }

  lemma MessagesKeepRoom(x: Mux, e: Event, capacity: nat)
    requires Roomy(x.custody, capacity) && Enabled(x, e) && (e.Ask? || e.Notify? || e.Send?)
    ensures Roomy(Next(x, e).custody, capacity)
  {
    if e.Notify? && !x.clients[e.c].inTx {
      hide Query1;
    } else {
      hide Rename, Deliver, Injected, Fits, Query1, Cached1, View, Roomy, Hold, Acquire, Release, Target;
      HoldKeepsRoom(x, e.c, if e.Send? then Rename(x.clients[e.c].table, e.msgs).pins else false, capacity);
    }
  }

  lemma GivenBackKeepsRoom(k: Custody, c: Cid, b: Bid, status: Status, wasPinned: bool, named: bool, capacity: nat)
    requires Roomy(k, capacity)
    ensures Roomy(Return(k, c, b), capacity) && Roomy(Release(k, c, b), capacity)
        && Roomy(KeepPinned(k, c, b), capacity)
    ensures Roomy(Reconcile(k, c, b, status, wasPinned, named), capacity)
  {
  }

  lemma RepliesKeepRoom(x: Mux, e: Event, capacity: nat)
    requires Roomy(x.custody, capacity) && Enabled(x, e) && (e.Finish? || e.Lose? || e.Abort?)
    ensures Roomy(Next(x, e).custody, capacity)
  {
    hide Read, Length, Reported, Return, Release, KeepPinned, Reconcile, Roomy;
    var b, cl := x.custody.jobs[e.c], x.clients[e.c];
    var conn := x.conns[b];
    var n := Length(conn.unread, cl.task.job.kind);
    var status := if e.Finish? then Known(Reported(conn, n)) else Unread;
    GivenBackKeepsRoom(x.custody, e.c, b, status, cl.task.job.wasPinned, cl.table.count > 0, capacity);
  }

  /** Over every run no more connections are idle than the queue has places. */
  lemma {:induction false} QueueFits(capacity: nat, es: seq<Event>)
    ensures Roomy(Run(Start(capacity), es).custody, capacity)
  {
    hide Enabled, Next, Roomy;
    if es == [] {
      StartIsRoomy(capacity);
    } else {
      var n := |es| - 1;
      QueueFits(capacity, es[..n]);
      if Enabled(Run(Start(capacity), es[..n]), es[n]) { RoomyStep(Run(Start(capacity), es[..n]), es[n], capacity); }
    }
  }

  lemma StartIsRoomy(capacity: nat)
    ensures Roomy(Start(capacity).custody, capacity)
  {
  }

  // --- Transaction affinity ---

  /** The step sends a message of client c to backend b. */
  ghost predicate Sends(x: Mux, e: Event, c: Cid, b: Bid) {
    && (e.Ask? || e.Notify? || e.Send?) && Enabled(x, e) && e.c == c
    && b == if e.Notify? && !x.clients[c].inTx then x.custody.queue[0] else Target(x, c)
  }

  /** What such a step sends is served on that backend and on no other one, and there the client waits for it. */
  lemma SentIsServed(x: Mux, e: Event, c: Cid, b: Bid)
    requires Owned(x) && Sends(x, e, c, b)
    ensures var y := Next(x, e);
      && b in x.conns && y.conns.Keys == x.conns.Keys
      && (forall a :: a in x.conns && a != b ==> y.conns[a] == x.conns[a])
      && (y.clients[c].task.Working? ==> c in y.custody.jobs && y.custody.jobs[c] == b)
      && (e.Notify? ==> y.conns[b] == Query1(x.conns[b], Other(e.text), e.fate))
      && (e.Ask? && Pinned(x, c) ==> y.conns[b] == Query1(x.conns[b], e.query, e.fate))
  {
    hide Owned, NextAsk, NextNotify, NextSend, Query1;
    if e.Send? {
      SendIsServed(x, c, e.msgs, e.end, e.v);
    } else if e.Ask? {
      AskIsServed(x, c, e.query, e.fate, e.outcome);
    } else if x.clients[c].inTx {
      FlagIsPin(x, c);
      AskIsServed(x, c, Other(e.text), e.fate, Unparsable);
    } else {
      NotifyIsServed(x, c, e.text, e.fate);
    }
  }

  lemma FlagIsPin(x: Mux, c: Cid)
    requires Owned(x) && c in x.clients && x.clients[c].inTx
    ensures Pinned(x, c)
  {
    assert TaskFits(x, c);
  }

  lemma NotifyIsServed(x: Mux, c: Cid, text: string, f: Fate)
    requires x.custody.queue != [] && x.custody.queue[0] in x.conns
    requires c in x.clients && x.clients[c].task.Resting?
    ensures var b, y := x.custody.queue[0], NextNotify(x, c, text, f);
      && y.conns == x.conns[b := Query1(x.conns[b], Other(text), f)] && c in y.custody.jobs && y.custody.jobs[c] == b
  {
    hide Query1;
  }

  lemma AskIsServed(x: Mux, c: Cid, q: Query, f: Fate, o: Outcome)
    requires Owned(x) && CanAcquire(x, c) && Target(x, c) in x.conns
    ensures var b, y := Target(x, c), NextAsk(x, c, q, f, o);
      && y.conns == x.conns[b := y.conns[b]] && c in y.custody.jobs && y.custody.jobs[c] == b
      && (Pinned(x, c) ==> y.conns[b] == Query1(x.conns[b], q, f))
  {
    hide Query1, Cached1, Owned, Exclusive;
    AcquireKeeps(x, c);
  }

  lemma SendIsServed(x: Mux, c: Cid, ms: seq<Request>, end: Request, v: Delivery)
    requires Owned(x) && CanAcquire(x, c) && Target(x, c) in x.conns
    requires Fits(x.conns[Target(x, c)], Rename(x.clients[c].table, ms).msgs, v)
    ensures var b, y := Target(x, c), NextSend(x, c, ms, end, v);
      && y.conns == x.conns[b := y.conns[b]]
      && (y.clients[c].task.Working? ==> c in y.custody.jobs && y.custody.jobs[c] == b)
  {
    hide Hold, Release, Deliver, View, Owned, Exclusive, Rename;
    HoldKeeps(x, c, Rename(x.clients[c].table, ms).pins);
  }

  /** Inside a transaction a client's messages go to its backend, and nobody else's do. */
  lemma OwnBackendOnly(x: Mux, c: Cid, e: Event, d: Cid, b: Bid)
    requires Owned(x) && c in x.clients && x.clients[c].inTx && Sends(x, e, d, b)
    ensures c in x.custody.pins && (b == x.custody.pins[c] <==> d == c)
  {
    assert TaskFits(x, c);
    assert Holds(x.custody, c, x.custody.pins[c]);
    if d in x.custody.pins {
      assert Holds(x.custody, d, x.custody.pins[d]);
    }
    if x.custody.queue != [] {
      assert Idling(x.custody, x.custody.queue[0]);
    }
  }

  /** The steps that can end a client's transaction: ReadyForQuery with status I, a failure, or leaving. */
  ghost predicate Ending(x: Mux, e: Event, c: Cid) {
    match e
    case Finish(d) =>
      d == c && Enabled(x, e) && !x.clients[c].task.job.kind.Flushed? && !x.clients[c].task.job.kind.Notice?
      && (var conn := x.conns[x.custody.jobs[c]]; Reported(conn, Length(conn.unread, x.clients[c].task.job.kind)).Idle?)
    case Send(d, _, _, _) => d == c && Enabled(x, e) && NextSend(x, d, e.msgs, e.end, e.v).clients[c].task.Resting?
    case Lose(d, _) => d == c
    case Abort(d) => d == c
    case Leave(d) => d == c
    case MonitorLost(d) => d == c
    case _ => false
  }

  /** The pin and the transaction flag of client c. */
  ghost predicate InTransactionOn(x: Mux, c: Cid, b: Bid) {
    c in x.clients && x.clients[c].inTx && c in x.custody.pins && x.custody.pins[c] == b
  }

  /** The n-th reply on the wire of the client's job is the first ReadyForQuery; the job is no Flush and no NOTIFY. */
  ghost predicate Answers(x: Mux, c: Cid, n: nat) {
    && Busy(x, c) && !x.clients[c].task.job.kind.Flushed? && !x.clients[c].task.job.kind.Notice?
    && var rs := x.conns[x.custody.jobs[c]].unread; n < |rs| && rs[n].Ready? && NoReady(rs[..n])
  }

  lemma {:induction false} LengthToReady(rs: seq<Reply>, n: nat, kind: Kind)
    requires n < |rs| && rs[n].Ready? && NoReady(rs[..n]) && !kind.Flushed?
    ensures Length(rs, kind) == n + 1
  {
    assert rs[..n] + [rs[n]] + rs[n + 1..] == rs;
    LengthAtEnd(rs[..n], rs[n], kind);
    LengthPrefix(rs[..n] + [rs[n]], rs[n + 1..], kind);
  }

  /** When the replies to a query or to a pipeline with Sync have been read, the client is in a transaction if and only
      if the first ReadyForQuery said T or E; then it is pinned to the backend that said so. Otherwise it is pinned
      there exactly if it has named statements, and else to nothing. */
  lemma StatusSetsFlag(x: Mux, c: Cid, n: nat)
    requires Owned(x) && Answers(x, c, n)
    ensures Enabled(x, Finish(c))
    ensures var b, y := x.custody.jobs[c], NextFinish(x, c);
      && c in y.clients && b in y.conns
      && (y.clients[c].inTx <==> !x.conns[b].unread[n].tx.Idle?)
      && (y.clients[c].inTx ==> InTransactionOn(y, c, b))
      && (!y.clients[c].inTx ==> if x.clients[c].table.count > 0 then PinnedOn(y, c, b) else c !in y.custody.pins)
      && y.clients[c].task.Resting? && y.conns[b].session == x.conns[b].session
  {
    hide Exclusive, Length, Reconcile;
    var b, cl := x.custody.jobs[c], x.clients[c];
    LengthToReady(x.conns[b].unread, n, cl.task.job.kind);
    assert TaskFits(x, c);
    ReconcilePointers(x.custody, c, b, Known(x.conns[b].unread[n].tx), cl.table.count > 0);
  }

  /** A step of client d changes nothing about client c. */
  ghost predicate Untouched(x: Mux, y: Mux, c: Cid) {
    && SamePin(x.custody, y.custody, c)
    && (c in y.clients <==> c in x.clients) && (c in x.clients ==> y.clients[c] == x.clients[c])
  }

  lemma OthersAreUntouched(x: Mux, c: Cid, d: Cid, e: Event)
    requires Owned(x) && Enabled(x, e) && d != c
    requires (e.Finish? || e.Lose? || e.Abort? || e.Leave? || e.MonitorLost? || e.Ask? || e.Notify? || e.Send?)
        && e.c == d
    ensures Untouched(x, Next(x, e), c)
  {
    hide NextAsk, NextNotify, NextSend, NextFinish, NextLose, NextAbort, NextLeave, NextMonitorLost, Owned, Untouched;
    if e.Send? {
      RefusedKeepsOthers(x, d, e.msgs, e.end, e.v, c);
    } else if e.Finish? || e.Lose? || e.Abort? {
      ReplyKeepsOthers(x, d, e, c);
    } else if e.Leave? {
      LeaveKeepsOthers(x, d, c);
    } else if e.MonitorLost? {
      MonitorLostKeepsOthers(x, d, c);
    } else {
      AskKeepsOthers(x, d, e, c);
    }
  }

  lemma AskKeepsOthers(x: Mux, d: Cid, e: Event, c: Cid)
    requires (e.Ask? || e.Notify?) && e.c == d && Enabled(x, e) && c != d
    ensures Untouched(x, Next(x, e), c)
  {
    hide Query1, Cached1;
  }

  lemma LeaveKeepsOthers(x: Mux, d: Cid, c: Cid)
    requires Owned(x) && Enabled(x, Leave(d)) && c != d
    ensures Untouched(x, NextLeave(x, d), c)
  {
    hide Exclusive;
    if d in x.custody.pins {
      assert Holds(x.custody, d, x.custody.pins[d]);
      OtherPinsStay(x.custody, d, x.custody.pins[d], c);
    }
  }

  lemma MonitorLostKeepsOthers(x: Mux, d: Cid, c: Cid)
    requires Owned(x) && d in x.clients && c != d
    ensures Untouched(x, NextMonitorLost(x, d), c)
  {
    hide Exclusive, Drop, SamePin;
    DropLeavesOthers(x.custody, d, c);
  }

  lemma FinishKeepsOthers(x: Mux, d: Cid, c: Cid)
    requires Exclusive(x.custody) && Enabled(x, Finish(d)) && c != d
    ensures Untouched(x, NextFinish(x, d), c)
  {
    var b := x.custody.jobs[d];
    assert Holds(x.custody, d, b);
    OtherPinsStay(x.custody, d, b, c);
    hide Exclusive, Read, Length, Return, KeepPinned, Reconcile, SamePin;
  }

  lemma LoseKeepsOthers(x: Mux, d: Cid, n: nat, c: Cid)
    requires Exclusive(x.custody) && Enabled(x, Lose(d, n)) && c != d
    ensures Untouched(x, NextLose(x, d, n), c)
  {
    var b := x.custody.jobs[d];
    assert Holds(x.custody, d, b);
    OtherPinsStay(x.custody, d, b, c);
    hide Exclusive, Read, Release, KeepPinned, Reconcile, SamePin;
  }

  lemma AbortKeepsOthers(x: Mux, d: Cid, c: Cid)
    requires Exclusive(x.custody) && Busy(x, d) && c != d
    ensures Untouched(x, NextAbort(x, d), c)
  {
    var b := x.custody.jobs[d];
    assert Holds(x.custody, d, b);
    OtherPinsStay(x.custody, d, b, c);
    hide Exclusive, Release, SamePin;
  }

  lemma ReplyKeepsOthers(x: Mux, d: Cid, e: Event, c: Cid)
    requires Owned(x) && (e.Finish? || e.Lose? || e.Abort?) && e.c == d && Enabled(x, e) && c != d
    ensures Untouched(x, Next(x, e), c)
  {
    hide NextFinish, NextLose, NextAbort, Untouched, Exclusive;
    if e.Finish? {
      FinishKeepsOthers(x, d, c);
    } else if e.Lose? {
      LoseKeepsOthers(x, d, e.read, c);
    } else {
      AbortKeepsOthers(x, d, c);
    }
  }

  lemma RefusedKeepsOthers(x: Mux, d: Cid, ms: seq<Request>, end: Request, v: Delivery, c: Cid)
    requires Owned(x) && CanAcquire(x, d) && Target(x, d) in x.conns && c != d
    requires Fits(x.conns[Target(x, d)], Rename(x.clients[d].table, ms).msgs, v)
    ensures Untouched(x, NextSend(x, d, ms, end, v), c)
  {
    hide Exclusive, Hold, Release, Return, KeepPinned, Reconcile, Owned, Target, NextSend, Rename;
    SendCases(x, d, ms, end, v);
    var k, b := Hold(x, d, Rename(x.clients[d].table, ms).pins), Target(x, d);
    HoldKeeps(x, d, Rename(x.clients[d].table, ms).pins);
    OtherPinsStay(k, d, b, c);
    assert SamePin(x.custody, k, c);
  }

  lemma SendCases(x: Mux, d: Cid, ms: seq<Request>, end: Request, v: Delivery)
    requires CanAcquire(x, d) && Target(x, d) in x.conns
    requires Fits(x.conns[Target(x, d)], Rename(x.clients[d].table, ms).msgs, v)
    ensures var k, y := Hold(x, d, Rename(x.clients[d].table, ms).pins), NextSend(x, d, ms, end, v);
      && (y.custody == k || y.custody == Release(k, d, Target(x, d)))
      && d in y.clients && y.clients == x.clients[d := y.clients[d]]
  {
    hide Hold, Release, Deliver, View;
  }

  /** A transaction stays on its backend until a step of its own client ends it. */
  lemma TransactionStays(x: Mux, e: Event, c: Cid, b: Bid)
    requires Owned(x) && InTransactionOn(x, c, b) && !Ending(x, e, c)
    ensures InTransactionOn(Do(x, e), c, b)
  {
    hide Rename, Deliver, Injected, Fits, Query1, Cached1, Exclusive, View;
    if Enabled(x, e) {
      if e.Login? || e.Connect? || e.TargetClose? || e.TargetShrink? || e.TargetEvict? {
      } else if e.c != c {
        OthersAreUntouched(x, c, e.c, e);
      } else {
        assert TaskFits(x, c);
        OwnKeepsPin(x, c, b, e);
      }
    }
  }

  lemma OwnKeepsPin(x: Mux, c: Cid, b: Bid, e: Event)
    requires Owned(x) && InTransactionOn(x, c, b) && Enabled(x, e) && !Ending(x, e, c)
    requires (e.Finish? || e.Ask? || e.Notify? || e.Send?) && e.c == c
    ensures InTransactionOn(Next(x, e), c, b)
  {
    hide Rename, Deliver, Injected, Fits, Query1, Cached1, Exclusive, View;
    assert TaskFits(x, c);
    if e.Send? { HoldKeeps(x, c, Rename(x.clients[c].table, e.msgs).pins); }
  }

  /** From the transaction flag on, as long as no step of the client ends the transaction. */
  lemma {:induction false} FlagAffinity(x: Mux, es: seq<Event>, c: Cid, b: Bid)
    requires Owned(x) && KeepsReplies(x, es) && InTransactionOn(x, c, b)
    requires forall i :: 0 <= i < |es| ==> !Ending(Run(x, es[..i]), es[i], c)
    ensures InTransactionOn(Run(x, es), c, b)
    ensures forall i, d, t :: 0 <= i < |es| && Sends(Run(x, es[..i]), es[i], d, t) ==> (t == b <==> d == c)
  {
    hide Owned, Enabled, Next, LosesPinned, Ending, Sends, InTransactionOn, Do;
    if es != [] {
      var n := |es| - 1;
      forall i | 0 <= i < n ensures !Ending(Run(x, es[..n][..i]), es[..n][i], c) {
        assert es[..n][..i] == es[..i];
      }
      KeepsPrefix(x, es, n);
      OwnedRun(x, es[..n]);
      FlagAffinity(x, es[..n], c, b);
      TransactionStays(Run(x, es[..n]), es[n], c, b);
      forall i, d, t | 0 <= i < |es| && Sends(Run(x, es[..i]), es[i], d, t) ensures t == b <==> d == c {
        if i < n {
          assert es[..n][..i] == es[..i];
          assert Sends(Run(x, es[..n][..i]), es[..n][i], d, t);
        } else {
          SentToOwn(Run(x, es[..n]), c, b, es[n], d, t);
        }
      }
    }
  }

  /** Transaction affinity: once a backend has said T or E to a client, and as long as no step of the client ends the
      transaction, all its messages, NOTIFY included, and nobody else's, go to that backend. */
  lemma TransactionAffinity(x: Mux, c: Cid, n: nat, es: seq<Event>)
    requires Owned(x) && Answers(x, c, n) && !x.conns[x.custody.jobs[c]].unread[n].tx.Idle?
    requires Enabled(x, Finish(c)) && KeepsReplies(NextFinish(x, c), es)
    requires forall i :: 0 <= i < |es| ==> !Ending(Run(NextFinish(x, c), es[..i]), es[i], c)
    ensures var b, y := x.custody.jobs[c], NextFinish(x, c);
      && InTransactionOn(Run(y, es), c, b)
      && forall i, d, t :: 0 <= i < |es| && Sends(Run(y, es[..i]), es[i], d, t) ==> (t == b <==> d == c)
  {
    hide Owned, NextFinish, Run, Ending, Sends, InTransactionOn;
    StatusSetsFlag(x, c, n);
    FinishKeeps(x, c);
    FlagAffinity(NextFinish(x, c), es, c, x.custody.jobs[c]);
  }

  lemma SentToOwn(x: Mux, c: Cid, b: Bid, e: Event, d: Cid, t: Bid)
    requires Owned(x) && InTransactionOn(x, c, b) && Sends(x, e, d, t)
    ensures t == b <==> d == c
  {
    OwnBackendOnly(x, c, e, d, t);
  }

  // --- Affinity of named statements ---

  /** The client is pinned to the backend, for a transaction or for its named statements. */
  predicate PinnedOn(x: Mux, c: Cid, b: Bid) { c in x.clients && c in x.custody.pins && x.custody.pins[c] == b }

  /** The steps that can take a pin away: ReadyForQuery with status I for a client without named statements, a failure,
      or leaving. */
  ghost predicate Unpins(x: Mux, e: Event, c: Cid) {
    if e.Finish? then Ending(x, e, c) && x.clients[c].table.count == 0 else Ending(x, e, c)
  }

  /** What a step sends for the client, other than a NOTIFY outside a transaction, goes to the backend; and nobody else
      sends anything there. */
  ghost predicate SendsThereOnly(x: Mux, e: Event, c: Cid, b: Bid) {
    c in x.clients
    && forall d, t :: Sends(x, e, d, t) ==>
         (t == b ==> d == c) && (d == c && !(e.Notify? && !x.clients[c].inTx) ==> t == b)
  }

  lemma PinnedBackendOnly(x: Mux, e: Event, c: Cid, b: Bid)
    requires Owned(x) && PinnedOn(x, c, b)
    ensures SendsThereOnly(x, e, c, b)
  {
    assert Holds(x.custody, c, b);
    forall d, t | Sends(x, e, d, t)
      ensures (t == b ==> d == c) && (d == c && !(e.Notify? && !x.clients[c].inTx) ==> t == b)
    {
      if d in x.custody.pins { assert Holds(x.custody, d, x.custody.pins[d]); }
      if x.custody.queue != [] { assert Idling(x.custody, x.custody.queue[0]); }
      assert TaskFits(x, d);
    }
  }

  lemma PinStays(x: Mux, e: Event, c: Cid, b: Bid)
    requires Owned(x) && PinnedOn(x, c, b) && !Unpins(x, e, c)
    ensures PinnedOn(Do(x, e), c, b)
  {
    hide Rename, Deliver, Injected, Fits, Query1, Cached1, Exclusive, View;
    if Enabled(x, e) {
      if e.Login? || e.Connect? || e.TargetClose? || e.TargetShrink? || e.TargetEvict? {
      } else if e.c != c {
        OthersAreUntouched(x, c, e.c, e);
      } else {
        OwnStepKeepsPin(x, c, b, e);
      }
    }
  }

  lemma OwnStepKeepsPin(x: Mux, c: Cid, b: Bid, e: Event)
    requires Owned(x) && PinnedOn(x, c, b) && Enabled(x, e) && !Unpins(x, e, c)
    requires (e.Finish? || e.Ask? || e.Notify? || e.Send?) && e.c == c
    ensures PinnedOn(Next(x, e), c, b)
  {
    hide Rename, Deliver, Injected, Fits, Query1, Cached1, Exclusive, View;
    assert TaskFits(x, c);
    if e.Send? { HoldKeeps(x, c, Rename(x.clients[c].table, e.msgs).pins); }
  }

  /** A pipeline that parses a named statement that cannot be shared pins its client to the backend it goes to. */
  lemma OwnParsePins(x: Mux, c: Cid, ms: seq<Request>, end: Request, v: Delivery)
    requires Owned(x) && Enabled(x, Send(c, ms, end, v)) && Rename(x.clients[c].table, ms).pins
    requires NextSend(x, c, ms, end, v).clients[c].task.Working?
    ensures PinnedOn(NextSend(x, c, ms, end, v), c, Target(x, c))
  {
    hide Deliver, Injected, Fits, Exclusive, View;
    assert TaskFits(x, c);
    HoldKeeps(x, c, true);
  }

  /** Affinity of named statements: as long as a client has named statements of its own or a transaction whenever
      ReadyForQuery says I, and nothing of it fails, all its queries and pipelines, and nobody else's, go to the backend
      it is pinned to. */
  lemma {:induction false} NamedStatementAffinity(x: Mux, es: seq<Event>, c: Cid, b: Bid)
    requires Owned(x) && KeepsReplies(x, es) && PinnedOn(x, c, b)
    requires forall i :: 0 <= i < |es| ==> !Unpins(Run(x, es[..i]), es[i], c)
    ensures PinnedOn(Run(x, es), c, b)
    ensures forall i :: 0 <= i < |es| ==> SendsThereOnly(Run(x, es[..i]), es[i], c, b)
  {
    hide Owned, Enabled, Next, LosesPinned, Unpins, SendsThereOnly, PinnedOn, Do;
    if es != [] {
      var n := |es| - 1;
      forall i | 0 <= i < n ensures !Unpins(Run(x, es[..n][..i]), es[..n][i], c) {
        assert es[..n][..i] == es[..i];
      }
      KeepsPrefix(x, es, n);
      OwnedRun(x, es[..n]);
      NamedStatementAffinity(x, es[..n], c, b);
      PinStays(Run(x, es[..n]), es[n], c, b);
      PinnedBackendOnly(Run(x, es[..n]), es[n], c, b);
      forall i | 0 <= i < |es| ensures SendsThereOnly(Run(x, es[..i]), es[i], c, b) {
        if i < n {
          assert es[..n][..i] == es[..i];
          assert SendsThereOnly(Run(x, es[..n][..i]), es[..n][i], c, b);
        }
      }
    }
  }

  // --- Cancel routing ---

  datatype Route = Nowhere | To(backend: Bid)

  /** handleCancelRequest: the registered client with that secret, and the backend it has in flight. */
  function Lookup(x: Mux, pid: int, secret: int): Route {
    if pid in x.keys && x.keys[pid] in x.clients && x.clients[x.keys[pid]].secret == secret
        && x.keys[pid] in x.custody.jobs
    then To(x.custody.jobs[x.keys[pid]])
    else Nowhere
  }

  const WRAP := 0x1_0000_0000

  /** The cancel registry: entries lead to the client with that pid, and before the counter wraps nobody is missing. */
  ghost predicate Keyed(x: Mux) {
    && (forall p :: p in x.keys ==> x.keys[p] in x.clients && Pid(x.clients[x.keys[p]].serial) == p)
    && (forall c :: c in x.clients ==> 1 <= x.clients[c].serial <= x.logins)
    && (forall c, d :: c in x.clients && d in x.clients && x.clients[c].serial == x.clients[d].serial ==> c == d)
    && (x.logins < WRAP ==>
          forall c :: c in x.clients ==> Pid(x.clients[c].serial) in x.keys && x.keys[Pid(x.clients[c].serial)] == c)
  }

  lemma PidsDiffer(m: nat, n: nat)
    requires m < WRAP && n < WRAP
    ensures Pid(m) == Pid(n) <==> m == n
    ensures Pid(m) == 0 <==> m == 0
    ensures -0x8000_0000 <= Pid(m) < 0x8000_0000
  {
  }

  /** After 2^32 logins the process ids start over. */
  lemma PidsWrap(n: nat)
    ensures Pid(n + WRAP) == Pid(n)
  {
  }

  lemma KeyedSame(x: Mux, y: Mux)
    requires Keyed(x) && SameLogins(x, y)
    ensures Keyed(y)
  {
  }

  /** Only coming and going touch the registry. */
  ghost predicate SameLogins(x: Mux, y: Mux) {
    && y.keys == x.keys && y.logins == x.logins && y.clients.Keys == x.clients.Keys
    && forall c :: c in x.clients ==>
         y.clients[c].serial == x.clients[c].serial && y.clients[c].secret == x.clients[c].secret
  }

  /** A step that only replaces what is known of one client. */
  lemma OneClientKeepsLogins(x: Mux, y: Mux, c: Cid, cl: Client)
    requires c in x.clients && y.clients == x.clients[c := cl] && y.keys == x.keys && y.logins == x.logins
    requires cl.serial == x.clients[c].serial && cl.secret == x.clients[c].secret
    ensures SameLogins(x, y)
  {
    assert y.clients.Keys == x.clients.Keys + {c};
  }

  lemma AskKeepsLogins(x: Mux, c: Cid, q: Query, f: Fate, o: Outcome)
    requires CanAcquire(x, c) && Target(x, c) in x.conns
    ensures SameLogins(x, NextAsk(x, c, q, f, o))
  {
    hide Query1, Cached1, Acquire, Target, SameLogins;
    OneClientKeepsLogins(x, NextAsk(x, c, q, f, o), c, NextAsk(x, c, q, f, o).clients[c]);
  }

  lemma SendKeepsLogins(x: Mux, c: Cid, ms: seq<Request>, end: Request, v: Delivery)
    requires CanAcquire(x, c) && Target(x, c) in x.conns
    requires Fits(x.conns[Target(x, c)], Rename(x.clients[c].table, ms).msgs, v)
    ensures SameLogins(x, NextSend(x, c, ms, end, v))
  {
    hide Rename, Deliver, Injected, Fits, View, Hold, Release, Target, SameLogins;
    OneClientKeepsLogins(x, NextSend(x, c, ms, end, v), c, NextSend(x, c, ms, end, v).clients[c]);
  }

  lemma MessagesKeepLogins(x: Mux, e: Event)
    requires Enabled(x, e) && (e.Ask? || e.Notify? || e.Send?)
    ensures SameLogins(x, Next(x, e))
  {
    if e.Send? {
      hide SameLogins, NextSend;
      SendKeepsLogins(x, e.c, e.msgs, e.end, e.v);
    } else if e.Ask? {
      hide SameLogins, NextAsk;
      AskKeepsLogins(x, e.c, e.query, e.fate, e.outcome);
    } else if x.clients[e.c].inTx {
      hide SameLogins, NextAsk;
      AskKeepsLogins(x, e.c, Other(e.text), e.fate, Unparsable);
    } else {
      hide SameLogins, Query1, Borrow;
      OneClientKeepsLogins(x, Next(x, e), e.c, Next(x, e).clients[e.c]);
    }
  }

  lemma RepliesKeepLogins(x: Mux, e: Event)
    requires Enabled(x, e) && (e.Finish? || e.Lose? || e.Abort?)
    ensures SameLogins(x, Next(x, e))
  {
    hide Read, Reconcile, KeepPinned, Release, Return, Length, SameLogins;
    OneClientKeepsLogins(x, Next(x, e), e.c, Next(x, e).clients[e.c]);
  }

  lemma KeyedStep(x: Mux, e: Event)
    requires Keyed(x) && Enabled(x, e)
    ensures Keyed(Next(x, e))
  {
    if e.Login? {
      KeyedLogin(x, e);
    } else if e.Leave? || e.MonitorLost? {
      KeyedLeave(x, e);
    } else {
      hide Keyed, Pid;
      if e.Ask? || e.Notify? || e.Send? {
        MessagesKeepLogins(x, e);
      } else if e.Finish? || e.Lose? || e.Abort? {
        RepliesKeepLogins(x, e);
      }
      KeyedSame(x, Next(x, e));
    }
  }

  lemma KeyedLogin(x: Mux, e: Event)
    requires Keyed(x) && Enabled(x, e) && e.Login?
    ensures Keyed(Next(x, e))
  {
    hide Pid;
    var y := Next(x, e);
    if y.logins < WRAP {
      forall c | c in x.clients ensures Pid(x.clients[c].serial) != Pid(y.logins) {
        PidsDiffer(x.clients[c].serial, y.logins);
      }
    }
  }

  lemma KeyedLeave(x: Mux, e: Event)
    requires Keyed(x) && Enabled(x, e) && (e.Leave? || e.MonitorLost?)
    ensures Keyed(Next(x, e))
  {
    hide Pid, Release, Drop;
    if x.logins < WRAP {
      forall c | c in x.clients && c != e.c ensures Pid(x.clients[c].serial) != Pid(x.clients[e.c].serial) {
        PidsDiffer(x.clients[c].serial, x.clients[e.c].serial);
      }
    }
  }

  lemma {:induction false} KeyedRun(capacity: nat, es: seq<Event>)
    ensures Keyed(Run(Start(capacity), es))
  {
    hide Enabled, Next;
    if es != [] {
      var n := |es| - 1;
      KeyedRun(capacity, es[..n]);
      hide Keyed;
      if Enabled(Run(Start(capacity), es[..n]), es[n]) { KeyedStep(Run(Start(capacity), es[..n]), es[n]); }
    }
  }

  /** What the registry keeps of a client is from its login and never changes; a client starts without names, outside a
      transaction. */
  lemma LoginStays(x: Mux, e: Event, c: Cid)
    requires Enabled(x, e) && c in Next(x, e).clients
    ensures var y := Next(x, e).clients[c];
      if c in x.clients then y.serial == x.clients[c].serial && y.secret == x.clients[c].secret
      else
        && e == Login(c, y.secret) && y.serial == Next(x, e).logins == x.logins + 1
        && y.table == NameTable(map[], 0) && y.view == map[] && !y.inTx && y.task.Resting?
  {
    if e.Ask? || e.Notify? || e.Send? {
      hide Next, Enabled, Pid;
      MessagesKeepLogins(x, e);
    } else if e.Finish? || e.Lose? || e.Abort? {
      hide Next, Enabled, Pid;
      RepliesKeepLogins(x, e);
    } else {
      hide Release, Drop, Open, Evict, Close, Shrink, Pid;
    }
  }

  /** The client's last login: the secret and the number are those of that event. */
  ghost predicate LoggedIn(x: Mux, es: seq<Event>, i: nat, c: Cid, secret: int, serial: nat) {
    && i < |es| && es[i] == Login(c, secret) && c !in Run(x, es[..i]).clients && serial == Run(x, es[..i]).logins + 1
    && forall j :: i < j <= |es| ==> c in Run(x, es[..j]).clients
  }

  lemma {:induction false} LastLogin(capacity: nat, es: seq<Event>, c: Cid) returns (i: nat)
    requires c in Run(Start(capacity), es).clients
    ensures var cl := Run(Start(capacity), es).clients[c];
      LoggedIn(Start(capacity), es, i, c, cl.secret, cl.serial)
  {
    var s, n := Start(capacity), |es| - 1;
    var x, e := Run(s, es[..n]), es[n];
    assert es[..n + 1] == es;
    if c in x.clients {
      i := LastLogin(capacity, es[..n], c);
      forall j | 0 <= j <= n ensures es[..n][..j] == es[..j] {}
      assert es[..n][i] == es[i];
      if Enabled(x, e) { hide Next, Enabled; LoginStays(x, e, c); }
    } else {
      i := n;
      hide Next, Enabled;
      LoginStays(x, e, c);
    }
  }

  /** A cancel request that finds a backend has the process id and the secret of the last login of the client that holds
      it. */
  lemma CancelHasLoginSecret(capacity: nat, es: seq<Event>, pid: int, secret: int) returns (c: Cid, i: nat)
    requires Lookup(Run(Start(capacity), es), pid, secret).To?
    ensures var x := Run(Start(capacity), es);
      && c in x.clients && c in x.custody.jobs && Lookup(x, pid, secret) == To(x.custody.jobs[c])
      && LoggedIn(Start(capacity), es, i, c, secret, x.clients[c].serial) && pid == Pid(x.clients[c].serial)
  {
    hide Run, Pid, LoggedIn;
    KeyedRun(capacity, es);
    c := Run(Start(capacity), es).keys[pid];
    i := LastLogin(capacity, es, c);
  }

  /** Cancel routing: a lookup finds nothing, or a backend that the client registered under that pid holds and nobody
      else does; before the counter wraps, every live client is the one registered under its pid. */
  lemma CancelReachesOwnBackend(capacity: nat, es: seq<Event>, pid: int, secret: int)
    requires KeepsReplies(Start(capacity), es)
    ensures var x := Run(Start(capacity), es);
      && (Lookup(x, pid, secret).To? ==>
            var b, c := Lookup(x, pid, secret).backend, x.keys[pid];
            && Pid(x.clients[c].serial) == pid && x.clients[c].secret == secret
            && b in x.custody.all && b !in x.custody.queue && b !in x.custody.closing && Holders(x.custody, b) == {c})
      && (x.logins < WRAP ==>
            forall c :: c in x.clients && c in x.custody.jobs ==>
              Lookup(x, Pid(x.clients[c].serial), x.clients[c].secret) == To(x.custody.jobs[c]))
  {
    hide Run, Pid;
    KeyedRun(capacity, es);
    StartIsOwned(capacity);
    OwnedRun(Start(capacity), es);
    var x := Run(Start(capacity), es);
    if Lookup(x, pid, secret).To? {
      var b, c := Lookup(x, pid, secret).backend, x.keys[pid];
      assert Holds(x.custody, c, b);
      assert !Idling(x.custody, b) && !Closing(x.custody, b);
      assert Holders(x.custody, b) == {c};
    }
  }
}
