/**
 Every run that meets the hypotheses of a concern keeps its connections tended; what that means for the queue, for
 the deployment record and for the namespace of each client.
 */
module Guarantees {
  import opened Sequences
  import opened Protocol
  import opened Naming
  import opened Deployment
  import opened Virtual
  import opened CachedQuery
  import opened Connection
  import opened Custody
  import opened Multiplexer
  import opened Runs
  import opened Upkeep

  // --- Where the backend of a finished job goes ---

  lemma KeptElsewhere(k: Custody, c: Cid, b: Bid)
    requires Exclusive(k) && WorksOn(k, c, b) && (c in k.pins ==> k.pins[c] == b)
    ensures var n := KeepPinned(k, c, b);
      Elsewhere(k, n, c, b) && !WorksOn(n, c, b) && Holds(n, c, b) && !Idling(n, b)
  {
    assert Holds(k, c, b);
    hide Exclusive;
  }

  /** Back to the queue, or to the target when the queue is full. */
  lemma ReturnedElsewhere(k: Custody, n: Custody, c: Cid, b: Bid)
    requires Exclusive(k) && WorksOn(k, c, b)
    requires (n == Return(k, c, b) && !(c in k.pins && k.pins[c] == b))
          || (n == Return(Unpin(k, c, b), c, b) && (c in k.pins ==> k.pins[c] == b))
    ensures Elsewhere(k, n, c, b) && !WorksOn(n, c, b) && !Holds(n, c, b) && (Idling(n, b) || Closing(n, b))
  {
    assert Holds(k, c, b);
    hide Exclusive;
    assert |k.queue| < k.capacity ==> n.queue == k.queue + [b];
    assert |k.queue| >= k.capacity ==> n.closing == k.closing + [b];
  }

  lemma ReconciledElsewhere(k: Custody, c: Cid, b: Bid, tx: Tx, named: bool)
    requires Exclusive(k) && WorksOn(k, c, b) && (c in k.pins ==> k.pins[c] == b)
    ensures var n := Reconcile(k, c, b, Known(tx), c in k.pins, named);
      && Elsewhere(k, n, c, b) && !WorksOn(n, c, b)
      && (if !tx.Idle? || named then Holds(n, c, b) && !Idling(n, b)
          else !Holds(n, c, b) && (Idling(n, b) || Closing(n, b)))
  {
    hide Exclusive, Elsewhere, Holds, Idling, Closing, WorksOn, Return, KeepPinned;
    if !tx.Idle? || named {
      KeptElsewhere(k, c, b);
    } else {
      ReturnedElsewhere(k, Reconcile(k, c, b, Known(tx), c in k.pins, named), c, b);
    }
  }

  // --- The steps of a reply ---

  lemma WorkIsHeld(x: Mux, c: Cid, q: Concern)
    requires Tended(x, q) && Busy(x, c)
    ensures var b, cl := x.custody.jobs[c], x.clients[c];
      && WorksOn(x.custody, c, b) && Holds(x.custody, c, b) && HeldOk(q, x.conns[b], cl, true) && TaskFits(x, c)
  {
    hide Exclusive, HeldOk;
    assert WorksOn(x.custody, c, x.custody.jobs[c]);
    assert Holds(x.custody, c, x.custody.jobs[c]);
  }

  /** The backend of a finished job goes back to the queue or to the target: always after a NOTIFY, and otherwise
      outside a transaction of a client without named statements. */
  predicate GivenBack(cl: Client, tx: Tx)
    requires cl.task.Working?
  {
    cl.task.job.kind.Notice? || (!cl.task.job.kind.Flushed? && tx.Idle? && cl.table.count == 0)
  }

  /** After its replies are read a connection is held in order, and is fit for the queue when it is given back. */
  lemma ReadIsFit(q: Concern, conn: Conn, cl: Client, rested: Client)
    requires HeldOk(q, conn, cl, true) && rested.table == cl.table
    requires Length(conn.unread, cl.task.job.kind) <= |conn.unread|
    ensures var n := Length(conn.unread, cl.task.job.kind);
      var next := Read(conn, cl.task.job, n);
      && HeldOk(q, next, rested, false)
      && (GivenBack(cl, Reported(conn, n)) ==> IdleOk(q, next))
  {
    if q.Cleanliness? {
      ReadAnswer(conn, cl.task.job);
    }
  }

  lemma ReadAnswer(conn: Conn, job: Job)
    requires Tells(conn, job) && Length(conn.unread, job.kind) <= |conn.unread|
    ensures var n := Length(conn.unread, job.kind);
      && NoReady(conn.unread[n..])
      && (!job.kind.Flushed? ==>
            conn.unread[n..] == [] && Reported(conn, n) == conn.session.tx && !conn.session.skipping)
  {
    var u := conn.unread;
    LengthFinds(u, job.kind);
    if !job.kind.Flushed? {
      assert exists r :: r in u && r.Ready?;
      var front, last := u[..|u| - 1], u[|u| - 1];
      assert u == front + [last];
      LengthAtEnd(front, last, job.kind);
    }
  }

  /** Where the backend of a finished job is: still held, or fit for the queue and given back. */
  lemma FinishPlaces(x: Mux, c: Cid, q: Concern)
    requires Tended(x, q) && Enabled(x, Finish(c))
    ensures var b, y := x.custody.jobs[c], NextFinish(x, c);
      && Elsewhere(x.custody, y.custody, c, b) && !WorksOn(y.custody, c, b)
      && HeldOk(q, y.conns[b], y.clients[c], false)
      && (if Holds(y.custody, c, b) then !Idling(y.custody, b)
          else (Idling(y.custody, b) || Closing(y.custody, b)) && IdleOk(q, y.conns[b]))
  {
    hide Exclusive, IdleOk, HeldOk, Elsewhere, Holds, Idling, Closing, WorksOn, Length, Read, Reconcile, KeepPinned,
      Return,
      Owned;
    var b, cl := x.custody.jobs[c], x.clients[c];
    var conn, y := x.conns[b], NextFinish(x, c);
    WorkIsHeld(x, c, q);
    ReadIsFit(q, conn, cl, y.clients[c]);
    OwnedIsExclusive(x);
    if cl.task.job.kind.Flushed? {
      KeptElsewhere(x.custody, c, b);
    } else if cl.task.job.kind.Notice? {
      NoticeApart(x, c);
      ReturnedElsewhere(x.custody, y.custody, c, b);
    } else {
      var tx := Reported(conn, Length(conn.unread, cl.task.job.kind));
      ReconciledElsewhere(x.custody, c, b, tx, cl.table.count > 0);
    }
  }

  lemma FinishTends(x: Mux, c: Cid, q: Concern)
    requires Tended(x, q) && Enabled(x, Finish(c))
    ensures Tended(NextFinish(x, c), q)
  {
    hide Exclusive, IdleOk, HeldOk, Elsewhere, Holds, Idling, Closing, WorksOn, Length, Read, Reconcile, KeepPinned,
      Return,
      Owned;
    FinishPlaces(x, c, q);
    FinishKeeps(x, c);
    ElsewhereTends(x, NextFinish(x, c), c, x.custody.jobs[c], q);
  }

  lemma OwnedIsExclusive(x: Mux)
    requires Owned(x)
    ensures Exclusive(x.custody)
  {
  }

  lemma NoticeApart(x: Mux, c: Cid)
    requires Busy(x, c) && TaskFits(x, c) && x.clients[c].task.job.kind.Notice?
    ensures !(c in x.custody.pins && x.custody.pins[c] == x.custody.jobs[c])
  {
  }

  /** A release, whatever it was for: the backend is out of everybody's hands. */
  lemma ReleaseTends(x: Mux, c: Cid, conn: Conn, q: Concern)
    requires Tended(x, q) && Busy(x, c)
    ensures var b := x.custody.jobs[c];
      Tended(Put(x, Release(x.custody, c, b), c, AfterRelease(x.custody, c, b, x.clients[c]), b, conn), q)
  {
    hide Exclusive, IdleOk, HeldOk, Elsewhere, Holds, Idling, Closing, WorksOn, Release, Owned;
    var b := x.custody.jobs[c];
    WorkIsHeld(x, c, q);
    JobReleases(x, c, conn);
    OwnedIsExclusive(x);
    ReleaseElsewhere(x.custody, c, b);
    ElsewhereTends(x, Put(x, Release(x.custody, c, b), c, AfterRelease(x.custody, c, b, x.clients[c]), b, conn), c, b, q);
  }

  /** A failed read after Flush: the client keeps the backend. */
  lemma LostFlushTendsIff(x: Mux, c: Cid, n: nat, q: Concern)
    requires Tended(x, q) && Enabled(x, Lose(c, n)) && x.clients[c].task.job.kind.Flushed?
    ensures Tended(NextLose(x, c, n), q) <==> LossOk(x, c, n, q)
  {
    hide Exclusive, Elsewhere, Holds, Idling, Closing, WorksOn, KeepPinned, Owned, Private, AtRest, Settles;
    var b, y := x.custody.jobs[c], NextLose(x, c, n);
    WorkIsHeld(x, c, q);
    OwnedIsExclusive(x);
    KeptElsewhere(x.custody, c, b);
    KeepPinnedFits(x, c, y.conns[b]);
    if LossOk(x, c, n, q) {
      ElsewhereTends(x, y, c, b, q);
    } else {
      assert Holds(y.custody, c, b) && !WorksOn(y.custody, c, b);
    }
  }

  /** Where the backend of a lost reply goes on the extended and the cached path. */
  lemma LostPlaces(x: Mux, c: Cid, n: nat)
    requires Owned(x) && Enabled(x, Lose(c, n)) && !LosesPinned(x, Lose(c, n))
    requires x.clients[c].task.job.kind.Extended? || x.clients[c].task.job.kind.Cached?
    ensures var b, y := x.custody.jobs[c], NextLose(x, c, n);
      && Elsewhere(x.custody, y.custody, c, b) && !Holds(y.custody, c, b)
      && (if |x.custody.queue| < x.custody.capacity then Idling(y.custody, b)
          else Closing(y.custody, b) && !Idling(y.custody, b))
  {
    hide Exclusive, Elsewhere;
    var k, b, y := x.custody, x.custody.jobs[c], NextLose(x, c, n);
    assert TaskFits(x, c);
    assert WorksOn(k, c, b) && Holds(k, c, b);
    OwnedIsExclusive(x);
    WorkerHolds(k, c, b);
    ReturnedElsewhere(k, y.custody, c, b);
    if |k.queue| < k.capacity {
      assert y.custody.queue == k.queue + [b];
    } else {
      assert y.custody.closing == k.closing + [b];
    }
  }

  /** A lost reply keeps the connections in order if and only if it does no harm. */
  lemma LoseTendsIff(x: Mux, c: Cid, n: nat, q: Concern)
    requires Tended(x, q) && Enabled(x, Lose(c, n))
    ensures Tended(NextLose(x, c, n), q) <==> LossOk(x, c, n, q)
  {
    hide IdleOk, HeldOk, Elsewhere, Holds, Idling, Closing, WorksOn, Release, Owned, Reconcile;
    var b, kind, e := x.custody.jobs[c], x.clients[c].task.job.kind, Lose(c, n);
    if kind.Flushed? {
      LostFlushTendsIff(x, c, n, q);
    } else if kind.Plain? || kind.Notice? {
      ReleaseTends(x, c, Read(x.conns[b], x.clients[c].task.job, n), q);
    } else if LosesPinned(x, e) {
      LosingPinnedBreaksOwnership(x, e);
      PinnedIsNotOwned(x, c, n);
    } else {
      LostPlaces(x, c, n);
      OwnedStep(x, e);
      var y := NextLose(x, c, n);
      if LossOk(x, c, n, q) { ElsewhereTends(x, y, c, b, q); }
    }
  }

  lemma PinnedIsNotOwned(x: Mux, c: Cid, n: nat)
    requires Enabled(x, Lose(c, n)) && !Exclusive(NextLose(x, c, n).custody)
    ensures !Owned(NextLose(x, c, n))
  {
  }

  /** On the extended and the cached path a lost reply of a client whose backend is not pinned by named statements puts
      the backend in the queue, while there is room. It is clean there if and only if nothing was left to read and the
      session is idle, not discarding, and without statements of the client's own. */
  lemma LostReplyIsCleanIff(x: Mux, c: Cid, n: nat)
    requires Owned(x) && Enabled(x, Lose(c, n)) && !LosesPinned(x, Lose(c, n))
    requires x.clients[c].task.job.kind.Extended? || x.clients[c].task.job.kind.Cached?
    requires |x.custody.queue| < x.custody.capacity
    ensures var b, y := x.custody.jobs[c], NextLose(x, c, n);
      var s := x.conns[b].session;
      && b in y.custody.queue
      && (Clean(y.conns[b]) <==> n == |x.conns[b].unread| && s.tx.Idle? && !s.skipping && Private(s) == {})
  {
    LostPlaces(x, c, n);
    hide Reconcile, Owned, Elsewhere, Holds;
    var b, y := x.custody.jobs[c], NextLose(x, c, n);
    assert Idling(y.custody, b);
    assert y.conns[b].unread == x.conns[b].unread[n..];
  }

  /** A query that is cut off before its answer is read: the next client gets a backend with the rest on the wire. */
  lemma CutOffReplyIsQueued(x: Mux, c: Cid, n: nat)
    requires Owned(x) && Enabled(x, Lose(c, n)) && !LosesPinned(x, Lose(c, n))
    requires x.clients[c].task.job.kind.Extended? || x.clients[c].task.job.kind.Cached?
    requires |x.custody.queue| < x.custody.capacity && n < |x.conns[x.custody.jobs[c]].unread|
    ensures var b, y := x.custody.jobs[c], NextLose(x, c, n);
      b in y.custody.queue && y.conns[b].unread != []
  {
    hide Clean;
    LostReplyIsCleanIff(x, c, n);
  }

  lemma AbortTends(x: Mux, c: Cid, q: Concern)
    requires Tended(x, q) && Busy(x, c)
    ensures Tended(NextAbort(x, c), q)
  {
    hide Tended, Release;
    ReleaseTends(x, c, x.conns[x.custody.jobs[c]], q);
  }

  // --- Steps without a message ---

  /** Steps that only take things away, or add a new connection or client. */
  lemma ShrinkingTends(x: Mux, y: Mux, q: Concern)
    requires Tended(x, q) && Owned(y)
    requires forall c :: c in y.clients && c in x.clients ==> y.clients[c] == x.clients[c]
    requires forall b :: b in y.conns && b in x.conns ==> y.conns[b] == x.conns[b]
    requires forall b :: b in y.conns && b !in x.conns ==> y.conns[b] == NEW
    requires forall b :: Idling(y.custody, b) ==> (if b in x.conns then Idling(x.custody, b) else b in y.conns)
    requires forall c, b :: Holds(y.custody, c, b) ==>
               Holds(x.custody, c, b) && WorksOn(y.custody, c, b) == WorksOn(x.custody, c, b)
    ensures Tended(y, q)
  {
    hide Exclusive, Holds, Idling, WorksOn, HeldOk;
    NewIsIdleOk(q);
    hide IdleOk;
    forall c, b | Holds(y.custody, c, b)
      ensures c in y.clients && b in y.conns && HeldOk(q, y.conns[b], y.clients[c], WorksOn(y.custody, c, b))
    {
      assert HeldOk(q, x.conns[b], x.clients[c], WorksOn(x.custody, c, b));
      HolderIsThere(y, c, b);
    }
    forall b | Idling(y.custody, b) ensures b in y.conns && IdleOk(q, y.conns[b]) {
      IdlerIsThere(y, b);
    }
  }

  lemma IdlerIsThere(x: Mux, b: Bid)
    requires Owned(x) && Idling(x.custody, b)
    ensures b in x.conns
  {
  }

  lemma HolderIsThere(x: Mux, c: Cid, b: Bid)
    requires Owned(x) && Holds(x.custody, c, b)
    ensures c in x.clients && b in x.conns
  {
  }

  lemma NewIsIdleOk(q: Concern)
    ensures IdleOk(q, NEW)
  {
  }

  lemma LoginTends(x: Mux, e: Event, q: Concern)
    requires Tended(x, q) && Enabled(x, e) && e.Login?
    ensures Tended(Next(x, e), q)
  {
    hide Exclusive, HeldOk, IdleOk;
    LoginKeeps(x, e);
    hide Owned;
    ShrinkingTends(x, Next(x, e), q);
  }

  lemma LeaveTends(x: Mux, c: Cid, q: Concern)
    requires Tended(x, q) && Enabled(x, Leave(c))
    ensures Tended(NextLeave(x, c), q)
  {
    hide HeldOk, IdleOk;
    LeaveKeeps(x, c);
    var k, y := x.custody, NextLeave(x, c);
    assert TaskFits(x, c);
    if Pinned(x, c) {
      assert Holds(k, c, k.pins[c]);
      OwnerIsHolder(k, c, k.pins[c]);
    }
    hide Exclusive, Owned;
    ShrinkingTends(x, y, q);
  }

  lemma MonitorLostTends(x: Mux, c: Cid, q: Concern)
    requires Tended(x, q) && c in x.clients
    ensures Tended(NextMonitorLost(x, c), q)
  {
    hide HeldOk, IdleOk;
    MonitorLostKeeps(x, c);
    OwnedIsExclusive(x);
    DropTakesAway(x.custody, c);
    hide Exclusive, Owned, Drop, Holds, Idling, WorksOn;
    ShrinkingTends(x, NextMonitorLost(x, c), q);
  }

  lemma DropTakesAway(k: Custody, c: Cid)
    requires Exclusive(k)
    ensures forall d, b :: Holds(Drop(k, c), d, b) ==> Holds(k, d, b) && WorksOn(Drop(k, c), d, b) == WorksOn(k, d, b)
    ensures forall b :: Idling(Drop(k, c), b) <==> Idling(k, b)
  {
    hide Exclusive;
  }

  lemma TargetTends(x: Mux, e: Event, q: Concern)
    requires Tended(x, q) && Enabled(x, e) && (e.Connect? || e.TargetClose? || e.TargetShrink? || e.TargetEvict?)
    ensures Tended(Next(x, e), q)
  {
    hide HeldOk, IdleOk, NextAsk, NextNotify, NextSend, NextFinish, NextLose, NextAbort, NextLeave, NextMonitorLost;
    TargetKeeps(x, e);
    var k, y := x.custody, Next(x, e);
    if e.TargetEvict? { WithoutKeeps(k.queue, e.stale); }
    hide Exclusive;
    if e.Connect? && |k.queue| < k.capacity {
      assert y.custody.queue == k.queue + [e.b];
    }
    assert forall c, b :: Holds(y.custody, c, b) <==> Holds(k, c, b);
    assert y.conns.Keys == y.custody.all;
    hide Owned;
    ShrinkingTends(x, y, q);
  }

  /** Every step within the hypotheses of a concern keeps every connection tended. */
  lemma TendedStep(x: Mux, e: Event, q: Concern)
    requires Tended(x, q) && Enabled(x, e) && Behaves(x, e, q)
    ensures Tended(Next(x, e), q)
  {
    hide Tended, NextAsk, NextNotify, NextSend, NextFinish, NextLose, NextAbort, NextLeave, NextMonitorLost, SendOk,
      LossOk;
    if e.Login? {
      LoginTends(x, e, q);
    } else if e.Ask? {
      AskTends(x, e.c, e.query, e.fate, e.outcome, q);
    } else if e.Notify? {
      if x.clients[e.c].inTx {
        AskTends(x, e.c, Other(e.text), e.fate, Unparsable, q);
      } else {
        NotifyTends(x, e.c, e.text, e.fate, q);
      }
    } else if e.Send? {
      SendTends(x, e.c, e.msgs, e.end, e.v, q);
    } else if e.Finish? {
      FinishTends(x, e.c, q);
    } else if e.Lose? {
      LoseTendsIff(x, e.c, e.read, q);
    } else if e.Abort? {
      AbortTends(x, e.c, q);
    } else if e.Leave? {
      LeaveTends(x, e.c, q);
    } else if e.MonitorLost? {
      MonitorLostTends(x, e.c, q);
    } else {
      TargetTends(x, e, q);
    }
  }

  // --- Whole runs ---

  ghost predicate BehavesThroughout(x: Mux, es: seq<Event>, q: Concern) {
    forall i :: 0 <= i < |es| && Enabled(Run(x, es[..i]), es[i]) ==> Behaves(Run(x, es[..i]), es[i], q)
  }

  lemma StartIsTended(capacity: nat, q: Concern)
    ensures Tended(Start(capacity), q)
  {
  }

  lemma {:induction false} TendedRun(x: Mux, es: seq<Event>, q: Concern)
    requires Tended(x, q) && BehavesThroughout(x, es, q)
    ensures Tended(Run(x, es), q)
  {
    hide Tended, Enabled, Next, Behaves;
    if es != [] {
      var n := |es| - 1;
      forall i | 0 <= i < n && Enabled(Run(x, es[..n][..i]), es[..n][i])
        ensures Behaves(Run(x, es[..n][..i]), es[..n][i], q)
      {
        assert es[..n][..i] == es[..i];
      }
      TendedRun(x, es[..n], q);
      if Enabled(Run(x, es[..n]), es[n]) { TendedStep(Run(x, es[..n]), es[n], q); }
    }
  }

  /** Clean return: whatever clients parsed, mixed or left unread, a connection in the queue is outside a transaction,
      has no unread reply and holds no statement of a client's own. */
  lemma QueueIsClean(capacity: nat, es: seq<Event>, b: Bid)
    requires BehavesThroughout(Start(capacity), es, Cleanliness)
    ensures var x := Run(Start(capacity), es);
      b in x.custody.queue ==>
        && b in x.conns && x.conns[b].unread == []
        && x.conns[b].session.tx.Idle? && !x.conns[b].session.skipping && Private(x.conns[b].session) == {}
  {
    hide Run;
    StartIsTended(capacity, Cleanliness);
    TendedRun(Start(capacity), es, Cleanliness);
    var x := Run(Start(capacity), es);
    if b in x.custody.queue { assert Idling(x.custody, b); }
  }

  /** The transaction flag tells the truth: when the replies to a query or to a pipeline with Sync have been read, the
      client is in a transaction if and only if the session of the backend it used is, and is then pinned there. */
  lemma FlagIsSession(capacity: nat, es: seq<Event>, c: Cid)
    requires BehavesThroughout(Start(capacity), es, Cleanliness) && Enabled(Run(Start(capacity), es), Finish(c))
    requires var kind := Run(Start(capacity), es).clients[c].task.job.kind; !kind.Flushed? && !kind.Notice?
    ensures var x := Run(Start(capacity), es);
      var b, y := x.custody.jobs[c], NextFinish(x, c);
      && Answers(x, c, |x.conns[b].unread| - 1) && b in y.conns && c in y.clients
      && (y.clients[c].inTx <==> !y.conns[b].session.tx.Idle?)
      && (y.clients[c].inTx ==> InTransactionOn(y, c, b))
  {
    hide Run, NextFinish, Length, InTransactionOn;
    StartIsTended(capacity, Cleanliness);
    TendedRun(Start(capacity), es, Cleanliness);
    var x := Run(Start(capacity), es);
    var b := x.custody.jobs[c];
    WorkIsHeld(x, c, Cleanliness);
    LengthFinds(x.conns[b].unread, x.clients[c].task.job.kind);
    StatusSetsFlag(x, c, |x.conns[b].unread| - 1);
  }

  /** Deployment record: a connection that is idle, or whose client is not waiting for replies, holds a statement if and
      only if it is recorded. */
  lemma RecordIsExact(capacity: nat, es: seq<Event>, b: Bid, h: Hash)
    requires BehavesThroughout(Start(capacity), es, Bookkeeping(h))
    ensures var x := Run(Start(capacity), es);
      b in x.custody.all && b !in x.custody.jobs.Values && b !in x.custody.closing && b !in x.custody.lost ==>
        b in x.conns && (h in x.conns[b].deployed <==> h in Held(x.conns[b].session))
  {
    hide Run;
    StartIsTended(capacity, Bookkeeping(h));
    TendedRun(Start(capacity), es, Bookkeeping(h));
    var x := Run(Start(capacity), es);
    if b in x.custody.all && b !in x.custody.jobs.Values && b !in x.custody.closing && b !in x.custody.lost {
      assert !Closing(x.custody, b) && !Lost(x.custody, b);
      if !Idling(x.custody, b) {
        var c: Cid :| Holds(x.custody, c, b);
        assert !WorksOn(x.custody, c, b);
      }
    }
  }

  /** No Parse is sent for a statement that the backend holds. */
  lemma NoParseTwice(capacity: nat, es: seq<Event>, c: Cid, ms: seq<Request>, end: Request, v: Delivery, h: Hash)
    requires BehavesThroughout(Start(capacity), es, Bookkeeping(h))
    requires Enabled(Run(Start(capacity), es), Send(c, ms, end, v))
    ensures var x := Run(Start(capacity), es);
      var conn, qs := x.conns[Target(x, c)], Rename(x.clients[c].table, ms).msgs;
      var inj := Injected(conn, v);
      && (h in Held(conn.session) ==> h !in v.order)
      && (inj.ok && h in Held(inj.session) ==> h !in Sent(Forward(qs, inj.deployed)))
  {
    hide Run, Rename, Forward, Sent, Inject, Needed;
    StartIsTended(capacity, Bookkeeping(h));
    TendedRun(Start(capacity), es, Bookkeeping(h));
    var x := Run(Start(capacity), es);
    AcquiredIsFit(x, c, Bookkeeping(h));
    var conn, qs := x.conns[Target(x, c)], Rename(x.clients[c].table, ms).msgs;
    NeededIsNew(qs, conn.deployed);
    InjectHolds(conn.session, conn.deployed, conn.unread, v.order, v.gs, h);
    SentIsNew(qs, Injected(conn, v).deployed);
    var sent := Sent(Forward(qs, Injected(conn, v).deployed));
    assert h in v.order ==> h in SetOf(v.order);
    assert h in sent ==> h in SetOf(sent);
  }

  lemma NeededIsNew(qs: seq<Request>, d: set<Hash>)
    ensures Needed(qs, d) !! d
  {
  }
}
