/**
 What steps keep about the connections. Two concerns are kept apart, each with the hypotheses that it needs: that what
 goes back to the queue is clean, and that the record of deployed statements is exact.
 */
module Upkeep {
  import opened Sequences
  import opened Protocol
  import opened Naming
  import opened Deployment
  import opened Virtual
  import opened CachedQuery
  import opened Connection
  import opened Custody
  import opened Multiplexer
  import opened Runs

  datatype Concern = Cleanliness | Bookkeeping(hash: Hash)

  /** What is asked of an idle connection. */
  predicate IdleOk(q: Concern, conn: Conn) {
    match q
    case Cleanliness => Clean(conn)
    case Bookkeeping(h) => AtRest(conn, h)
  }

  /** What is asked of a connection in a client's hands, waiting for replies or not. */
  predicate HeldOk(q: Concern, conn: Conn, client: Client, working: bool) {
    match q
    case Cleanliness =>
      && |Private(conn.session)| <= client.table.count
      && (if working then client.task.Working? && Tells(conn, client.task.job) else NoReady(conn.unread))
    case Bookkeeping(h) =>
      if working then client.task.Working? && Settles(conn, client.task.job, h) else AtRest(conn, h)
  }

  predicate WorksOn(k: Custody, c: Cid, b: Bid) { c in k.jobs && k.jobs[c] == b }

  ghost predicate Tended(x: Mux, q: Concern) {
    && Owned(x)
    && (forall b :: Idling(x.custody, b) ==> b in x.conns && IdleOk(q, x.conns[b]))
    && (forall c, b :: Holds(x.custody, c, b) ==>
          c in x.clients && b in x.conns && HeldOk(q, x.conns[b], x.clients[c], WorksOn(x.custody, c, b)))
  }

  /** A lost reply does no harm. Where the code releases the backend it never does, and after a Flush, when the client
      keeps the backend, none to cleanliness; on the extended and the cached path, where the code takes the loss for
      success, only if no pin is left behind and what goes to the queue happens to be in order. */
  ghost predicate LossOk(x: Mux, c: Cid, n: nat, q: Concern)
    requires Enabled(x, Lose(c, n))
  {
    var job := x.clients[c].task.job;
    var next := Read(x.conns[x.custody.jobs[c]], job, n);
    match job.kind
    case Plain => true
    case Notice => true
    case Flushed => q.Bookkeeping? ==> AtRest(next, q.hash)
    case _ => !LosesPinned(x, Lose(c, n)) && (|x.custody.queue| < x.custody.capacity ==> IdleOk(q, next))
  }

  /** The hypotheses on a step. For cleanliness: no Close does harm to the count, a NOTIFY leaves the session idle, and
      a lost reply does no harm. For the record of one hash: no Parse of the client's own stands before its first one,
      unless the backend has the statement, nothing stands between the first Describe and a Flush, and a lost reply does
      no harm. */
  ghost predicate Behaves(x: Mux, e: Event, q: Concern)
    requires Enabled(x, e)
  {
    match e
    case Notify(c, _, f) => q.Cleanliness? && !x.clients[c].inTx ==> f.tx.Idle?
    case Send(c, ms, end, v) => SendOk(q, x.clients[c].table, x.conns[Target(x, c)], ms, end, v)
    case Lose(c, n) => LossOk(x, c, n, q)
    case _ => true
  }

  ghost predicate SendOk(q: Concern, t: NameTable, conn: Conn, ms: seq<Request>, end: Request, v: Delivery)
    requires Fits(conn, Rename(t, ms).msgs, v)
  {
    var inj, qs := Injected(conn, v), Rename(t, ms).msgs;
    inj.ok ==>
      match q
      case Cleanliness => ClosesCount(t, ms, inj.session, inj.deployed, v.fs)
      case Bookkeeping(h) => (h in inj.deployed || ParsedFirst(Parses(qs), h)) && (end.Flush? ==> DescribeLast(qs))
  }

  // --- One connection ---

  lemma QueryAnswer(s: Session, q: Query, f: Fate)
    requires !s.skipping
    ensures var r := Serve(s, SimpleQuery(q), f);
      && r.session.prepared == s.prepared - {Unnamed} && !r.session.skipping
      && |r.replies| > 0 && NoReady(r.replies[..|r.replies| - 1])
      && r.replies[|r.replies| - 1] == Ready(r.session.tx)
      && (s.tx.Idle? && f.tx.Idle? ==> r.session.tx.Idle?)
  {
  }

  lemma HeldWithoutUnnamed(s: Session, t: Session)
    requires t.prepared == s.prepared - {Unnamed}
    ensures Held(t) == Held(s) && Private(t) == Private(s)
  {
    forall h ensures h in Held(s) <==> h in Held(t) { HeldIs(s, h); HeldIs(t, h); }
  }

  /** A simple query on a connection in the client's hands. */
  lemma QueryIsHeld(q: Concern, conn: Conn, query: Query, f: Fate, client: Client, job: Job)
    requires HeldOk(q, conn, client, false) && client.task == Working(job)
    requires job.kind.Plain? || (job.kind.Notice? && IdleOk(q, conn) && (q.Cleanliness? ==> f.tx.Idle?))
    ensures HeldOk(q, Query1(conn, query, f), client, true)
  {
    hide Serve, Held, Private, Length;
    var next := Query1(conn, query, f);
    if conn.session.skipping {
      DiscardedQuery(conn.session, query, f);
      assert next.unread == conn.unread;
      if q.Bookkeeping? { assert Length([], job.kind) > 0; }
    } else {
      QueryAnswer(conn.session, query, f);
      HeldWithoutUnnamed(conn.session, next.session);
      var rs := Serve(conn.session, SimpleQuery(query), f).replies;
      var front := conn.unread + rs[..|rs| - 1];
      assert next.unread == front + [Ready(next.session.tx)];
      assert next.unread[..|next.unread| - 1] == front;
      if q.Bookkeeping? {
        LengthAtEnd(front, Ready(next.session.tx), job.kind);
        assert next.unread[|next.unread|..] == [];
      }
    }
  }

  lemma DiscardedQuery(s: Session, query: Query, f: Fate)
    requires s.skipping
    ensures Serve(s, SimpleQuery(query), f) == Served(s, [])
  {
  }

  lemma AckedSomewhere(rs: seq<Reply>)
    ensures Acks(rs) > 0 <==> ParseComplete in rs
  {
    if rs != [] { AckedSomewhere(rs[..|rs| - 1]); }
  }

  lemma EndsInSync(s: Session, ms: seq<Request>, fs: seq<Fate>)
    requires |ms| == |fs| > 0 && ms[|ms| - 1].Sync?
    ensures var n := |ms| - 1;
      var inner := ServeAll(s, ms[..n], fs[..n]);
      var sync := Serve(inner.session, ms[n], fs[n]);
      ServeAll(s, ms, fs) == Served(sync.session, inner.replies + sync.replies)
  {
    hide Serve;
  }

  lemma {:induction false} AckedFrom(s: Session, ms: seq<Request>, fs: seq<Fate>)
    requires |ms| == |fs|
    ensures forall n :: n in Acked(s, ms, fs) ==> exists m :: m in ms && m.Parse? && m.stmt == n
    decreases |ms|
  {
    hide Serve, ServeAll;
    if ms != [] {
      var k := |ms| - 1;
      AckedFrom(s, ms[..k], fs[..k]);
      forall n | n in Acked(s, ms, fs) ensures exists m :: m in ms && m.Parse? && m.stmt == n {
        if n in Acked(s, ms[..k], fs[..k]) {
          var m :| m in ms[..k] && m.Parse? && m.stmt == n;
          assert m in ms;
        } else {
          assert ms[k] in ms;
        }
      }
    }
  }

  lemma {:induction false} OneShared(ns: seq<StmtName>, h: Hash)
    requires forall n :: n in ns ==> n == Shared(h)
    ensures SetOf(SharedOf(ns)) == if ns == [] then {} else {h}
  {
    if ns != [] {
      var k := |ns| - 1;
      assert forall n :: n in ns[..k] ==> n in ns;
      OneShared(ns[..k], h);
      assert ns == ns[..k] + [ns[k]] && ns[k] in ns;
      SharedSnoc(ns[..k], ns[k]);
    }
  }

  predicate KeepsPrivate(m: Request) { (m.Parse? || m.CloseStmt?) ==> !m.stmt.Named? }

  lemma {:induction false} PrivateRun(s: Session, ms: seq<Request>, fs: seq<Fate>)
    requires |ms| == |fs| && forall m :: m in ms ==> KeepsPrivate(m) && !m.SimpleQuery?
    ensures Private(ServeAll(s, ms, fs).session) == Private(s)
    decreases |ms|
  {
    if ms != [] {
      var k := |ms| - 1;
      PrivateRun(s, ms[..k], fs[..k]);
      hide ServeAll;
      assert KeepsPrivate(ms[k]) && !ms[k].SimpleQuery?;
    }
  }

  /** The cached path on any session: at most its own statement is new, and its replies end with the status. */
  lemma CachedBooks(s: Session, h: Hash, values: seq<string>, recorded: bool, fs: seq<Fate>)
    requires |fs| == |Messages(h, values, recorded)|
    ensures var r := ServeAll(s, Messages(h, values, recorded), fs);
      && Held(r.session) == Held(s) + (if ParseComplete in r.replies then {h} else {})
      && Private(r.session) == Private(s) && !r.session.skipping
      && r.replies != [] && NoReady(r.replies[..|r.replies| - 1]) && r.replies[|r.replies| - 1] == Ready(r.session.tx)
  {
    hide Serve, Acks, Held, Private, Acked, SharedOf;
    var ms := Messages(h, values, recorded);
    var n := |ms| - 1;
    var r, inner := ServeAll(s, ms, fs), ServeAll(s, ms[..n], fs[..n]);
    EndsInSync(s, ms, fs);
    assert Body(ms[..n]);
    NoReadyInside(s, ms[..n], fs[..n]);
    var last := Serve(inner.session, ms[n], fs[n]).replies;
    EndAnswers(inner.session, ms[n], fs[n]);
    assert r.replies[..|r.replies| - 1] == inner.replies + last[..|last| - 1];
    PrivateRun(s, ms, fs);
    HeldGrows(s, ms, fs);
    AcksCountAcked(s, ms, fs);
    AckedSomewhere(r.replies);
    AckedFrom(s, ms, fs);
    OneShared(Acked(s, ms, fs), h);
  }

  /** The cached path on a connection from the queue. */
  lemma CachedIsHeld(q: Concern, conn: Conn, query: Query, o: Outcome, client: Client)
    requires IdleOk(q, conn) && query.Dml? && client.task == Working(Job(Cached(HashOf(query.canonical)), [], false))
    ensures HeldOk(q, Cached1(conn, query, o), client, true)
  {
    hide ServeAll, Held, Private, Length, Messages, Fates, NoReady;
    var h := HashOf(query.canonical);
    var recorded := h in conn.deployed;
    FatesFit(h, query.inlined, o, recorded);
    CachedBooks(conn.session, h, query.inlined, recorded, Fates(o, recorded));
    var next := Cached1(conn, query, o);
    var rs := ServeAll(conn.session, Messages(h, query.inlined, recorded), Fates(o, recorded)).replies;
    assert next.unread == rs;
    if q.Bookkeeping? { ReadWhole(rs, Cached(h)); }
  }

  lemma ReadWhole(rs: seq<Reply>, kind: Kind)
    requires rs != [] && NoReady(rs[..|rs| - 1]) && rs[|rs| - 1].Ready? && !kind.Flushed?
    ensures Length(rs, kind) == |rs| && rs[..|rs|] == rs && rs[|rs|..] == []
  {
    var front := rs[..|rs| - 1];
    assert rs == front + [rs[|rs| - 1]];
    LengthAtEnd(front, rs[|rs| - 1], kind);
  }

  lemma FatesFit(h: Hash, values: seq<string>, o: Outcome, recorded: bool)
    ensures |Fates(o, recorded)| == |Messages(h, values, recorded)|
  {
  }

  /** A pipeline on a connection in the client's hands. */
  lemma PipelineIsHeld(q: Concern, conn: Conn, client: Client, ms: seq<Request>, end: Request, v: Delivery,
                       next: Client)
    requires HeldOk(q, conn, client, false) && ClientPipeline(ms) && (end.Sync? || end.Flush?)
    requires Fits(conn, Rename(client.table, ms).msgs, v) && Injected(conn, v).ok
    requires SendOk(q, client.table, conn, ms, end, v)
    requires next.table == Rename(client.table, ms).table && next.task.Working?
    requires next.task.job.kind == (if end.Sync? then Extended else Flushed)
    requires next.task.job.sent == Sent(Forward(Rename(client.table, ms).msgs, Injected(conn, v).deployed))
    ensures HeldOk(q, Deliver(conn, Rename(client.table, ms).msgs, end, v), next, true)
  {
    hide Rename, Forward, Sent, Deliver, Inject, Settles, Answered, NoReady, Private, ParsedFirst, Parses, ClosesCount,
      Length, Orders, DescribeLast;
    var t := client.table;
    var qs, inj := Rename(t, ms).msgs, Injected(conn, v);
    RenamedIsPipeline(t, ms);
    if q.Bookkeeping? {
      DeliverySettles(conn, qs, end, v, next.task.job, q.hash);
    } else {
      DeliveryAnswers(conn, qs, end, v);
      InjectKeepsPrivate(conn.session, conn.deployed, conn.unread, v.order, v.gs);
      PrivateAt(inj.session, t, ms, inj.deployed, v.fs, |ms|);
      assert ms[..|ms|] == ms;
      DeliveredPrivate(conn, qs, end, v);
    }
  }

  lemma DeliveredPrivate(conn: Conn, qs: seq<Request>, end: Request, v: Delivery)
    requires Fits(conn, qs, v) && (end.Sync? || end.Flush?)
    ensures var inj := Injected(conn, v);
      Private(Deliver(conn, qs, end, v).session) == Private(At(inj.session, qs, inj.deployed, v.fs, |qs|))
  {
    hide Inject, ServeAll, Forward;
    assert qs[..|qs|] == qs;
    assert v.fs[..|v.fs|] == v.fs;
  }

  // --- One step ---

  /** A step of client c with backend b, everything else being as it was. */
  lemma PutTends(x: Mux, y: Mux, c: Cid, b: Bid, q: Concern)
    requires Tended(x, q) && Owned(y)
    requires c in y.clients && y.clients == x.clients[c := y.clients[c]]
    requires b in y.conns && y.conns == x.conns[b := y.conns[b]]
    requires Holds(y.custody, c, b) || Idling(y.custody, b) || Closing(y.custody, b)
    requires forall d, a :: a != b && Holds(y.custody, d, a) ==>
               Holds(x.custody, d, a) && WorksOn(y.custody, d, a) == WorksOn(x.custody, d, a)
    requires forall a :: a != b && Idling(y.custody, a) ==> Idling(x.custody, a)
    requires forall a :: a != b && Holds(y.custody, c, a) ==>
               !WorksOn(y.custody, c, a) && x.clients[c].table.count <= y.clients[c].table.count
    requires Idling(y.custody, b) ==> IdleOk(q, y.conns[b])
    requires Holds(y.custody, c, b) ==> HeldOk(q, y.conns[b], y.clients[c], WorksOn(y.custody, c, b))
    ensures Tended(y, q)
  {
    hide Clean, Settles, Tells, NoReady, AtRest, Private, WorksOn, Holds, Idling, Closing, IdleOk;
    forall d, a | Holds(y.custody, d, a)
      ensures d in y.clients && a in y.conns && HeldOk(q, y.conns[a], y.clients[d], WorksOn(y.custody, d, a))
    {
      if a == b {
        assert d == c;
      } else {
        assert HeldOk(q, x.conns[a], x.clients[d], WorksOn(x.custody, d, a));
      }
    }
  }

  /** The backend a resting client gets. */
  lemma AcquiredIsFit(x: Mux, c: Cid, q: Concern)
    requires Tended(x, q) && CanAcquire(x, c) && Target(x, c) in x.conns
    ensures var conn := x.conns[Target(x, c)];
      HeldOk(q, conn, x.clients[c], false) && (!Pinned(x, c) ==> IdleOk(q, conn))
  {
    hide Private;
    assert TaskFits(x, c);
    var b := Target(x, c);
    if Pinned(x, c) {
      assert Holds(x.custody, c, b);
      assert !WorksOn(x.custody, c, b);
    } else {
      assert Idling(x.custody, b);
      IdleIsHeld(q, x.conns[b], x.clients[c]);
    }
  }

  lemma IdleIsHeld(q: Concern, conn: Conn, client: Client)
    requires IdleOk(q, conn)
    ensures HeldOk(q, conn, client, false)
  {
    if q.Cleanliness? { assert |Private(conn.session)| == 0; }
  }

  /** Acquiring changes nothing about the other backends and clients. */
  ghost predicate Elsewhere(k: Custody, n: Custody, c: Cid, b: Bid) {
    && (forall d, a :: a != b && Holds(n, d, a) ==> Holds(k, d, a) && WorksOn(n, d, a) == WorksOn(k, d, a))
    && (forall a :: a != b && Idling(n, a) ==> Idling(k, a))
    && (forall a :: a != b && Holds(n, c, a) ==> !WorksOn(n, c, a))
  }

  lemma AcquireElsewhere(x: Mux, c: Cid)
    requires Owned(x) && CanAcquire(x, c)
    ensures Elsewhere(x.custody, Acquire(x.custody, c), c, Target(x, c))
  {
    hide Exclusive;
    assert TaskFits(x, c);
    var k, n := x.custody, Acquire(x.custody, c);
    assert n.queue == k.queue || n.queue == k.queue[1..];
  }

  lemma ElsewhereTends(x: Mux, y: Mux, c: Cid, b: Bid, q: Concern)
    requires Tended(x, q) && Owned(y) && Elsewhere(x.custody, y.custody, c, b)
    requires c in y.clients && y.clients == x.clients[c := y.clients[c]]
    requires c in x.clients ==> x.clients[c].table.count <= y.clients[c].table.count
    requires b in y.conns && y.conns == x.conns[b := y.conns[b]]
    requires Holds(y.custody, c, b) || Idling(y.custody, b) || Closing(y.custody, b)
    requires Idling(y.custody, b) ==> IdleOk(q, y.conns[b])
    requires Holds(y.custody, c, b) ==> HeldOk(q, y.conns[b], y.clients[c], WorksOn(y.custody, c, b))
    ensures Tended(y, q)
  {
    hide Exclusive, Owned, IdleOk, HeldOk, Holds, Idling, Closing, WorksOn;
    PutTends(x, y, c, b, q);
  }

  lemma WorkerHolds(k: Custody, c: Cid, b: Bid)
    requires WorksOn(k, c, b)
    ensures Holds(k, c, b)
    ensures Exclusive(k) ==> !Idling(k, b) && !Closing(k, b)
  {
    assert Holds(k, c, b);
  }

  lemma BorrowElsewhere(x: Mux, c: Cid)
    requires Owned(x) && c in x.clients && x.clients[c].task.Resting? && x.custody.queue != []
    ensures Elsewhere(x.custody, Borrow(x.custody, c), c, x.custody.queue[0])
    ensures WorksOn(Borrow(x.custody, c), c, x.custody.queue[0])
  {
    hide Exclusive;
    assert TaskFits(x, c);
  }

  lemma AskTends(x: Mux, c: Cid, query: Query, f: Fate, o: Outcome, q: Concern)
    requires Tended(x, q) && CanAcquire(x, c) && Target(x, c) in x.conns
    ensures Tended(NextAsk(x, c, query, f, o), q)
  {
    hide Exclusive, IdleOk, HeldOk, Query1, Cached1, Holds, Idling, Closing;
    var b, y := Target(x, c), NextAsk(x, c, query, f, o);
    AcquiredIsFit(x, c, q);
    AcquireElsewhere(x, c);
    AskKeeps(x, c, query, f, o);
    if Pinned(x, c) || query.Other? {
      SameCount(q, x.conns[b], x.clients[c], y.clients[c]);
      QueryIsHeld(q, x.conns[b], query, f, y.clients[c], Job(Plain, [], Pinned(x, c)));
    } else {
      CachedIsHeld(q, x.conns[b], query, o, y.clients[c]);
    }
    WorkerHolds(y.custody, c, b);
    ElsewhereTends(x, y, c, b, q);
  }

  lemma SameCount(q: Concern, conn: Conn, a: Client, b: Client)
    requires HeldOk(q, conn, a, false) && a.table.count <= b.table.count
    ensures HeldOk(q, conn, b, false)
  {
  }

  lemma NotifyTends(x: Mux, c: Cid, text: string, f: Fate, q: Concern)
    requires Tended(x, q) && Enabled(x, Notify(c, text, f)) && !x.clients[c].inTx && (q.Cleanliness? ==> f.tx.Idle?)
    ensures Tended(NextNotify(x, c, text, f), q)
  {
    hide IdleOk, HeldOk, Query1, Exclusive, Holds, Closing, Elsewhere;
    var b, y := x.custody.queue[0], NextNotify(x, c, text, f);
    assert Idling(x.custody, b);
    IdleIsHeld(q, x.conns[b], y.clients[c]);
    QueryIsHeld(q, x.conns[b], Other(text), f, y.clients[c], Job(Notice, [], false));
    NotifyKeeps(x, c, text, f);
    BorrowElsewhere(x, c);
    WorkerHolds(y.custody, c, b);
    hide Idling;
    ElsewhereTends(x, y, c, b, q);
  }

  // --- Pipelines ---

  lemma SentOfRename(t: NameTable, ms: seq<Request>)
    requires ms != []
    ensures var k := |ms| - 1;
      var m := RenameOne(Rename(t, ms[..k]).table, ms[k]).msg;
      SetOf(Sent(Rename(t, ms).msgs)) ==
        SetOf(Sent(Rename(t, ms[..k]).msgs)) + if m.Parse? && m.stmt.Shared? then {m.stmt.hash} else {}
  {
    hide Sent, RenameOne;
    var k, qs := |ms| - 1, Rename(t, ms).msgs;
    assert qs[..k] == Rename(t, ms[..k]).msgs && qs[..k + 1] == qs;
    SentSnoc(qs, k);
  }

  lemma {:induction false} MappedIsKnown(t: NameTable, ms: seq<Request>, n: string)
    requires ClientPipeline(ms) && n in Rename(t, ms).table.names
    ensures var h := Rename(t, ms).table.names[n];
      (n in t.names && t.names[n] == h) || h in SetOf(Sent(Rename(t, ms).msgs))
  {
    hide Sent, SetOf;
    if ms != [] {
      var k := |ms| - 1;
      assert FromClient(ms[k]);
      assert ClientPipeline(ms[..k]);
      SentOfRename(t, ms);
      if n in Rename(t, ms[..k]).table.names { MappedIsKnown(t, ms[..k], n); }
    }
  }

  /** Everything that has to be deployed is in the registry: the lookup for a Bind never comes back empty. */
  lemma NeededIsRegistered(t: NameTable, ms: seq<Request>, d: set<Hash>, cache: set<Hash>)
    requires ClientPipeline(ms) && forall n :: n in t.names ==> t.names[n] in cache
    ensures Needed(Rename(t, ms).msgs, d) <= cache + SetOf(Sent(Rename(t, ms).msgs))
  {
    hide Rename, Sent;
    var qs := Rename(t, ms).msgs;
    forall h | h in Needed(qs, d) ensures h in cache + SetOf(Sent(qs)) {
      var i :| 0 <= i < |qs| && qs[i].Bind? && qs[i].stmt == Shared(h);
      RenamedAt(t, ms, i);
      var ti := Rename(t, ms[..i]).table;
      assert FromClient(ms[i]);
      assert ClientPipeline(ms[..i]);
      var n := ms[i].stmt.name;
      MappedIsKnown(t, ms[..i], n);
      SentPrefix(t, ms, i);
    }
  }

  lemma {:induction false} SentPrefix(t: NameTable, ms: seq<Request>, i: nat)
    requires i <= |ms|
    ensures SetOf(Sent(Rename(t, ms[..i]).msgs)) <= SetOf(Sent(Rename(t, ms).msgs))
  {
    hide Sent, Rename, SetOf;
    if i < |ms| {
      var k := |ms| - 1;
      assert ms[..k][..i] == ms[..i];
      SentPrefix(t, ms[..k], i);
      SentOfRename(t, ms);
    } else {
      assert ms[..i] == ms;
    }
  }

  lemma HoldElsewhere(x: Mux, c: Cid, pins: bool)
    requires Owned(x) && CanAcquire(x, c)
    ensures Elsewhere(x.custody, Hold(x, c, pins), c, Target(x, c))
    ensures WorksOn(Hold(x, c, pins), c, Target(x, c)) && Holds(Hold(x, c, pins), c, Target(x, c))
  {
    hide Exclusive;
    AcquireElsewhere(x, c);
    var k := Acquire(x.custody, c);
    assert WorksOn(k, c, Target(x, c));
  }

  /** A released backend goes to the target; nothing else moves. */
  lemma ReleaseElsewhere(k: Custody, c: Cid, b: Bid)
    requires Exclusive(k) && Holds(k, c, b) && (c in k.jobs ==> k.jobs[c] == b)
    ensures Elsewhere(k, Release(k, c, b), c, b)
    ensures Closing(Release(k, c, b), b) && !Idling(Release(k, c, b), b) && !Holds(Release(k, c, b), c, b)
  {
    ReleaseKeeps(k, c, b);
    OwnerIsHolder(k, c, b);
    hide Exclusive;
  }

  lemma ElsewhereTwice(k: Custody, n: Custody, m: Custody, c: Cid, b: Bid)
    requires Elsewhere(k, n, c, b) && Elsewhere(n, m, c, b)
    ensures Elsewhere(k, m, c, b)
  {
    hide Holds, WorksOn, Idling;
  }

  /** Nothing but b is held by c when it works on it outside a notice. */
  predicate HoldsOnly(k: Custody, c: Cid, b: Bid) {
    (c in k.pins ==> k.pins[c] == b) && (c in k.jobs ==> k.jobs[c] == b)
  }

  lemma SendTends(x: Mux, c: Cid, ms: seq<Request>, end: Request, v: Delivery, q: Concern)
    requires Tended(x, q) && Enabled(x, Send(c, ms, end, v)) && Behaves(x, Send(c, ms, end, v), q)
    ensures Tended(NextSend(x, c, ms, end, v), q)
  {
    hide Exclusive, Owned, Rename, Forward, Sent, Deliver, Inject, View, SetOf, Hold, Release, SendOk,
      IdleOk, HeldOk, Holds, Idling, Closing, Length, Elsewhere, Target, Fits, ClientPipeline;
    var b, cl, p, y := Target(x, c), x.clients[c], Rename(x.clients[c].table, ms), NextSend(x, c, ms, end, v);
    var k := Hold(x, c, p.pins);
    AcquiredIsFit(x, c, q);
    SendKeeps(x, c, ms, end, v);
    HoldElsewhere(x, c, p.pins);
    HoldKeeps(x, c, p.pins);
    HoldIsOnly(x, c, p.pins);
    if y.clients[c].task.Working? {
      PipelineIsHeld(q, x.conns[b], cl, ms, end, v, y.clients[c]);
      WorkerHolds(k, c, b);
      OnlyTends(x, y, c, b, q);
    } else {
      ReleaseElsewhere(k, c, b);
      ElsewhereTwice(x.custody, k, Release(k, c, b), c, b);
      ReleasedIsOnly(k, c, b);
      OnlyTends(x, y, c, b, q);
    }
  }

  lemma HoldIsOnly(x: Mux, c: Cid, pins: bool)
    requires Owned(x) && CanAcquire(x, c)
    ensures HoldsOnly(Hold(x, c, pins), c, Target(x, c))
  {
    hide Exclusive;
    HoldKeeps(x, c, pins);
  }

  lemma ReleasedIsOnly(k: Custody, c: Cid, b: Bid)
    requires HoldsOnly(k, c, b)
    ensures HoldsOnly(Release(k, c, b), c, b)
  {
  }

  lemma OnlyTends(x: Mux, y: Mux, c: Cid, b: Bid, q: Concern)
    requires Tended(x, q) && Owned(y) && Elsewhere(x.custody, y.custody, c, b) && HoldsOnly(y.custody, c, b)
    requires c in y.clients && y.clients == x.clients[c := y.clients[c]]
    requires b in y.conns && y.conns == x.conns[b := y.conns[b]]
    requires Holds(y.custody, c, b) || Idling(y.custody, b) || Closing(y.custody, b)
    requires Idling(y.custody, b) ==> IdleOk(q, y.conns[b])
    requires Holds(y.custody, c, b) ==> HeldOk(q, y.conns[b], y.clients[c], WorksOn(y.custody, c, b))
    ensures Tended(y, q)
  {
    hide Exclusive, Owned, IdleOk, HeldOk;
    assert forall a :: a != b ==> !Holds(y.custody, c, a);
    PutTends(x, y, c, b, q);
  }
}
