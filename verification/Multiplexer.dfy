/**
 The multiplexer as a step system: clients, connections, the pool and the target, and every step that moves a
 connection. Steps are atomic; the environment chooses which one comes next and how requests fare.
 */
module Multiplexer {
  import opened Sequences
  import opened Protocol
  import opened Naming
  import opened Deployment
  import opened Virtual
  import opened CachedQuery
  import opened Connection
  import opened Custody

  datatype Task = Resting | Working(job: Job)

  /** A client; view is the private namespace it believes in, serial its login number. */
  datatype Client = Client(table: NameTable, view: map<string, Query>, inTx: bool, task: Task, serial: nat, secret: int)

  /** cache is the target's statement registry, keys the cancel registry. */
  datatype Mux = Mux(custody: Custody, conns: map<Bid, Conn>, clients: map<Cid, Client>, cache: set<Hash>,
                     keys: map<int, Cid>, logins: nat)

  datatype Event =
    | Login(c: Cid, secret: int)
    | Connect(b: Bid)
    | Ask(c: Cid, query: Query, fate: Fate, outcome: Outcome)      // a simple query
    | Notify(c: Cid, text: string, fate: Fate)                     // a simple query that is a NOTIFY
    | Send(c: Cid, msgs: seq<Request>, end: Request, v: Delivery)  // a pipeline
    | Finish(c: Cid)                                               // its replies are read
    | Lose(c: Cid, read: nat)                                      // reading fails after some replies
    | Abort(c: Cid)                                                // writing fails, to either side
    | Leave(c: Cid)
    | MonitorLost(c: Cid)                                          // a channel of the client loses its monitor
    | TargetClose
    | TargetShrink
    | TargetEvict(stale: set<Bid>)

  function Start(capacity: nat): Mux {
    Mux(Custody({}, [], [], map[], map[], map[], {}, capacity), map[], map[], {}, map[], 0)
  }

  // --- Steps ---

  /** The int32 cancel process id of the n-th login. */
  function Pid(n: nat): int {
    var m := n % 0x1_0000_0000;
    if m < 0x8000_0000 then m else m - 0x1_0000_0000
  }

  function Pinned(x: Mux, c: Cid): bool { c in x.custody.pins }

  predicate CanAcquire(x: Mux, c: Cid) {
    c in x.clients && x.clients[c].task.Resting? && (Pinned(x, c) || x.custody.queue != [])
  }

  /** The backend a client's next message goes to. */
  function Target(x: Mux, c: Cid): Bid
    requires CanAcquire(x, c)
  {
    if Pinned(x, c) then x.custody.pins[c] else x.custody.queue[0]
  }

  function Acquire(k: Custody, c: Cid): Custody
    requires c in k.pins || k.queue != []
  {
    if c in k.pins then Resume(k, c) else Borrow(k, c)
  }

  function Put(x: Mux, k: Custody, c: Cid, client: Client, b: Bid, conn: Conn): Mux {
    x.(custody := k, clients := x.clients[c := client], conns := x.conns[b := conn])
  }

  function Query1(conn: Conn, q: Query, f: Fate): Conn {
    var r := Serve(conn.session, SimpleQuery(q), f);
    conn.(session := r.session, unread := conn.unread + r.replies)
  }

  function Cached1(conn: Conn, q: Query, o: Outcome): Conn
    requires q.Dml?
  {
    var h := HashOf(q.canonical);
    var r := ServeAll(conn.session, Messages(h, q.inlined, h in conn.deployed), Fates(o, h in conn.deployed));
    conn.(session := r.session, unread := conn.unread + r.replies)
  }

  /** executeQuery: on the pinned backend as it is; otherwise through the statement cache when it can be
      parameterized. */
  function NextAsk(x: Mux, c: Cid, q: Query, f: Fate, o: Outcome): Mux
    requires CanAcquire(x, c) && Target(x, c) in x.conns
  {
    var b := Target(x, c);
    var k := Acquire(x.custody, c);
    if Pinned(x, c) || q.Other? then
      Put(x, k, c, x.clients[c].(task := Working(Job(Plain, [], Pinned(x, c)))), b, Query1(x.conns[b], q, f))
    else
      var h := HashOf(q.canonical);
      Put(x, k, c, x.clients[c].(task := Working(Job(Cached(h), [], false))), b, Cached1(x.conns[b], q, o))
        .(cache := x.cache + {h})
  }

  /** handleNotify: outside a transaction on a backend of its own. */
  function NextNotify(x: Mux, c: Cid, text: string, f: Fate): Mux
    requires c in x.clients && x.clients[c].task.Resting? && x.custody.queue != [] && x.custody.queue[0] in x.conns
  {
    var b := x.custody.queue[0];
    Put(x, Borrow(x.custody, c), c, x.clients[c].(task := Working(Job(Notice, [], false))), b,
        Query1(x.conns[b], Other(text), f))
  }

  /** What a client's transaction flag becomes when its backend b is released. */
  function AfterRelease(k: Custody, c: Cid, b: Bid, client: Client): Client {
    client.(task := Resting, inTx := client.inTx && !(b in k.owner && k.owner[b] == c))
  }

  /** The backend for a pipeline, pinned when the pipeline asks for it. */
  function Hold(x: Mux, c: Cid, pins: bool): Custody
    requires CanAcquire(x, c)
  {
    var k := Acquire(x.custody, c);
    if pins && c !in k.pins then Pin(k, c, Target(x, c)) else k
  }

  /** executeExtendedPipeline up to the point where the replies are read. */
  function NextSend(x: Mux, c: Cid, ms: seq<Request>, end: Request, v: Delivery): Mux
    requires CanAcquire(x, c) && Target(x, c) in x.conns
    requires Fits(x.conns[Target(x, c)], Rename(x.clients[c].table, ms).msgs, v)
  {
    var b, p := Target(x, c), Rename(x.clients[c].table, ms);
    var conn := x.conns[b];
    var held := Hold(x, c, p.pins);
    var cache := x.cache + SetOf(Sent(p.msgs));
    var client := x.clients[c].(table := p.table, view := View(x.clients[c].view, ms));
    if SetOf(v.order) <= cache && Injected(conn, v).ok then
      var sent := Sent(Forward(p.msgs, Injected(conn, v).deployed));
      var kind := if end.Sync? then Extended else Flushed;
      Put(x, held, c, client.(task := Working(Job(kind, sent, c in held.pins))), b, Deliver(conn, p.msgs, end, v))
        .(cache := cache)
    else
      Put(x, Release(held, c, b), c, AfterRelease(held, c, b, client), b, conn).(cache := cache)
  }

  predicate Busy(x: Mux, c: Cid) {
    c in x.clients && x.clients[c].task.Working? && c in x.custody.jobs && x.custody.jobs[c] in x.conns
  }

  /** The replies are read to their end and the backend is kept, unpinned or returned. */
  function NextFinish(x: Mux, c: Cid): Mux
    requires Busy(x, c)
    requires var conn := x.conns[x.custody.jobs[c]]; Length(conn.unread, x.clients[c].task.job.kind) <= |conn.unread|
  {
    var b := x.custody.jobs[c];
    var conn, cl := x.conns[b], x.clients[c];
    var n := Length(conn.unread, cl.task.job.kind);
    var tx := Reported(conn, n);
    var named := cl.table.count > 0;
    var k :=
      match cl.task.job.kind
      case Flushed => KeepPinned(x.custody, c, b)
      case Notice => Return(x.custody, c, b)
      case _ => Reconcile(x.custody, c, b, Known(tx), cl.task.job.wasPinned, named);
    var inTx := if cl.task.job.kind.Flushed? || cl.task.job.kind.Notice? then cl.inTx else Flag(Known(tx));
    Put(x, k, c, cl.(task := Resting, inTx := inTx), b, Read(conn, cl.task.job, n))
  }

  /** A failed read: the extended and cached paths report success without a status, Flush reports success,
      the plain paths release the backend. */
  function NextLose(x: Mux, c: Cid, read: nat): Mux
    requires Busy(x, c) && read <= |x.conns[x.custody.jobs[c]].unread|
  {
    var b := x.custody.jobs[c];
    var conn, cl := x.conns[b], x.clients[c];
    var next := Read(conn, cl.task.job, read);
    match cl.task.job.kind
    case Flushed => Put(x, KeepPinned(x.custody, c, b), c, cl.(task := Resting), b, next)
    case Plain => Put(x, Release(x.custody, c, b), c, AfterRelease(x.custody, c, b, cl), b, next)
    case Notice => Put(x, Release(x.custody, c, b), c, AfterRelease(x.custody, c, b, cl), b, next)
    case _ =>
      Put(x, Reconcile(x.custody, c, b, Unread, cl.task.job.wasPinned, cl.table.count > 0), c,
          cl.(task := Resting, inTx := Flag(Unread)), b, next)
  }

  function NextAbort(x: Mux, c: Cid): Mux
    requires Busy(x, c)
  {
    var b := x.custody.jobs[c];
    Put(x, Release(x.custody, c, b), c, AfterRelease(x.custody, c, b, x.clients[c]), b, x.conns[b])
  }

  /** The disconnect cleanup of handleClient. */
  function NextLeave(x: Mux, c: Cid): Mux
    requires c in x.clients
  {
    var k := if Pinned(x, c) then Release(x.custody, c, x.custody.pins[c]) else x.custody;
    x.(custody := k, clients := x.clients - {c}, keys := x.keys - {Pid(x.clients[c].serial)})
  }

  /** failListen closes the client; what it was doing fails, and the disconnect cleanup finds no backend. */
  function NextMonitorLost(x: Mux, c: Cid): Mux
    requires c in x.clients
  {
    x.(custody := Drop(x.custody, c), clients := x.clients - {c}, keys := x.keys - {Pid(x.clients[c].serial)})
  }

  ghost predicate Enabled(x: Mux, e: Event) {
    match e
    case Login(c, _) => c !in x.clients
    case Connect(b) => b !in x.custody.all
    case Ask(c, _, _, _) => CanAcquire(x, c) && Target(x, c) in x.conns
    case Notify(c, _, _) =>
      CanAcquire(x, c) && Target(x, c) in x.conns
      && (!x.clients[c].inTx ==> x.custody.queue != [] && x.custody.queue[0] in x.conns)
    case Send(c, ms, end, v) =>
      && CanAcquire(x, c) && Target(x, c) in x.conns && (end.Sync? || end.Flush?) && ClientPipeline(ms)
      && Fits(x.conns[Target(x, c)], Rename(x.clients[c].table, ms).msgs, v)
    case Finish(c) =>
      Busy(x, c)
      && (var conn := x.conns[x.custody.jobs[c]]; Length(conn.unread, x.clients[c].task.job.kind) <= |conn.unread|)
    case Lose(c, n) => Busy(x, c) && n <= |x.conns[x.custody.jobs[c]].unread|
    case Abort(c) => Busy(x, c)
    case Leave(c) => c in x.clients && x.clients[c].task.Resting?
    case MonitorLost(c) => c in x.clients
    case TargetClose => x.custody.closing != []
    case TargetShrink => x.custody.queue != []
    case TargetEvict(_) => true
  }

  ghost function Next(x: Mux, e: Event): Mux
    requires Enabled(x, e)
  {
    match e
    case Login(c, secret) =>
      x.(clients := x.clients[c := Client(NameTable(map[], 0), map[], false, Resting, x.logins + 1, secret)],
         keys := x.keys[Pid(x.logins + 1) := c], logins := x.logins + 1)
    case Connect(b) =>
      var k := Open(x.custody, b);
      x.(custody := k, conns := if b in k.all then x.conns[b := NEW] else x.conns)
    case Ask(c, q, f, o) => NextAsk(x, c, q, f, o)
    case Notify(c, text, f) =>
      if x.clients[c].inTx then NextAsk(x, c, Other(text), f, Unparsable) else NextNotify(x, c, text, f)
    case Send(c, ms, end, v) => NextSend(x, c, ms, end, v)
    case Finish(c) => NextFinish(x, c)
    case Lose(c, n) => NextLose(x, c, n)
    case Abort(c) => NextAbort(x, c)
    case Leave(c) => NextLeave(x, c)
    case MonitorLost(c) => NextMonitorLost(x, c)
    case TargetClose => x.(custody := Close(x.custody), conns := x.conns - {x.custody.closing[0]})
    case TargetShrink => x.(custody := Shrink(x.custody), conns := x.conns - {x.custody.queue[0]})
    case TargetEvict(stale) =>
      var k := Evict(x.custody, stale);
      x.(custody := k, conns := map b | b in x.conns && b in k.all :: x.conns[b])
  }

  // --- Ownership ---

  ghost predicate TaskFits(x: Mux, c: Cid)
    requires c in x.clients
  {
    var cl := x.clients[c];
    && (cl.task.Working? <==> c in x.custody.jobs)
    && (cl.inTx ==> Pinned(x, c))
    && (cl.task.Working? ==>
          if cl.task.job.kind.Notice? then Pinned(x, c) ==> x.custody.pins[c] != x.custody.jobs[c]
          else cl.task.job.wasPinned == Pinned(x, c) && (Pinned(x, c) ==> x.custody.pins[c] == x.custody.jobs[c]))
  }

  /** Ownership: every connection in one place, and the pointers agree with what the clients are doing. */
  ghost predicate Owned(x: Mux) {
    && Exclusive(x.custody)
    && x.conns.Keys == x.custody.all
    && x.custody.pins.Keys <= x.clients.Keys
    && x.custody.jobs.Keys <= x.clients.Keys
    && (forall c :: c in x.clients ==> TaskFits(x, c))
  }

  /** The step that breaks ownership: a reply lost on the extended or cached path of a client that is pinned by named
      statements. */
  predicate LosesPinned(x: Mux, e: Event) {
    e.Lose? && e.c in x.clients && x.clients[e.c].task.Working? && Pinned(x, e.c) && x.clients[e.c].table.count > 0
    && (x.clients[e.c].task.job.kind.Extended? || x.clients[e.c].task.job.kind.Cached?)
  }

  /** The step that loses a connection: the monitor of a client that is pinned to a backend it is not working on. */
  predicate StrandsPin(x: Mux, e: Event) { e.MonitorLost? && LeavesPin(x.custody, e.c) }

  /** Ownership with nothing lost. */
  ghost predicate Intact(x: Mux) { Owned(x) && x.custody.lost == {} }

  lemma OthersFit(x: Mux, y: Mux, c: Cid)
    requires Owned(x)
    requires forall d :: d != c && d in y.clients ==> d in x.clients && y.clients[d] == x.clients[d]
    requires forall d :: d != c ==>
               (d in y.custody.pins <==> d in x.custody.pins) && (d in y.custody.jobs <==> d in x.custody.jobs)
    requires forall d :: d != c && d in x.custody.pins ==> y.custody.pins[d] == x.custody.pins[d]
    requires forall d :: d != c && d in x.custody.jobs ==> y.custody.jobs[d] == x.custody.jobs[d]
    ensures forall d :: d != c && d in y.clients ==> TaskFits(y, d)
  {
    forall d | d != c && d in y.clients ensures TaskFits(y, d) {
      assert TaskFits(x, d);
    }
  }

  lemma AcquireKeeps(x: Mux, c: Cid)
    requires Owned(x) && CanAcquire(x, c)
    ensures Exclusive(Acquire(x.custody, c)) && Acquire(x.custody, c).jobs == x.custody.jobs[c := Target(x, c)]
    ensures Target(x, c) in x.conns && Acquire(x.custody, c).all == x.custody.all
    ensures Acquire(x.custody, c).pins == x.custody.pins && Acquire(x.custody, c).owner == x.custody.owner
  {
    assert TaskFits(x, c);
    if Pinned(x, c) {
      ResumeKeeps(x.custody, c);
      assert Holds(x.custody, c, Target(x, c));
    } else {
      BorrowKeeps(x.custody, c);
      assert Idling(x.custody, Target(x, c));
    }
  }

  lemma AskKeeps(x: Mux, c: Cid, q: Query, f: Fate, o: Outcome)
    requires Owned(x) && CanAcquire(x, c) && Target(x, c) in x.conns
    ensures Owned(NextAsk(x, c, q, f, o))
  {
    hide Exclusive, Query1, Cached1;
    AcquireKeeps(x, c);
    assert TaskFits(x, c);
    OthersFit(x, NextAsk(x, c, q, f, o), c);
  }

  lemma HeadIsFree(k: Custody, c: Cid)
    requires Exclusive(k) && k.queue != []
    ensures k.queue[0] in k.all && (c in k.pins ==> k.pins[c] != k.queue[0])
  {
    assert Idling(k, k.queue[0]);
    if c in k.pins { assert Holds(k, c, k.pins[c]); }
  }

  lemma NotifyKeeps(x: Mux, c: Cid, text: string, f: Fate)
    requires Owned(x) && c in x.clients && x.clients[c].task.Resting?
    requires x.custody.queue != [] && x.custody.queue[0] in x.conns
    ensures Owned(NextNotify(x, c, text, f))
  {
    hide Query1, Exclusive;
    assert TaskFits(x, c);
    BorrowKeeps(x.custody, c);
    HeadIsFree(x.custody, c);
    OthersFit(x, NextNotify(x, c, text, f), c);
  }

  lemma ReleaseFits(x: Mux, k: Custody, c: Cid, client: Client, b: Bid, conn: Conn)
    requires Owned(x) && c in x.clients && Exclusive(k) && k.all == x.custody.all && b in x.conns
    requires c in k.jobs && k.jobs[c] == b
    requires k.pins.Keys <= x.clients.Keys && k.jobs.Keys <= x.clients.Keys && (client.inTx ==> c in k.pins)
    requires forall d :: d != c ==> (d in k.pins <==> d in x.custody.pins) && (d in k.jobs <==> d in x.custody.jobs)
    requires forall d :: d != c && d in x.custody.pins ==> k.pins[d] == x.custody.pins[d]
    requires forall d :: d != c && d in x.custody.jobs ==> k.jobs[d] == x.custody.jobs[d]
    ensures Owned(Put(x, Release(k, c, b), c, AfterRelease(k, c, b, client), b, conn))
  {
    assert Holds(k, c, b);
    ReleaseKeeps(k, c, b);
    OwnerIsHolder(k, c, b);
    OthersFit(x, Put(x, Release(k, c, b), c, AfterRelease(k, c, b, client), b, conn), c);
  }

  lemma HoldKeeps(x: Mux, c: Cid, pins: bool)
    requires Owned(x) && CanAcquire(x, c)
    ensures var k, b := Hold(x, c, pins), Target(x, c);
      && Exclusive(k) && k.all == x.custody.all && b in x.conns
      && k.jobs == x.custody.jobs[c := b]
      && k.pins == if pins || c in x.custody.pins then x.custody.pins[c := b] else x.custody.pins
  {
    hide Exclusive;
    AcquireKeeps(x, c);
    assert TaskFits(x, c);
    if pins && c !in x.custody.pins { PinKeeps(Acquire(x.custody, c), c, Target(x, c)); }
  }

  lemma SendKeeps(x: Mux, c: Cid, ms: seq<Request>, end: Request, v: Delivery)
    requires Owned(x) && CanAcquire(x, c) && Target(x, c) in x.conns
    requires Fits(x.conns[Target(x, c)], Rename(x.clients[c].table, ms).msgs, v)
    ensures Owned(NextSend(x, c, ms, end, v))
  {
    hide Exclusive, Rename, Forward, Sent, Deliver, Inject, View, SetOf, Hold, Release;
    assert TaskFits(x, c);
    var b, p := Target(x, c), Rename(x.clients[c].table, ms);
    var k, y := Hold(x, c, p.pins), NextSend(x, c, ms, end, v);
    HoldKeeps(x, c, p.pins);
    if y.clients[c].task.Working? {
      OthersFit(x, y, c);
    } else {
      var client := x.clients[c].(table := p.table, view := View(x.clients[c].view, ms));
      ReleaseFits(x, k, c, client, b, x.conns[b]);
      SameCustody(Put(x, Release(k, c, b), c, AfterRelease(k, c, b, client), b, x.conns[b]), y);
    }
  }

  lemma SameCustody(x: Mux, y: Mux)
    requires Owned(x) && y.custody == x.custody && y.clients == x.clients && y.conns == x.conns
    ensures Owned(y)
  {
    forall c | c in y.clients ensures TaskFits(y, c) { assert TaskFits(x, c); }
  }

  /** What reconcileConn does to the pointers, unless it loses a pinned backend. */
  lemma ReconcilePointers(k: Custody, c: Cid, b: Bid, status: Status, named: bool)
    requires c in k.pins ==> k.pins[c] == b
    requires !(status.Unread? && c in k.pins && named)
    ensures var n := Reconcile(k, c, b, status, c in k.pins, named);
      && n.all == k.all && n.jobs == k.jobs - {c}
      && n.pins == if status.Known? && (!status.tx.Idle? || named) then k.pins[c := b] else k.pins - {c}
  {
  }

  lemma ReconcileFits(x: Mux, c: Cid, status: Status, inTx: bool, conn: Conn)
    requires Owned(x) && Busy(x, c) && !x.clients[c].task.job.kind.Notice?
    requires !(status.Unread? && Pinned(x, c) && x.clients[c].table.count > 0)
    requires inTx ==> status.Known? && !status.tx.Idle?
    ensures var b, cl := x.custody.jobs[c], x.clients[c];
      Owned(Put(x, Reconcile(x.custody, c, b, status, cl.task.job.wasPinned, cl.table.count > 0), c,
                cl.(task := Resting, inTx := inTx), b, conn))
  {
    hide Exclusive, Reconcile;
    var b, cl := x.custody.jobs[c], x.clients[c];
    assert TaskFits(x, c);
    ReconcilePointers(x.custody, c, b, status, cl.table.count > 0);
    ReconcileKeepsIff(x.custody, c, b, status, cl.table.count > 0);
    var y := Put(x, Reconcile(x.custody, c, b, status, cl.task.job.wasPinned, cl.table.count > 0), c,
                 cl.(task := Resting, inTx := inTx), b, conn);
    OthersFit(x, y, c);
  }

  lemma KeepPinnedFits(x: Mux, c: Cid, conn: Conn)
    requires Owned(x) && Busy(x, c) && !x.clients[c].task.job.kind.Notice?
    ensures var b, cl := x.custody.jobs[c], x.clients[c];
      Owned(Put(x, KeepPinned(x.custody, c, b), c, cl.(task := Resting), b, conn))
  {
    hide Exclusive;
    var b, cl := x.custody.jobs[c], x.clients[c];
    assert TaskFits(x, c);
    KeepPinnedKeeps(x.custody, c, b);
    OthersFit(x, Put(x, KeepPinned(x.custody, c, b), c, cl.(task := Resting), b, conn), c);
  }

  lemma NoticeFits(x: Mux, c: Cid, conn: Conn)
    requires Owned(x) && Busy(x, c) && x.clients[c].task.job.kind.Notice?
    ensures var b, cl := x.custody.jobs[c], x.clients[c];
      Owned(Put(x, Return(x.custody, c, b), c, cl.(task := Resting), b, conn))
  {
    hide Exclusive;
    var b, cl := x.custody.jobs[c], x.clients[c];
    assert TaskFits(x, c);
    ReturnKeepsIff(x.custody, c, b);
    OthersFit(x, Put(x, Return(x.custody, c, b), c, cl.(task := Resting), b, conn), c);
  }

  lemma FinishKeeps(x: Mux, c: Cid)
    requires Owned(x) && Enabled(x, Finish(c))
    ensures Owned(NextFinish(x, c))
  {
    hide Exclusive, Owned, Length, Read, Reconcile, KeepPinned, Return;
    var conn, cl := x.conns[x.custody.jobs[c]], x.clients[c];
    var n := Length(conn.unread, cl.task.job.kind);
    var next := Read(conn, cl.task.job, n);
    if cl.task.job.kind.Flushed? {
      KeepPinnedFits(x, c, next);
    } else if cl.task.job.kind.Notice? {
      NoticeFits(x, c, next);
    } else {
      ReconcileFits(x, c, Known(Reported(conn, n)), !Reported(conn, n).Idle?, next);
    }
  }

  lemma JobReleases(x: Mux, c: Cid, conn: Conn)
    requires Owned(x) && Busy(x, c)
    ensures var b := x.custody.jobs[c];
      Owned(Put(x, Release(x.custody, c, b), c, AfterRelease(x.custody, c, b, x.clients[c]), b, conn))
  {
    assert TaskFits(x, c);
    ReleaseFits(x, x.custody, c, x.clients[c], x.custody.jobs[c], conn);
  }

  lemma LoseKeeps(x: Mux, c: Cid, n: nat)
    requires Owned(x) && Enabled(x, Lose(c, n)) && !LosesPinned(x, Lose(c, n))
    ensures Owned(NextLose(x, c, n))
  {
    hide Exclusive, Owned, Read, Reconcile, KeepPinned, Release;
    var conn, cl := x.conns[x.custody.jobs[c]], x.clients[c];
    var next := Read(conn, cl.task.job, n);
    if cl.task.job.kind.Flushed? {
      KeepPinnedFits(x, c, next);
    } else if cl.task.job.kind.Plain? || cl.task.job.kind.Notice? {
      JobReleases(x, c, next);
    } else {
      ReconcileFits(x, c, Unread, false, next);
    }
  }

  lemma LeaveKeeps(x: Mux, c: Cid)
    requires Owned(x) && Enabled(x, Leave(c))
    ensures Owned(NextLeave(x, c))
  {
    assert TaskFits(x, c);
    if Pinned(x, c) {
      assert Holds(x.custody, c, x.custody.pins[c]);
      ReleaseKeeps(x.custody, c, x.custody.pins[c]);
      OwnerIsHolder(x.custody, c, x.custody.pins[c]);
    }
    OthersFit(x, NextLeave(x, c), c);
  }

  /** The client is gone either way; whether its backend is, too, depends on what it was doing. */
  lemma MonitorLostKeeps(x: Mux, c: Cid)
    requires Owned(x) && c in x.clients
    ensures Owned(NextMonitorLost(x, c))
  {
    hide Exclusive;
    DropKeeps(x.custody, c);
    var k, n := x.custody, Drop(x.custody, c);
    forall d | d != c
      ensures (d in n.pins <==> d in k.pins) && (d in n.jobs
          <==> d in k.jobs) && (d in k.pins ==> n.pins[d] == k.pins[d])
    {
      DropLeavesOthers(k, c, d);
    }
    OthersFit(x, NextMonitorLost(x, c), c);
  }

  /** The clients and their pointers stay as they are. */
  lemma SamePointersFit(x: Mux, y: Mux)
    requires Owned(x) && Exclusive(y.custody) && y.conns.Keys == y.custody.all && y.clients == x.clients
    requires y.custody.pins == x.custody.pins && y.custody.jobs == x.custody.jobs
    ensures Owned(y)
  {
    hide Exclusive;
    forall c | c in y.clients ensures TaskFits(y, c) { assert TaskFits(x, c); }
  }

  lemma TargetKeeps(x: Mux, e: Event)
    requires Owned(x) && Enabled(x, e) && (e.Connect? || e.TargetClose? || e.TargetShrink? || e.TargetEvict?)
    ensures Owned(Next(x, e))
  {
    hide NextAsk, NextNotify, NextSend, NextFinish, NextLose, NextAbort, NextLeave, NextMonitorLost, TaskFits,
      Exclusive;
    if e.Connect? {
      OpenKeeps(x.custody, e.b);
    } else if e.TargetClose? {
      CloseKeeps(x.custody);
    } else if e.TargetShrink? {
      ShrinkKeeps(x.custody);
    } else {
      EvictKeeps(x.custody, e.stale);
      EvictTakesSome(x.custody, e.stale);
    }
    SamePointersFit(x, Next(x, e));
  }

  lemma EvictTakesSome(k: Custody, stale: set<Bid>)
    ensures Evict(k, stale).all <= k.all
  {
  }

  /** Every step but one keeps ownership. */
  lemma OwnedStep(x: Mux, e: Event)
    requires Owned(x) && Enabled(x, e) && !LosesPinned(x, e)
    ensures Owned(Next(x, e))
  {
    hide Owned, NextAsk, NextNotify, NextSend, NextFinish, NextLose, NextAbort, NextLeave,
      NextMonitorLost;
    if e.Login? {
      LoginKeeps(x, e);
    } else if e.Ask? {
      AskKeeps(x, e.c, e.query, e.fate, e.outcome);
    } else if e.Notify? {
      if x.clients[e.c].inTx {
        AskKeeps(x, e.c, Other(e.text), e.fate, Unparsable);
      } else {
        NotifyKeeps(x, e.c, e.text, e.fate);
      }
    } else if e.Send? {
      SendKeeps(x, e.c, e.msgs, e.end, e.v);
    } else if e.Finish? {
      FinishKeeps(x, e.c);
    } else if e.Lose? {
      LoseKeeps(x, e.c, e.read);
    } else if e.Abort? {
      AbortKeeps(x, e.c);
    } else if e.Leave? {
      LeaveKeeps(x, e.c);
    } else if e.MonitorLost? {
      MonitorLostKeeps(x, e.c);
    } else {
      TargetKeeps(x, e);
    }
  }

  lemma LoginKeeps(x: Mux, e: Event)
    requires Owned(x) && Enabled(x, e) && e.Login?
    ensures Owned(Next(x, e))
  {
    hide Exclusive;
    assert e.c !in x.custody.pins && e.c !in x.custody.jobs;
    OthersFit(x, Next(x, e), e.c);
  }

  lemma AbortKeeps(x: Mux, c: Cid)
    requires Owned(x) && Busy(x, c)
    ensures Owned(NextAbort(x, c))
  {
    JobReleases(x, c, x.conns[x.custody.jobs[c]]);
  }

  /** That one step puts a backend in the queue while its client still points to it. */
  lemma LosingPinnedBreaksOwnership(x: Mux, e: Event)
    requires Owned(x) && Enabled(x, e) && LosesPinned(x, e)
    ensures var y := Next(x, e);
      && !Exclusive(y.custody) && e.c in y.custody.pins
      && (y.custody.pins[e.c] in y.custody.queue || y.custody.pins[e.c] in y.custody.closing)
  {
    hide Exclusive, Read;
    assert TaskFits(x, e.c);
    ReconcileKeepsIff(x.custody, e.c, x.custody.jobs[e.c], Unread, true);
  }

  lemma MessagesKeepLost(x: Mux, e: Event)
    requires Enabled(x, e) && (e.Ask? || e.Notify? || e.Send?)
    ensures Next(x, e).custody.lost == x.custody.lost
  {
    hide Rename, Forward, Sent, Deliver, Inject, View, SetOf, Fits, Query1, Cached1;
  }

  lemma OtherStepsKeepLost(x: Mux, e: Event)
    requires Enabled(x, e) && !e.MonitorLost? && !e.Ask? && !e.Notify? && !e.Send?
    ensures Next(x, e).custody.lost == x.custody.lost
  {
    hide Read, Length;
  }

  /** Exactly two steps break the books: a reply lost on the extended or cached path of a client pinned by named
      statements, and a lost monitor of a client pinned to a backend it is not working on. */
  lemma StaysIntactIff(x: Mux, e: Event)
    requires Intact(x) && Enabled(x, e)
    ensures Intact(Next(x, e)) <==> !LosesPinned(x, e) && !StrandsPin(x, e)
  {
    hide Enabled, Next, Exclusive;
    if LosesPinned(x, e) {
      LosingPinnedBreaksOwnership(x, e);
    } else {
      OwnedStep(x, e);
      if e.MonitorLost? {
        LostByMonitor(x, e.c);
      } else if e.Ask? || e.Notify? || e.Send? {
        MessagesKeepLost(x, e);
      } else {
        OtherStepsKeepLost(x, e);
      }
    }
  }

  lemma LostByMonitor(x: Mux, c: Cid)
    requires Owned(x) && Enabled(x, MonitorLost(c))
    ensures Next(x, MonitorLost(c)).custody.lost
         == x.custody.lost + if LeavesPin(x.custody, c) then {x.custody.pins[c]} else {}
  {
    DropKeeps(x.custody, c);
  }

  /** The connection that such a lost monitor leaves behind is the pool's, idle nowhere, waiting nowhere, held by
      nobody. */
  lemma StrandedPinIsNowhere(x: Mux, e: Event)
    requires Owned(x) && Enabled(x, e) && StrandsPin(x, e)
    ensures var b, k := x.custody.pins[e.c], Next(x, e).custody;
      b in k.all && b !in k.queue && b !in k.closing && Holders(k, b) == {}
  {
    var b, k := x.custody.pins[e.c], Next(x, e).custody;
    DropKeeps(x.custody, e.c);
    assert Lost(k, b);
    assert !Idling(k, b) && !Closing(k, b);
    assert forall c :: !Holds(k, c, b);
  }
}
