/**
 Names over whole runs. What a hash means on the backends depends only on the texts that anybody parses under it; what
 a name means to a client depends only on that client; and every mapped hash is in the registry.
 */
module Namespaces {
  import opened Sequences
  import opened Protocol
  import opened Naming
  import opened Deployment
  import opened Virtual
  import opened CachedQuery
  import opened Connection
  import opened Custody
  import opened Multiplexer
  import opened Runs
  import opened Upkeep
  import opened Guarantees

  // --- What a hash means on the backends ---

  /** No backend holds anything but the canonical text under the hash. */
  ghost predicate MeansItsText(x: Mux, h: Hash) {
    forall b :: b in x.conns ==> FaithfulTo(x.conns[b].session, h)
  }

  /** The step parses no text with that hash under a name with extracted values. */
  predicate Honest(e: Event, h: Hash) { e.Send? ==> Truthful(e.msgs, h) }

  lemma QueryIsFaithful(conn: Conn, q: Query, f: Fate, h: Hash)
    requires FaithfulTo(conn.session, h)
    ensures FaithfulTo(Query1(conn, q, f).session, h)
  {
    FaithfulIff(conn.session, SimpleQuery(q), f, h);
  }

  lemma CachedIsFaithful(conn: Conn, q: Query, o: Outcome, h: Hash)
    requires FaithfulTo(conn.session, h) && q.Dml?
    ensures FaithfulTo(Cached1(conn, q, o).session, h)
  {
    hide FaithfulTo;
    var g, recorded := HashOf(q.canonical), HashOf(q.canonical) in conn.deployed;
    assert CanonicalOnly(Messages(g, q.inlined, recorded), h);
    FatesFit(g, q.inlined, o, recorded);
    hide Messages, Fates;
    FaithfulRun(conn.session, Messages(g, q.inlined, recorded), Fates(o, recorded), h);
  }

  lemma DeliveryIsFaithful(conn: Conn, t: NameTable, ms: seq<Request>, end: Request, v: Delivery, h: Hash)
    requires FaithfulTo(conn.session, h) && ClientPipeline(ms) && Truthful(ms, h) && (end.Sync? || end.Flush?)
    requires Fits(conn, Rename(t, ms).msgs, v)
    ensures FaithfulTo(Deliver(conn, Rename(t, ms).msgs, end, v).session, h)
  {
    hide FaithfulTo, Inject, Forward, Rename, Orders;
    var qs, inj := Rename(t, ms).msgs, Injected(conn, v);
    RenamedIsCanonical(t, ms, h);
    InjectIsFaithful(conn.session, conn.deployed, conn.unread, v.order, v.gs, h);
    ForwardSelects(qs, inj.deployed);
    FaithfulRun(inj.session, Forward(qs, inj.deployed), v.fs, h);
    FaithfulIff(ServeAll(inj.session, Forward(qs, inj.deployed), v.fs).session, end, v.last, h);
  }

  lemma HonestSend(x: Mux, c: Cid, ms: seq<Request>, end: Request, v: Delivery, h: Hash)
    requires MeansItsText(x, h) && Enabled(x, Send(c, ms, end, v)) && Truthful(ms, h)
    ensures MeansItsText(NextSend(x, c, ms, end, v), h)
  {
    hide FaithfulTo, Inject, Forward, Rename, View, Hold, Release, Fits, Truthful, ClientPipeline;
    DeliveryIsFaithful(x.conns[Target(x, c)], x.clients[c].table, ms, end, v, h);
    hide Deliver;
  }

  lemma HonestAsk(x: Mux, c: Cid, q: Query, f: Fate, o: Outcome, h: Hash)
    requires MeansItsText(x, h) && CanAcquire(x, c) && Target(x, c) in x.conns
    ensures MeansItsText(NextAsk(x, c, q, f, o), h)
  {
    hide FaithfulTo, Query1, Cached1, Acquire;
    QueryIsFaithful(x.conns[Target(x, c)], q, f, h);
    if q.Dml? { CachedIsFaithful(x.conns[Target(x, c)], q, o, h); }
  }

  lemma HonestNotify(x: Mux, c: Cid, text: string, f: Fate, h: Hash)
    requires MeansItsText(x, h) && Enabled(x, Notify(c, text, f)) && !x.clients[c].inTx
    ensures MeansItsText(NextNotify(x, c, text, f), h)
  {
    hide FaithfulTo, Query1, Borrow;
    QueryIsFaithful(x.conns[x.custody.queue[0]], Other(text), f, h);
  }

  lemma HonestReply(x: Mux, e: Event, h: Hash)
    requires MeansItsText(x, h) && Enabled(x, e) && (e.Finish? || e.Lose? || e.Abort?)
    ensures MeansItsText(Next(x, e), h)
  {
    hide FaithfulTo, Reconcile, KeepPinned, Return, Release, Length, Record;
  }

  lemma HonestStep(x: Mux, e: Event, h: Hash)
    requires MeansItsText(x, h) && Enabled(x, e) && Honest(e, h)
    ensures MeansItsText(Next(x, e), h)
  {
    hide NextAsk, NextNotify, NextSend, NextFinish, NextLose, NextAbort, Truthful, Rename, Fits;
    if e.Ask? {
      HonestAsk(x, e.c, e.query, e.fate, e.outcome, h);
    } else if e.Notify? {
      if x.clients[e.c].inTx {
        HonestAsk(x, e.c, Other(e.text), e.fate, Unparsable, h);
      } else {
        HonestNotify(x, e.c, e.text, e.fate, h);
      }
    } else if e.Send? {
      HonestSend(x, e.c, e.msgs, e.end, e.v, h);
    } else if e.Finish? || e.Lose? || e.Abort? {
      HonestReply(x, e, h);
    }
  }

  ghost predicate HonestThroughout(es: seq<Event>, h: Hash) { forall e :: e in es ==> Honest(e, h) }

  /** On every backend a shared statement is the text of its name, as long as nobody parses a text with that hash, under
      a name, with extracted values; whatever else anybody does. */
  lemma {:induction false} StatementIsItsName(x: Mux, es: seq<Event>, h: Hash)
    requires MeansItsText(x, h) && HonestThroughout(es, h)
    ensures MeansItsText(Run(x, es), h)
  {
    hide Enabled, Next, MeansItsText, Honest;
    if es != [] {
      var n := |es| - 1;
      StatementIsItsName(x, es[..n], h);
      if Enabled(Run(x, es[..n]), es[n]) { HonestStep(Run(x, es[..n]), es[n], h); }
    }
  }

  // --- What a name means to a client ---

  ghost predicate NameIsTrue(x: Mux, c: Cid, n: string, h: Hash) {
    c in x.clients ==> NameFits(x.clients[c].table, x.clients[c].view, n, h)
  }

  /** The client's own step keeps its name true. */
  ghost predicate KeepsNameBy(x: Mux, e: Event, c: Cid, n: string, h: Hash) {
    e.Send? && e.c == c && c in x.clients ==> KeepsName(x.clients[c].table, e.msgs, n, h)
  }

  lemma NameStep(x: Mux, e: Event, c: Cid, n: string, h: Hash)
    requires NameIsTrue(x, c, n, h) && Enabled(x, e) && KeepsNameBy(x, e, c, n, h)
    ensures NameIsTrue(Next(x, e), c, n, h)
  {
    if e.Send? {
      NameSend(x, e.c, e.msgs, e.end, e.v, c, n, h);
    } else if e.Ask? || e.Notify? {
      hide Query1, Cached1, NameFits, Acquire, Borrow;
    } else if e.Finish? || e.Lose? || e.Abort? {
      hide Reconcile, KeepPinned, Return, Release, Length, Read, NameFits;
    }
  }

  lemma NameSend(x: Mux, d: Cid, ms: seq<Request>, end: Request, v: Delivery, c: Cid, n: string, h: Hash)
    requires NameIsTrue(x, c, n, h) && Enabled(x, Send(d, ms, end, v))
    requires d == c ==> KeepsName(x.clients[c].table, ms, n, h)
    ensures NameIsTrue(NextSend(x, d, ms, end, v), c, n, h)
  {
    hide Rename, View, NameFits, KeepsName, Hold, Release, Deliver, Injected, Fits;
    if d == c && c in x.clients { NameStaysTrue(x.clients[c].table, x.clients[c].view, ms, n, h); }
  }

  ghost predicate KeepsNameThroughout(x: Mux, es: seq<Event>, c: Cid, n: string, h: Hash) {
    forall i :: 0 <= i < |es| ==> KeepsNameBy(Run(x, es[..i]), es[i], c, n, h)
  }

  lemma {:induction false} NameStaysTrueThroughout(x: Mux, es: seq<Event>, c: Cid, n: string, h: Hash)
    requires NameIsTrue(x, c, n, h) && KeepsNameThroughout(x, es, c, n, h)
    ensures NameIsTrue(Run(x, es), c, n, h)
  {
    hide Enabled, Next, NameIsTrue, KeepsNameBy;
    if es != [] {
      var k := |es| - 1;
      forall i | 0 <= i < k ensures KeepsNameBy(Run(x, es[..k][..i]), es[..k][i], c, n, h) {
        assert es[..k][..i] == es[..i];
      }
      NameStaysTrueThroughout(x, es[..k], c, n, h);
      if Enabled(Run(x, es[..k]), es[k]) { NameStep(Run(x, es[..k]), es[k], c, n, h); }
    }
  }

  // --- The registry ---

  predicate Registered(t: NameTable, cache: set<Hash>) { forall n :: n in t.names ==> t.names[n] in cache }

  ghost predicate AllRegistered(x: Mux) { forall c :: c in x.clients ==> Registered(x.clients[c].table, x.cache) }

  lemma RegisteredStep(x: Mux, e: Event)
    requires AllRegistered(x) && Enabled(x, e)
    ensures AllRegistered(Next(x, e))
  {
    if e.Send? {
      RegisteredSend(x, e.c, e.msgs, e.end, e.v);
    } else if e.Ask? || e.Notify? {
      hide Query1, Cached1, Acquire, Borrow;
    } else if e.Finish? || e.Lose? || e.Abort? {
      hide Reconcile, KeepPinned, Return, Release, Length, Read;
    }
  }

  lemma RegisteredSend(x: Mux, c: Cid, ms: seq<Request>, end: Request, v: Delivery)
    requires AllRegistered(x) && Enabled(x, Send(c, ms, end, v))
    ensures AllRegistered(NextSend(x, c, ms, end, v))
  {
    hide Rename, View, Hold, Release, Deliver, Injected, Fits, Sent, ClientPipeline;
    var t := x.clients[c].table;
    var p := Rename(t, ms);
    assert Registered(t, x.cache);
    forall n | n in p.table.names ensures p.table.names[n] in x.cache + SetOf(Sent(p.msgs)) {
      MappedIsKnown(t, ms, n);
    }
  }

  lemma {:induction false} RegisteredRun(x: Mux, es: seq<Event>)
    requires AllRegistered(x)
    ensures AllRegistered(Run(x, es))
  {
    hide Enabled, Next, AllRegistered;
    if es != [] {
      var n := |es| - 1;
      RegisteredRun(x, es[..n]);
      if Enabled(Run(x, es[..n]), es[n]) { RegisteredStep(Run(x, es[..n]), es[n]); }
    }
  }

  /** Over every run, the registry lookup for a statement that has to be deployed never comes back empty. */
  lemma RegistryIsComplete(capacity: nat, es: seq<Event>, c: Cid, ms: seq<Request>, end: Request, v: Delivery)
    requires Enabled(Run(Start(capacity), es), Send(c, ms, end, v))
    ensures var x := Run(Start(capacity), es);
      SetOf(v.order) <= x.cache + SetOf(Sent(Rename(x.clients[c].table, ms).msgs))
  {
    hide Run, Rename, Sent, Needed, Injected, Distinct;
    RegisteredRun(Start(capacity), es);
    var x := Run(Start(capacity), es);
    assert Registered(x.clients[c].table, x.cache);
    NeededIsRegistered(x.clients[c].table, ms, x.conns[Target(x, c)].deployed, x.cache);
  }

  /** Over every run a pipeline is refused exactly when a deployment fails, and then its backend is left to be closed.
      Otherwise its messages are delivered, renamed, and the client waits for the replies. */
  lemma SentUnlessRefused(capacity: nat, es: seq<Event>, c: Cid, ms: seq<Request>, end: Request, v: Delivery)
    requires Enabled(Run(Start(capacity), es), Send(c, ms, end, v))
    ensures var x := Run(Start(capacity), es);
      var b, y := Target(x, c), NextSend(x, c, ms, end, v);
      if Injected(x.conns[b], v).ok then
        && y.conns[b] == Deliver(x.conns[b], Rename(x.clients[c].table, ms).msgs, end, v)
        && y.clients[c].task.Working? && y.clients[c].task.job.kind == (if end.Sync? then Extended else Flushed)
      else
        y.clients[c].task.Resting? && b in y.custody.closing
  {
    hide Run, Rename, Sent, Needed, Injected, Distinct, Deliver, View, Hold, Fits;
    RegistryIsComplete(capacity, es, c, ms, end, v);
  }

  // --- Queries ---

  /** A query of a pinned client, or one that cannot be parameterized, is answered by its backend as it is. */
  lemma PlainAskAnswers(x: Mux, c: Cid, q: Query, f: Fate, o: Outcome)
    requires Enabled(x, Ask(c, q, f, o)) && (Pinned(x, c) || q.Other?)
    ensures var b, y := Target(x, c), NextAsk(x, c, q, f, o);
      y.conns[b].unread == x.conns[b].unread + Serve(x.conns[b].session, SimpleQuery(q), f).replies
  {
    hide Serve;
  }

  /** The statement cache over whole runs: on whatever connection the queue gives, after whatever anybody did, a
      parameterizable query has the answer of the plain query on that session exactly when no commit is refused. */
  lemma CachedAskAnswers(capacity: nat, es: seq<Event>, c: Cid, q: Query, f: Fate, o: Outcome)
    requires q.Dml? && BehavesThroughout(Start(capacity), es, Cleanliness)
    requires var h := HashOf(q.canonical);
      BehavesThroughout(Start(capacity), es, Bookkeeping(h)) && HonestThroughout(es, h)
    requires Enabled(Run(Start(capacity), es), Ask(c, q, f, o)) && !Pinned(Run(Start(capacity), es), c)
    ensures var x := Run(Start(capacity), es);
      var b, y := Target(x, c), NextAsk(x, c, q, f, o);
      Translated(y.conns[b].unread) == Serve(x.conns[b].session, SimpleQuery(q), QueryFate(o)).replies
      <==> !CommitFails(o)
  {
    hide Run, Serve, ServeAll, Translated, FaithfulTo, Held, Messages, Fates, QueryFate, BehavesThroughout,
      HonestThroughout;
    var x, h := Run(Start(capacity), es), HashOf(q.canonical);
    StartIsTended(capacity, Bookkeeping(h));
    TendedRun(Start(capacity), es, Bookkeeping(h));
    AcquiredIsFit(x, c, Bookkeeping(h));
    QueueIsClean(capacity, es, Target(x, c));
    StatementIsItsName(Start(capacity), es, h);
    var conn := x.conns[Target(x, c)];
    assert FaithfulTo(conn.session, h);
    CachedRefinesPlain(conn.session, q.canonical, q.inlined, o);
    FatesFit(h, q.inlined, o, h in conn.deployed);
    var rs := ServeAll(conn.session, Messages(h, q.inlined, h in conn.deployed), Fates(o, h in conn.deployed)).replies;
    assert [] + rs == rs;
    assert q == Dml(q.canonical, q.inlined);
  }

  // --- Private namespaces ---

  /** Namespace virtualization over whole runs: on whatever backend the pipeline runs, after whatever the other clients
      did, a Bind or a Describe of a mapped name that is reached and acceptable is served by the text of the client's
      latest Parse of that name, and fails exactly when its statement is missing. It takes a record that is right about
      that one hash, no extracted values under it, and the client's own care for that one name. */
  lemma NamesArePrivate(capacity: nat, es: seq<Event>, c: Cid, ms: seq<Request>, end: Request, v: Delivery, i: nat,
                        f: Fate, n: string, h: Hash)
    requires BehavesThroughout(Start(capacity), es, Bookkeeping(h))
    requires HonestThroughout(es, h) && KeepsNameThroughout(Start(capacity), es, c, n, h)
    requires Enabled(Run(Start(capacity), es), Send(c, ms, end, v))
    requires var x := Run(Start(capacity), es);
      var t := x.clients[c].table;
      && Injected(x.conns[Target(x, c)], v).ok
      && Truthful(ms, h) && KeepsName(t, ms, n, h)
      && i < |ms| && NamesStatement(ms[i]) && ms[i].stmt == Named(n)
      && n in Rename(t, ms[..i]).table.names && Rename(t, ms[..i]).table.names[n] == h
    ensures var x := Run(Start(capacity), es);
      var conn, qs := x.conns[Target(x, c)], Rename(x.clients[c].table, ms).msgs;
      var vi, inj := View(x.clients[c].view, ms[..i]), Injected(conn, v);
      var st := At(inj.session, qs, inj.deployed, v.fs, i);
      && n in vi
      && (!st.skipping && f.ok ==>
            if Missing(qs, conn.deployed, conn.session.skipping, v.order, i, h) then Serve(st, qs[i], f).replies == [Error]
            else Serves(st, ms[i], qs[i], f, vi[n]))
  {
    hide Run, Rename, Sent, FaithfulTo, Inject, Needed, KeepsName, View, At, NameFits, Missing, Truthful,
      ClientPipeline, Distinct, Serves, Serve;
    StartIsTended(capacity, Bookkeeping(h));
    TendedRun(Start(capacity), es, Bookkeeping(h));
    StatementIsItsName(Start(capacity), es, h);
    NameStaysTrueThroughout(Start(capacity), es, c, n, h);
    var x := Run(Start(capacity), es);
    AcquiredIsFit(x, c, Bookkeeping(h));
    var cl, conn := x.clients[c], x.conns[Target(x, c)];
    NameLeadsToLatestParse(cl.table, cl.view, ms, conn.session, conn.deployed, conn.unread, v.order, v.gs, v.fs, i, f);
    var inj := Injected(conn, v);
    var st := At(inj.session, Rename(cl.table, ms).msgs, inj.deployed, v.fs, i);
    if !st.skipping && f.ok && Shared(h) in st.prepared {
      PresentServes(st, ms[i], h, f, st.prepared[Shared(h)]);
    }
  }
}
