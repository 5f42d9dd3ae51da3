/**
 The objects and loops of the multiplexer: clients, backends and a pool updated in place, each method tied to
 the specification of modules Naming, Deployment, Virtual, Connection and Custody.
 */
module Engine {
  import opened Sequences
  import opened Protocol
  import opened Naming
  import opened Deployment
  import opened Virtual
  import opened CachedQuery
  import opened Connection
  import opened Custody

  class Pool {
    const capacity: nat
    var queue: seq<Backend>
    var closing: seq<Backend>

    constructor (capacity: nat)
      ensures this.capacity == capacity && queue == [] && closing == []
    {
      this.capacity := capacity;
      queue, closing := [], [];
    }
  }

  /** A connection: the session at its far end, the replies on the wire and the pooler's record. */
  class Backend {
    const id: Bid
    const pool: Pool
    var client: Client?
    var deployed: set<Hash>
    var unread: seq<Reply>
    var session: Session

    constructor (id: Bid, pool: Pool)
      ensures this.id == id && this.pool == pool && client == null && State() == NEW
    {
      this.id, this.pool, client := id, pool, null;
      deployed, unread, session := {}, [], FRESH;
    }

    function State(): Conn
      reads this
    {
      Conn(session, unread, deployed)
    }

    predicate HasStmt(h: Hash)
      reads this
    {
      h in deployed
    }

    method MarkStmt(h: Hash)
      modifies this`deployed
      ensures deployed == old(deployed) + {h}
    {
      deployed := deployed + {h};
    }

    /** The far end serves the request and its replies go on the wire. */
    method WriteMessage(m: Request, f: Fate)
      modifies this`unread, this`session
      ensures session == Serve(old(session), m, f).session
      ensures unread == old(unread) + Serve(old(session), m, f).replies
    {
      var r := Serve(session, m, f);
      session, unread := r.session, unread + r.replies;
    }

    method ReadMessage() returns (r: Reply)
      requires unread != []
      modifies this`unread
      ensures r == old(unread)[0] && unread == old(unread)[1..]
    {
      r, unread := unread[0], unread[1..];
    }
  }

  class Client {
    const id: Cid
    var backend: Backend?
    var activeBackend: Backend?
    var stmtNameMap: map<string, Hash>
    var namedStmts: nat
    var inTransaction: bool
    var out: seq<Reply>

    constructor (id: Cid)
      ensures this.id == id && backend == null && activeBackend == null && Table() == NameTable(map[], 0)
      ensures !inTransaction && out == []
    {
      this.id, backend, activeBackend := id, null, null;
      stmtNameMap, namedStmts, inTransaction, out := map[], 0, false, [];
    }

    function Table(): NameTable
      reads this
    {
      NameTable(stmtNameMap, namedStmts)
    }

    method AddNamedStatement()
      modifies this`namedStmts
      ensures namedStmts == old(namedStmts) + 1
    {
      namedStmts := namedStmts + 1;
    }

    method RemoveNamedStatement()
      modifies this`namedStmts
      ensures namedStmts == Less(old(namedStmts))
    {
      if namedStmts > 0 { namedStmts := namedStmts - 1; }
    }

    method MapStmtName(name: string, h: Hash)
      modifies this`stmtNameMap
      ensures stmtNameMap == old(stmtNameMap)[name := h]
    {
      stmtNameMap := stmtNameMap[name := h];
    }

    method UnmapStmtName(name: string)
      modifies this`stmtNameMap
      ensures stmtNameMap == old(stmtNameMap) - {name}
    {
      stmtNameMap := stmtNameMap - {name};
    }

    /** Phase 1 for one message: the rewritten message, and whether it asks for a pin. */
    method RewriteMessage(m: Request) returns (q: Request, pins: bool)
      modifies this`stmtNameMap, this`namedStmts
      ensures Renamed(Table(), q, pins) == RenameOne(old(Table()), m)
    {
      q, pins := m, false;
      if m.Parse? {
        if !m.stmt.Named? {
          pins := true;
        } else if m.query.Dml? {
          MapStmtName(m.stmt.name, HashOf(m.query.canonical));
          q := Parse(Shared(HashOf(m.query.canonical)), m.query);
        } else {
          pins := true;
          AddNamedStatement();
        }
      } else if m.Bind? && m.stmt.Named? {
        if m.stmt.name in stmtNameMap { q := Bind(m.portal, Shared(stmtNameMap[m.stmt.name]), m.args); }
      } else if m.DescribeStmt? && m.stmt.Named? {
        if m.stmt.name in stmtNameMap { q := DescribeStmt(Shared(stmtNameMap[m.stmt.name])); }
      } else if m.CloseStmt? && m.stmt.Named? {
        if m.stmt.name in stmtNameMap {
          q := CloseStmt(Unnamed);
          UnmapStmtName(m.stmt.name);
        } else {
          RemoveNamedStatement();
        }
      }
    }

    /** Phase 1: the pipeline is rewritten in place, message by message. */
    method RewritePipeline(pipeline: array<Request>) returns (requiresPin: bool, bound: set<Hash>)
      modifies this`stmtNameMap, this`namedStmts, pipeline
      ensures Pipeline(Table(), pipeline[..], requiresPin) == Rename(old(Table()), old(pipeline[..]))
      ensures bound == BoundShared(pipeline[..])
    {
      ghost var was, t := pipeline[..], Table();
      requiresPin, bound := false, {};
      var i := 0;
      assert was[..0] == [] && pipeline[..0] == [];
      assert Rename(t, []) == Pipeline(t, [], false) && BoundShared([]) == {};
      hide Rename, RenameOne, BoundShared;
      while i < pipeline.Length
        invariant 0 <= i <= pipeline.Length
        invariant Pipeline(Table(), pipeline[..i], requiresPin) == Rename(t, was[..i])
        invariant pipeline[i..] == was[i..]
        invariant bound == BoundShared(pipeline[..i])
      {
        ghost var before := pipeline[..i];
        assert pipeline[i] == pipeline[i..][0] == was[i];
        RenameNext(t, was, i);
        var q, pins := RewriteMessage(pipeline[i]);
        pipeline[i] := q;
        requiresPin := requiresPin || pins;
        bound := bound + BoundBy(q);
        assert pipeline[..i + 1] == before + [q];
        assert pipeline[i + 1..] == was[i + 1..] by { assert was[i + 1..] == was[i..][1..]; }
        BoundSnoc(before, q);
        i := i + 1;
      }
      assert was[..i] == was && pipeline[..i] == pipeline[..];
    }
  }

  function BoundBy(m: Request): set<Hash> { if m.Bind? && m.stmt.Shared? then {m.stmt.hash} else {} }

  lemma RenameNext(t: NameTable, ms: seq<Request>, i: nat)
    requires i < |ms|
    ensures var a := Rename(t, ms[..i]);
      var b := RenameOne(a.table, ms[i]);
      Rename(t, ms[..i + 1]) == Pipeline(b.table, a.msgs + [b.msg], a.pins || b.pins)
  {
    assert ms[..i + 1][..i] == ms[..i];
  }

  lemma BoundSnoc(ms: seq<Request>, m: Request)
    ensures BoundShared(ms + [m]) == BoundShared(ms) + BoundBy(m)
  {
    forall h ensures h in BoundShared(ms + [m]) <==> h in BoundShared(ms) || (m.Bind? && m.stmt == Shared(h)) {
      if h in BoundShared(ms + [m]) {
        var x :| x in ms + [m] && x.Bind? && x.stmt.Shared? && x.stmt.hash == h;
        assert x in ms || x == m;
      }
      if h in BoundShared(ms) {
        var x :| x in ms && x.Bind? && x.stmt.Shared? && x.stmt.hash == h;
        assert x in ms + [m];
      }
      if m.Bind? && m.stmt == Shared(h) { assert m in ms + [m]; }
    }
  }

  // --- Forwarding ---

  /** The ParseComplete messages that the pooler answers itself. */
  function Synthesized(ms: seq<Request>, d: set<Hash>): seq<Reply> {
    if ms == [] then []
    else
      var n := |ms| - 1;
      Synthesized(ms[..n], d) + if Deployed(ms[n], d) then [ParseComplete] else []
  }

  /** The client is told of every Parse once: as many acknowledgements as the pipeline has Parses when nothing fails,
      and never more. */
  lemma ParsesAreAnswered(s: Session, ms: seq<Request>, d: set<Hash>, fs: seq<Fate>)
    requires Body(ms) && |fs| == |Forward(ms, d)|
    ensures var r, told := ServeAll(s, Forward(ms, d), fs), Synthesized(ms, d);
      && Acks(told + r.replies) <= |Parses(ms)|
      && (!r.session.skipping ==> Acks(told + r.replies) == |Parses(ms)|)
      && forall x :: x in told ==> x.ParseComplete?
  {
    hide ServeAll, Acks;
    var fw := Forward(ms, d);
    ForwardSelects(ms, d);
    AckedIsPrefix(s, fw, fs);
    AcksCountAcked(s, fw, fs);
    AcksCat(Synthesized(ms, d), ServeAll(s, fw, fs).replies);
    SynthesizedFor(ms, d);
  }

  lemma {:induction false} SynthesizedFor(ms: seq<Request>, d: set<Hash>)
    ensures Acks(Synthesized(ms, d)) + |Parses(Forward(ms, d))| == |Parses(ms)|
    ensures forall x :: x in Synthesized(ms, d) ==> x.ParseComplete?
  {
    if ms != [] {
      var n := |ms| - 1;
      SynthesizedFor(ms[..n], d);
      var told, fw := Synthesized(ms[..n], d), Forward(ms[..n], d);
      AcksCat(told, [ParseComplete]);
      assert [ParseComplete][..0] == [];
      assert Acks([ParseComplete]) == 1;
      assert told + [] == told && fw + [] == fw;
      ParsesSnoc(fw, ms[n]);
    }
  }

  lemma ForwardNext(ms: seq<Request>, d: set<Hash>, i: nat)
    requires i < |ms|
    ensures var fw := Forward(ms[..i], d);
      && |fw| <= |Forward(ms, d)|
      && (if Deployed(ms[i], d)
          then Forward(ms[..i + 1], d) == fw && Synthesized(ms[..i + 1], d) == Synthesized(ms[..i], d) + [ParseComplete]
          else Forward(ms[..i + 1], d) == fw + [ms[i]] && Synthesized(ms[..i + 1], d) == Synthesized(ms[..i], d)
               && |fw| < |Forward(ms, d)|)
  {
    assert ms[..i + 1][..i] == ms[..i];
    ForwardGrows(ms, d, i);
    ForwardGrows(ms, d, i + 1);
  }

  lemma SentNext(fw: seq<Request>, m: Request)
    ensures Sent(fw + [m]) == Sent(fw) + if m.Parse? && m.stmt.Shared? then [m.stmt.hash] else []
  {
    assert (fw + [m])[..|fw|] == fw;
    assert Parses(fw) + [] == Parses(fw);
    SharedSnoc(Parses(fw), if m.Parse? then m.stmt else Unnamed);
  }

  lemma ServeNext(s: Session, fw: seq<Request>, m: Request, fates: seq<Fate>, j: nat)
    requires j == |fw| < |fates|
    ensures var a := ServeAll(s, fw, fates[..j]);
      var b := Serve(a.session, m, fates[j]);
      ServeAll(s, fw + [m], fates[..j + 1]) == Served(b.session, a.replies + b.replies)
  {
    hide Serve;
    assert (fw + [m])[..j] == fw && fates[..j + 1][..j] == fates[..j];
  }

  /** One message of phase 4. */
  method ForwardMessage(client: Client, backend: Backend, m: Request, f: Fate) returns (written: bool)
    modifies client`out, backend`unread, backend`session
    ensures written == !Deployed(m, backend.deployed)
    ensures client.out == old(client.out) + if written then [] else [ParseComplete]
    ensures if written then
              var r := Serve(old(backend.session), m, f);
              backend.session == r.session && backend.unread == old(backend.unread) + r.replies
            else backend.session == old(backend.session) && backend.unread == old(backend.unread)
  {
    if m.Parse? && m.stmt.Shared? && backend.HasStmt(m.stmt.hash) {
      client.out := client.out + [ParseComplete];
      return false;
    }
    backend.WriteMessage(m, f);
    return true;
  }

  /** What has been forwarded after i messages. */
  ghost predicate Forwarding(s: Session, u: seq<Reply>, ms: seq<Request>, d: set<Hash>, fates: seq<Fate>, i: nat,
                             j: nat,
                             now: Session, unread: seq<Reply>, sent: seq<Hash>)
    requires i <= |ms|
  {
    var fw := Forward(ms[..i], d);
    && j == |fw| <= |fates|
    && now == ServeAll(s, fw, fates[..j]).session && unread == u + ServeAll(s, fw, fates[..j]).replies
    && sent == Sent(fw)
  }

  lemma ForwardingStarts(s: Session, u: seq<Reply>, ms: seq<Request>, d: set<Hash>, fates: seq<Fate>)
    ensures Forwarding(s, u, ms, d, fates, 0, 0, s, u, [])
  {
    assert ms[..0] == [] && fates[..0] == [] && u + [] == u;
    assert Forward([], d) == [] && Sent([]) == [] && ServeAll(s, [], []) == Served(s, []);
  }

  lemma ForwardingNext(s: Session, u: seq<Reply>, ms: seq<Request>, d: set<Hash>, fates: seq<Fate>, i: nat, j: nat,
                       now: Session, unread: seq<Reply>, sent: seq<Hash>)
    requires |fates| == |Forward(ms, d)| && i < |ms| && Forwarding(s, u, ms, d, fates, i, j, now, unread, sent)
    ensures Deployed(ms[i], d) ==> Forwarding(s, u, ms, d, fates, i + 1, j, now, unread, sent)
    ensures !Deployed(ms[i], d) ==>
              && j < |fates|
              && var r := Serve(now, ms[i], fates[j]);
                 Forwarding(s, u, ms, d, fates, i + 1, j + 1, r.session, unread + r.replies,
                            sent + if ms[i].Parse? && ms[i].stmt.Shared? then [ms[i].stmt.hash] else [])
  {
    hide Forward, Sent, ServeAll, Serve, Deployed;
    ForwardNext(ms, d, i);
    if !Deployed(ms[i], d) {
      var fw := Forward(ms[..i], d);
      SentNext(fw, ms[i]);
      ServeNext(s, fw, ms[i], fates, j);
    }
  }

  /** Phase 4: every message goes to the backend, except a Parse of what is recorded as deployed. */
  method ForwardPipeline(client: Client, backend: Backend, ms: seq<Request>, fates: seq<Fate>) returns (sent: seq<Hash>)
    requires |fates| == |Forward(ms, backend.deployed)|
    modifies client`out, backend`unread, backend`session
    ensures var r := ServeAll(old(backend.session), Forward(ms, backend.deployed), fates);
      backend.session == r.session && backend.unread == old(backend.unread) + r.replies
    ensures sent == Sent(Forward(ms, backend.deployed))
    ensures client.out == old(client.out) + Synthesized(ms, backend.deployed)
  {
    ghost var s, u, o, d := backend.session, backend.unread, client.out, backend.deployed;
    sent := [];
    var i, j := 0, 0;
    ForwardingStarts(s, u, ms, d, fates);
    assert ms[..0] == [] && Synthesized([], d) == [];
    hide Serve, ServeAll, Forward, Sent, Synthesized, Forwarding, Deployed;
    while i < |ms|
      invariant 0 <= i <= |ms|
      invariant Forwarding(s, u, ms, d, fates, i, j, backend.session, backend.unread, sent)
      invariant client.out == o + Synthesized(ms[..i], d)
    {
      ForwardNext(ms, d, i);
      ForwardingNext(s, u, ms, d, fates, i, j, backend.session, backend.unread, sent);
      var f := if j < |fates| then fates[j] else FAILURE;
      var written := ForwardMessage(client, backend, ms[i], f);
      if written {
        if ms[i].Parse? && ms[i].stmt.Shared? { sent := sent + [ms[i].stmt.hash]; }
        j := j + 1;
      }
      i := i + 1;
    }
    assert ms[..i] == ms;
    ForwardingEnds(s, u, ms, d, fates, j, backend.session, backend.unread, sent);
  }

  lemma ForwardingEnds(s: Session, u: seq<Reply>, ms: seq<Request>, d: set<Hash>, fates: seq<Fate>, j: nat,
                       now: Session, unread: seq<Reply>, sent: seq<Hash>)
    requires |fates| == |Forward(ms, d)| && Forwarding(s, u, ms, d, fates, |ms|, j, now, unread, sent)
    ensures var r := ServeAll(s, Forward(ms, d), fates);
      now == r.session && unread == u + r.replies && sent == Sent(Forward(ms, d))
  {
    assert ms[..|ms|] == ms && fates[..|fates|] == fates;
  }

  /** Phase 3.5: deploys the missing statements one after the other, in the order in which the set yields them. */
  method InjectMissing(backend: Backend, needed: set<Hash>, fates: seq<Fate>) returns (order: seq<Hash>, ok: bool)
    requires |fates| == |needed| && NoReady(backend.unread)
    modifies backend`unread, backend`session, backend`deployed
    ensures |order| <= |fates| && Distinct(order) && SetOf(order) <= needed
    ensures ok ==> SetOf(order) == needed && |order| == |fates|
    ensures var r := Inject(old(backend.session), old(backend.deployed), old(backend.unread), order, fates[..|order|]);
      && ok == r.ok
      && (ok ==> backend.session == r.session && backend.deployed == r.deployed
                 && backend.unread == if order == [] then old(backend.unread) else [])
  {
    hide Serve, InjectOne;
    ghost var s, d, u := backend.session, backend.deployed, backend.unread;
    order, ok := [], true;
    var todo := needed;
    assert fates[..0] == [];
    while todo != {}
      invariant todo <= needed && |order| + |todo| == |needed| && SetOf(order) == needed - todo && Distinct(order)
      invariant ok && Inject(s, d, u, order, fates[..|order|]) == Deploying(backend.session, backend.deployed, true)
      invariant backend.unread == if order == [] then u else []
      decreases todo
    {
      var h :| h in todo;
      var n := |order|;
      assert (order + [h])[..n] == order && fates[..n + 1][..n] == fates[..n];
      assert SetOf(order + [h]) == SetOf(order) + {h};
      assert h !in SetOf(order);
      ok := InjectStatement(backend, h, fates[n]);
      todo, order := todo - {h}, order + [h];
      if !ok { return; }
    }
  }

  /** Parse and Sync for one statement, then the replies up to ReadyForQuery. */
  method InjectStatement(backend: Backend, h: Hash, f: Fate) returns (ok: bool)
    requires NoReady(backend.unread)
    modifies backend`unread, backend`session, backend`deployed
    ensures var r := InjectOne(old(backend.session), old(backend.deployed), old(backend.unread), h, f);
      ok == r.ok && (ok ==> backend.session == r.session && backend.deployed == r.deployed && backend.unread == [])
  {
    ghost var s, d, u := backend.session, backend.deployed, backend.unread;
    InjectReplies(s, d, u, h, f);
    backend.WriteMessage(Parse(Shared(h), Canonical(h)), f);
    backend.WriteMessage(Sync, f);
    ghost var rs := backend.unread;
    assert NoReady(rs[..|rs| - 1]) && rs[|rs| - 1].Ready?;
    hide Serve, InjectOne;
    ghost var i, after := 0, backend.session;
    var r: Reply := NoData;
    while !r.Ready?
      invariant backend.session == after
      invariant 0 <= i <= |rs| && backend.unread == rs[i..] && Error !in rs[..i]
      invariant backend.deployed == if ParseComplete in rs[..i] then d + {h} else d
      invariant r.Ready? <==> i == |rs|
      decreases |backend.unread|
    {
      assert i < |rs| && backend.unread[0] == rs[i];
      r := backend.ReadMessage();
      assert rs[..i + 1] == rs[..i] + [rs[i]];
      assert backend.unread == rs[i + 1..];
      assert i < |rs| - 1 ==> rs[..|rs| - 1][i] == rs[i];
      if r.ParseComplete? {
        backend.MarkStmt(h);
      } else if r.Error? {
        assert rs[i] in rs;
        return false;
      }
      i := i + 1;
    }
    assert rs[..i] == rs;
    return true;
  }

  lemma InjectReplies(s: Session, d: set<Hash>, u: seq<Reply>, h: Hash, f: Fate)
    ensures var parsed := Serve(s, Parse(Shared(h), Canonical(h)), f);
      var synced := Serve(parsed.session, Sync, f);
      var rs := u + parsed.replies + synced.replies;
      InjectOne(s, d, u, h, f) ==
        if Error in rs then Deploying(synced.session, d, false)
        else Deploying(synced.session, if ParseComplete in rs then d + {h} else d, true)
  {
    hide Serve;
  }

  /** executeExtendedPipeline on a backend, up to the point where the replies are read: the pipeline is rewritten, what
      it needs is deployed, and then it is forwarded with its Sync or Flush. */
  method SendPipeline(client: Client, backend: Backend, pipeline: array<Request>, end: Request, g: nat -> Fate,
                      f: nat -> Fate, last: Fate)
    returns (requiresPin: bool, sent: seq<Hash>, ok: bool, ghost v: Delivery)
    requires NoReady(backend.unread)
    modifies client`stmtNameMap, client`namedStmts, client`out, pipeline
    modifies backend`unread, backend`session, backend`deployed
    ensures Pipeline(client.Table(), pipeline[..], requiresPin) == Rename(old(client.Table()), old(pipeline[..]))
    ensures |v.gs| == |v.order| && ok == Injected(old(backend.State()), v).ok
    ensures ok ==>
              var conn, qs := old(backend.State()), pipeline[..];
              && Fits(conn, qs, v) && backend.State() == Deliver(conn, qs, end, v)
              && sent == Sent(Forward(qs, Injected(conn, v).deployed))
              && client.out == old(client.out) + Synthesized(qs, Injected(conn, v).deployed)
    ensures !ok ==> client.out == old(client.out)
  {
    hide Rename, BoundShared, Sent, Forward, Inject, Serve, ServeAll, Synthesized, Distinct;
    var bound: set<Hash>;
    requiresPin, bound := client.RewritePipeline(pipeline);
    var qs := pipeline[..];
    var needed := bound - SetOf(Sent(qs)) - backend.deployed;
    var gs := seq(|needed|, g);
    var order: seq<Hash>;
    order, ok := InjectMissing(backend, needed, gs);
    v, sent := Delivery(order, gs[..|order|], [], last), [];
    if ok {
      var fs := seq(|Forward(qs, backend.deployed)|, f);
      v := v.(fs := fs);
      sent := ForwardPipeline(client, backend, qs, fs);
      backend.WriteMessage(end, last);
    }
  }

  // --- Reading ---

  lemma {:induction false} LengthAt(rs: seq<Reply>, i: nat, kind: Kind)
    requires i <= |rs| && forall r :: r in rs[..i] ==> !Ends(r, kind)
    ensures Length(rs, kind) > i
    ensures i < |rs| && Ends(rs[i], kind) ==> Length(rs, kind) == i + 1
  {
    if i > 0 {
      assert rs[0] in rs[..i];
      assert rs[1..][..i - 1] == rs[1..i];
      forall r | r in rs[1..][..i - 1] ensures !Ends(r, kind) { assert r in rs[..i]; }
      LengthAt(rs[1..], i - 1, kind);
    }
  }

  /** After i replies: parseIdx counts the acknowledgements, and what they mark is marked. */
  ghost predicate Progress(d: set<Hash>, sent: seq<Hash>, u: seq<Reply>, i: nat, parseIdx: nat, deployed: set<Hash>)
    requires i <= |u|
  {
    parseIdx == Least(Acks(u[..i]), |sent|) && deployed == Marked(d, sent, Acks(u[..i]))
  }

  lemma ProgressStarts(d: set<Hash>, sent: seq<Hash>, u: seq<Reply>)
    ensures Progress(d, sent, u, 0, 0, d)
  {
    assert u[..0] == [];
  }

  lemma ProgressNext(d: set<Hash>, sent: seq<Hash>, u: seq<Reply>, i: nat, parseIdx: nat, deployed: set<Hash>)
    requires i < |u| && Progress(d, sent, u, i, parseIdx, deployed)
    ensures if u[i].ParseComplete? && parseIdx < |sent|
            then Progress(d, sent, u, i + 1, parseIdx + 1, deployed + {sent[parseIdx]})
            else Progress(d, sent, u, i + 1, parseIdx, deployed)
  {
    assert u[..i + 1][..i] == u[..i];
    if u[i].ParseComplete? && parseIdx < |sent| { assert sent[..parseIdx + 1] == sent[..parseIdx] + [sent[parseIdx]]; }
  }

  /** No reply before the i-th ends the reading. */
  ghost predicate Open(u: seq<Reply>, i: nat, kind: Kind)
    requires i <= |u|
  {
    forall r :: r in u[..i] ==> !Ends(r, kind)
  }

  lemma OpenNext(u: seq<Reply>, i: nat, kind: Kind)
    requires i <= |u| && Open(u, i, kind)
    ensures Length(u, kind) > i
    ensures i < |u| ==> if Ends(u[i], kind) then Length(u, kind) == i + 1 else Open(u, i + 1, kind)
  {
    LengthAt(u, i, kind);
    if i < |u| { assert u[..i + 1] == u[..i] + [u[i]]; }
  }

  /** How many replies are read: to the end of the answer, or until reading fails. */
  function Extent(u: seq<Reply>, kind: Kind, limit: nat): nat {
    if Ended(u, kind, limit) then Length(u, kind) else Least(limit, |u|)
  }

  predicate Ended(u: seq<Reply>, kind: Kind, limit: nat) { Length(u, kind) <= |u| && Length(u, kind) <= limit }

  /** forwardExtendedResponse and drainFlushResponse: replies go to the client and ParseComplete advances parseIdx, up
      to ReadyForQuery or, after Flush, the first reply that ends a Describe or an error. Reading fails after limit
      replies. */
  method ForwardReplies(client: Client, backend: Backend, sent: seq<Hash>, kind: Kind,
                        limit: nat) returns (status: Status)
    requires kind.Extended? || kind.Flushed?
    modifies client`out, client`activeBackend, backend`unread, backend`deployed
    ensures var u := old(backend.unread);
      var n := Extent(u, kind, limit);
      && n <= |u| && backend.unread == u[n..]
      && backend.deployed == Marked(old(backend.deployed), sent, Acks(u[..n]))
      && client.out == old(client.out) + u[..n] + (if Ended(u, kind, limit) then [] else [Error])
      && (if Ended(u, kind, limit) then Ends(u[n - 1], kind) && (u[n - 1].Ready? ==> status == Known(u[n - 1].tx))
          else status == Unread)
    ensures client.activeBackend == null
  {
    ghost var u, d, o := backend.unread, backend.deployed, client.out;
    client.activeBackend := backend;
    var parseIdx, i := 0, 0;
    ProgressStarts(d, sent, u);
    assert u[..0] == [];
    hide Progress, Length, Acks, Marked;
    while i < limit && backend.unread != []
      invariant 0 <= i <= |u| && i <= limit && backend.unread == u[i..]
      invariant Progress(d, sent, u, i, parseIdx, backend.deployed)
      invariant client.out == o + u[..i]
      invariant Open(u, i, kind)
    {
      OpenNext(u, i, kind);
      ProgressNext(d, sent, u, i, parseIdx, backend.deployed);
      var r := backend.ReadMessage();
      assert u[..i + 1] == u[..i] + [r];
      if r.ParseComplete? && parseIdx < |sent| {
        backend.MarkStmt(sent[parseIdx]);
        parseIdx := parseIdx + 1;
      }
      client.out := client.out + [r];
      i := i + 1;
      if Ends(r, kind) {
        client.activeBackend := null;
        ProgressSays(d, sent, u, i, parseIdx, backend.deployed);
        return if r.Ready? then Known(r.tx) else Known(Idle);
      }
    }
    OpenNext(u, i, kind);
    ProgressSays(d, sent, u, i, parseIdx, backend.deployed);
    client.out := client.out + [Error];
    client.activeBackend := null;
    return Unread;
  }

  lemma ProgressSays(d: set<Hash>, sent: seq<Hash>, u: seq<Reply>, i: nat, parseIdx: nat, deployed: set<Hash>)
    requires i <= |u| && Progress(d, sent, u, i, parseIdx, deployed)
    ensures deployed == Marked(d, sent, Acks(u[..i]))
  {
  }

  /** forwardPreparedResponse: the same for the cached path, without the replies that a simple query does not have. */
  method ForwardPrepared(client: Client, backend: Backend, hash: Hash, limit: nat) returns (status: Status)
    modifies client`out, client`activeBackend, backend`unread, backend`deployed
    ensures var u, kind := old(backend.unread), Cached(hash);
      var n := Extent(u, kind, limit);
      && n <= |u| && backend.unread == u[n..]
      && backend.deployed == Record(old(backend.deployed), Job(kind, [], false), u[..n])
      && client.out == old(client.out) + Translated(u[..n]) + (if Ended(u, kind, limit) then [] else [Error])
      && (if Ended(u, kind, limit) then u[n - 1].Ready? && status == Known(u[n - 1].tx) else status == Unread)
    ensures client.activeBackend == null
  {
    ghost var u, d, o, kind := backend.unread, backend.deployed, client.out, Cached(hash);
    client.activeBackend := backend;
    var i := 0;
    assert u[..0] == [];
    assert Translated([]) == [];
    hide Length, Translated;
    while i < limit && backend.unread != []
      invariant 0 <= i <= |u| && i <= limit && backend.unread == u[i..]
      invariant backend.deployed == if ParseComplete in u[..i] then d + {hash} else d
      invariant client.out == o + Translated(u[..i])
      invariant Open(u, i, kind)
    {
      OpenNext(u, i, kind);
      TranslatedNext(u, i);
      var r := backend.ReadMessage();
      assert u[..i + 1] == u[..i] + [r];
      if r.ParseComplete? {
        if !backend.HasStmt(hash) { backend.MarkStmt(hash); }
      } else if !r.BindComplete? && !r.NoData? {
        client.out := client.out + [r];
      }
      i := i + 1;
      if r.Ready? {
        client.activeBackend := null;
        return Known(r.tx);
      }
    }
    OpenNext(u, i, kind);
    client.out := client.out + [Error];
    client.activeBackend := null;
    return Unread;
  }

  lemma TranslatedNext(u: seq<Reply>, i: nat)
    requires i < |u|
    ensures Translated(u[..i + 1]) == Translated(u[..i]) + if Hidden(u[i]) then [] else [u[i]]
  {
    assert u[..i + 1][..i] == u[..i];
  }

  // --- Custody, on the objects of one client and one backend ---

  function Ids(bs: seq<Backend>): seq<Bid> { seq(|bs|, i requires 0 <= i < |bs| => bs[i].id) }

  /** What the pool and the pointers of one client and one backend say. */
  function Slice(client: Client, backend: Backend, busy: bool): Custody
    reads client, backend, backend.pool
    reads if client.backend == null then {} else {client.backend}
    reads if backend.client == null then {} else {backend.client}
  {
    Custody({}, Ids(backend.pool.queue), Ids(backend.pool.closing),
            if client.backend == null then map[] else map[client.id := client.backend.id],
            if busy then map[client.id := backend.id] else map[],
            if backend.client == null then map[] else map[backend.id := backend.client.id], {}, backend.pool.capacity)
  }

  /** The two objects point at each other or not at all. */
  predicate Paired(client: Client, backend: Backend)
    reads client, backend
  {
    (client.backend == null && backend.client == null) || (client.backend == backend && backend.client == client)
  }

  lemma IdsSnoc(bs: seq<Backend>, b: Backend)
    ensures Ids(bs + [b]) == Ids(bs) + [b.id]
  {
  }

  /** borrowConn, when a connection is idle: the head of the queue. */
  method BorrowConn(pool: Pool) returns (b: Backend?)
    modifies pool`queue
    ensures old(pool.queue) == [] <==> b == null
    ensures old(pool.queue) == [] ==> pool.queue == []
    ensures old(pool.queue) != [] ==> b == old(pool.queue)[0] && pool.queue == old(pool.queue)[1..]
  {
    if pool.queue == [] { return null; }
    b, pool.queue := pool.queue[0], pool.queue[1..];
  }

  /** Backend.Return. */
  method ReturnBackend(client: Client, backend: Backend)
    modifies backend`client, backend.pool
    ensures Slice(client, backend, false) == Return(old(Slice(client, backend, true)), client.id, backend.id)
    ensures backend.client == null && client.backend == old(client.backend)
  {
    var pool := backend.pool;
    backend.client := null;
    IdsSnoc(pool.queue, backend);
    IdsSnoc(pool.closing, backend);
    if |pool.queue| < pool.capacity {
      pool.queue := pool.queue + [backend];
    } else {
      pool.closing := pool.closing + [backend];
    }
  }

  /** Backend.Release: through the backend's own pointer to its client. A client that is pinned to another connection
      while it works on this one keeps that pin. */
  method ReleaseBackend(client: Client, backend: Backend)
    requires backend.client == null || backend.client == client
    modifies backend`client, backend.pool`closing, client`backend, client`inTransaction
    ensures Slice(client, backend, false) == Release(old(Slice(client, backend, true)), client.id, backend.id)
    ensures backend.client == null && client.backend == (if old(backend.client) == null then old(client.backend)
        else null)
    ensures client.inTransaction == (old(client.inTransaction) && old(backend.client) == null)
  {
    var c := backend.client;
    backend.client := null;
    if c != null {
      c.backend := null;
      c.inTransaction := false;
    }
    IdsSnoc(backend.pool.closing, backend);
    backend.pool.closing := backend.pool.closing + [backend];
  }

  /** reconcileConn. */
  method ReconcileConn(client: Client, backend: Backend, status: Status, wasPinned: bool)
    requires Paired(client, backend)
    modifies client`backend, client`inTransaction, backend`client, backend.pool
    ensures Slice(client, backend, false) ==
            Reconcile(old(Slice(client, backend, true)), client.id, backend.id, status, wasPinned, client.namedStmts > 0)
    ensures client.inTransaction == Flag(status)
  {
    var hasNamedStmts := client.namedStmts > 0;
    if status.Known? && !status.tx.Idle? {
      if client.backend == null {
        client.backend := backend;
        backend.client := client;
      }
      client.inTransaction := true;
    } else if status.Known? {
      client.inTransaction := false;
      if hasNamedStmts {
        if client.backend == null {
          client.backend := backend;
          backend.client := client;
        }
      } else if wasPinned {
        client.backend := null;
        backend.client := null;
        ReturnBackend(client, backend);
      } else {
        ReturnBackend(client, backend);
      }
    } else {
      client.inTransaction := false;
      if wasPinned && !hasNamedStmts {
        client.backend := null;
        backend.client := null;
      }
      ReturnBackend(client, backend);
    }
  }

  /** The rest of executeExtendedPipeline after a Sync: the replies are read and the backend is kept, unpinned or
      returned. Reading fails after limit replies. */
  method FinishPipeline(client: Client, backend: Backend, sent: seq<Hash>, limit: nat, wasPinned: bool)
    requires Paired(client, backend)
    modifies client, backend, backend.pool
    ensures var conn := old(backend.State());
      var n := Extent(conn.unread, Extended, limit);
      var status := if Ended(conn.unread, Extended, limit) then Known(Reported(conn, n)) else Unread;
      && n <= |conn.unread| && backend.State() == Read(conn, Job(Extended, sent, wasPinned), n)
      && Slice(client, backend, false)
         == Reconcile(old(Slice(client, backend, true)), client.id, backend.id, status, wasPinned, client.namedStmts > 0)
      && client.inTransaction == Flag(status) && client.activeBackend == null
      && client.out == old(client.out) + conn.unread[..n] + (if status.Known? then [] else [Error])
  {
    hide Reconcile, Length, Marked;
    var status := ForwardReplies(client, backend, sent, Extended, limit);
    ReconcileConn(client, backend, status, wasPinned);
  }
}
