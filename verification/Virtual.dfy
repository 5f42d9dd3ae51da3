/**
 The shared namespace of the backends behaves like one private namespace per client: a Bind of a
 mapped name runs, on whatever backend it reaches, the text the client last parsed under that name.
 */
module Virtual {
  import opened Sequences
  import opened Protocol
  import opened Naming
  import opened Deployment

  // --- Phase 3.5: deploying what a Bind needs ---

  function BoundShared(ms: seq<Request>): set<Hash> {
    set m | m in ms && m.Bind? && m.stmt.Shared? :: m.stmt.hash
  }

  /** The hashes that some Bind names, no Parse of the pipeline brings and the record does not list. */
  function Needed(ms: seq<Request>, d: set<Hash>): set<Hash> {
    BoundShared(ms) - SetOf(Sent(ms)) - d
  }

  datatype Deploying = Deploying(session: Session, deployed: set<Hash>, ok: bool)

  /** Parse and Sync for one hash, then every reply up to ReadyForQuery; unread is what an earlier Flush left behind. */
  function InjectOne(s: Session, d: set<Hash>, unread: seq<Reply>, h: Hash, f: Fate): Deploying {
    var parsed := Serve(s, Parse(Shared(h), Canonical(h)), f);
    var synced := Serve(parsed.session, Sync, f);
    var rs := unread + parsed.replies + synced.replies;
    if Error in rs then Deploying(synced.session, d, false)
    else Deploying(synced.session, if ParseComplete in rs then d + {h} else d, true)
  }

  /** One hash after the other, in any order, until one fails. */
  function Inject(s: Session, d: set<Hash>, unread: seq<Reply>, order: seq<Hash>, fs: seq<Fate>): Deploying
    requires |fs| == |order|
    decreases |order|
  {
    if order == [] then Deploying(s, d, true)
    else
      var n := |order| - 1;
      var a := Inject(s, d, unread, order[..n], fs[..n]);
      if a.ok then InjectOne(a.session, a.deployed, if n == 0 then unread else [], order[n], fs[n]) else a
  }

  /** What deployment reaches: in a session that is discarding, the first Parse is discarded and its Sync ends the
      discarding. */
  function Late(order: seq<Hash>, skipping: bool): seq<Hash> { if skipping && order != [] then order[1..] else order }

  lemma InjectOneHolds(s: Session, d: set<Hash>, unread: seq<Reply>, h: Hash, f: Fate, k: Hash)
    requires Tracks(d, s, k) && ParseComplete !in unread
    ensures var r := InjectOne(s, d, unread, h, f);
      r.ok ==>
        && Tracks(r.deployed, r.session, k) && (k in r.deployed <==> k in d || (k == h && !s.skipping))
        && r.session.tx == s.tx && Private(r.session) == Private(s) && !r.session.skipping
  {
    var m := Parse(Shared(h), Canonical(h));
    var parsed := Serve(s, m, f);
    HeldAfter(s, m, f);
    HeldAfter(parsed.session, Sync, f);
    var synced := Serve(parsed.session, Sync, f);
    var rs := unread + parsed.replies + synced.replies;
    assert forall r :: r in rs <==> r in unread || r in parsed.replies || r in synced.replies;
    assert Private(parsed.session) == Private(s);
  }

  /** Deploying keeps the record right about a hash, and afterwards the backend holds it precisely if it did or if
      deployment reached it; the session goes on discarding only if nothing had to be deployed. */
  lemma {:induction false} InjectHolds(s: Session, d: set<Hash>, unread: seq<Reply>, order: seq<Hash>, fs: seq<Fate>,
                                       k: Hash)
    requires |fs| == |order| && Tracks(d, s, k) && ParseComplete !in unread
    ensures var r := Inject(s, d, unread, order, fs);
      r.ok ==>
        && Tracks(r.deployed, r.session, k) && (k in r.deployed <==> k in d || k in Late(order, s.skipping))
        && r.session.skipping == (s.skipping && order == [])
        && r.session.tx == s.tx && Private(r.session) == Private(s)
    decreases |order|
  {
    hide InjectOne, Held, Private, Tracks;
    if order != [] {
      var n := |order| - 1;
      InjectHolds(s, d, unread, order[..n], fs[..n], k);
      var a := Inject(s, d, unread, order[..n], fs[..n]);
      if a.ok {
        InjectOneHolds(a.session, a.deployed, if n == 0 then unread else [], order[n], fs[n], k);
        LateSnoc(order, s.skipping);
        hide Late;
        assert k in SetOf(Late(order, s.skipping))
          <==> k in SetOf(Late(order[..n], s.skipping)) || (k == order[n] && !(s.skipping && n == 0));
      }
    }
  }

  lemma LateSnoc(order: seq<Hash>, skipping: bool)
    requires order != []
    ensures var n := |order| - 1;
      SetOf(Late(order, skipping)) ==
        SetOf(Late(order[..n], skipping)) + if skipping && n == 0 then {} else {order[n]}
  {
    var n := |order| - 1;
    assert order == order[..n] + [order[n]];
    if skipping && n > 0 { assert order[1..] == order[..n][1..] + [order[n]]; }
  }

  /** Deploying changes no statement of the client's own, whatever is left unread. */
  lemma {:induction false} InjectKeepsPrivate(s: Session, d: set<Hash>, unread: seq<Reply>, order: seq<Hash>,
                                              fs: seq<Fate>)
    requires |fs| == |order|
    ensures Private(Inject(s, d, unread, order, fs).session) == Private(s)
    decreases |order|
  {
    if order != [] {
      var n := |order| - 1;
      InjectKeepsPrivate(s, d, unread, order[..n], fs[..n]);
      var a := Inject(s, d, unread, order[..n], fs[..n]);
      hide Inject;
      assert Private(InjectOne(a.session, a.deployed, if n == 0 then unread else [], order[n], fs[n]).session)
        == Private(a.session);
    }
  }

  // --- What a name stands for on the backends ---

  /** The message deploys nothing but the canonical text under the hash. */
  predicate CanonicalOne(m: Request, h: Hash) { m.Parse? && m.stmt == Shared(h) ==> m.query == Canonical(h) }

  predicate CanonicalOnly(ms: seq<Request>, h: Hash) { forall m :: m in ms ==> CanonicalOne(m, h) }

  /** A deployed statement is what its name says, unless a text with inlined values is acknowledged under it. */
  lemma FaithfulIff(s: Session, m: Request, f: Fate, h: Hash)
    requires FaithfulTo(s, h)
    ensures FaithfulTo(Serve(s, m, f).session, h) <==> (ParseComplete in Serve(s, m, f).replies ==> CanonicalOne(m, h))
  {
  }

  lemma {:induction false} FaithfulRun(s: Session, ms: seq<Request>, fs: seq<Fate>, h: Hash)
    requires |fs| == |ms| && FaithfulTo(s, h) && CanonicalOnly(ms, h)
    ensures FaithfulTo(ServeAll(s, ms, fs).session, h)
    decreases |ms|
  {
    hide Serve, FaithfulTo;
    if ms != [] {
      var n := |ms| - 1;
      FaithfulRun(s, ms[..n], fs[..n], h);
      FaithfulIff(ServeAll(s, ms[..n], fs[..n]).session, ms[n], fs[n], h);
    }
  }

  lemma {:induction false} InjectIsFaithful(s: Session, d: set<Hash>, unread: seq<Reply>, order: seq<Hash>,
                                            fs: seq<Fate>, h: Hash)
    requires |fs| == |order| && FaithfulTo(s, h)
    ensures FaithfulTo(Inject(s, d, unread, order, fs).session, h)
    decreases |order|
  {
    hide Serve, FaithfulTo;
    if order != [] {
      var n := |order| - 1;
      InjectIsFaithful(s, d, unread, order[..n], fs[..n], h);
      var a := Inject(s, d, unread, order[..n], fs[..n]);
      if a.ok {
        var m := Parse(Shared(order[n]), Canonical(order[n]));
        FaithfulIff(a.session, m, fs[n], h);
        FaithfulIff(Serve(a.session, m, fs[n]).session, Sync, fs[n], h);
      }
    }
  }

  predicate ClientPipeline(ms: seq<Request>) { forall m :: m in ms ==> FromClient(m) && Inside(m) }

  /** No named Parse of a text with that hash carries extracted values. */
  predicate TruthfulOne(m: Request, h: Hash) {
    m.Parse? && m.stmt.Named? && m.query.Dml? && HashOf(m.query.canonical) == h ==> m.query.inlined == []
  }

  predicate Truthful(ms: seq<Request>, h: Hash) { forall m :: m in ms ==> TruthfulOne(m, h) }

  /** What the rewriting sends: no Close of a shared statement, still one pipeline; canonical texts if the client's
      are. */
  lemma {:induction false} RenamedIsPipeline(t: NameTable, ms: seq<Request>)
    requires ClientPipeline(ms)
    ensures NoEviction(Rename(t, ms).msgs) && Body(Rename(t, ms).msgs)
  {
    if ms != [] {
      var n := |ms| - 1;
      assert forall m :: m in ms[..n] ==> m in ms;
      RenamedIsPipeline(t, ms[..n]);
      assert FromClient(ms[n]) && Inside(ms[n]);
    }
  }

  lemma {:induction false} RenamedIsCanonical(t: NameTable, ms: seq<Request>, h: Hash)
    requires ClientPipeline(ms) && Truthful(ms, h)
    ensures CanonicalOnly(Rename(t, ms).msgs, h)
  {
    if ms != [] {
      var n := |ms| - 1;
      assert forall m :: m in ms[..n] ==> m in ms;
      RenamedIsCanonical(t, ms[..n], h);
      assert FromClient(ms[n]) && TruthfulOne(ms[n], h);
    }
  }

  lemma {:induction false} ForwardSelects(ms: seq<Request>, d: set<Hash>)
    ensures forall m :: m in Forward(ms, d) ==> m in ms
  {
    if ms != [] { ForwardSelects(ms[..|ms| - 1], d); }
  }

  lemma {:induction false} ForwardGrows(ms: seq<Request>, d: set<Hash>, i: nat)
    requires i <= |ms|
    ensures Forward(ms[..i], d) <= Forward(ms, d)
  {
    if i < |ms| {
      assert ms[..|ms| - 1][..i] == ms[..i];
      ForwardGrows(ms[..|ms| - 1], d, i);
    } else {
      assert ms[..i] == ms;
    }
  }

  /** Every message is forwarded as often as it comes, except a Parse of a recorded statement, which never is. */
  lemma {:induction false} ForwardIff(ms: seq<Request>, d: set<Hash>, m: Request)
    ensures multiset(Forward(ms, d))[m]
         == if m.Parse? && m.stmt.Shared? && m.stmt.hash in d then 0 else multiset(ms)[m]
  {
    if ms != [] {
      var n := |ms| - 1;
      ForwardIff(ms[..n], d, m);
      assert ms == ms[..n] + [ms[n]];
    }
  }

  /** The session when the pipeline reaches message i. */
  function At(s: Session, ms: seq<Request>, d: set<Hash>, fs: seq<Fate>, i: nat): Session
    requires i <= |ms| && |fs| == |Forward(ms, d)|
  {
    ForwardGrows(ms, d, i);
    var fw := Forward(ms[..i], d);
    ServeAll(s, fw, fs[..|fw|]).session
  }

  lemma AtStep(s: Session, ms: seq<Request>, d: set<Hash>, fs: seq<Fate>, i: nat)
    requires i < |ms| && |fs| == |Forward(ms, d)|
    ensures if Deployed(ms[i], d) then At(s, ms, d, fs, i + 1) == At(s, ms, d, fs, i)
            else |Forward(ms[..i], d)| < |fs|
                 && At(s, ms, d, fs, i + 1) == Serve(At(s, ms, d, fs, i), ms[i], fs[|Forward(ms[..i], d)|]).session
  {
    hide Serve;
    ForwardGrows(ms, d, i);
    ForwardGrows(ms, d, i + 1);
    assert ms[..i + 1][..i] == ms[..i];
    var fw := Forward(ms[..i], d);
    if Deployed(ms[i], d) {
      assert fw + [] == fw;
    } else {
      assert Forward(ms[..i + 1], d) == fw + [ms[i]];
      assert (fw + [ms[i]])[..|fw|] == fw;
      assert fs[..|fw| + 1][..|fw|] == fs[..|fw|];
    }
  }

  lemma SentSnoc(ms: seq<Request>, i: nat)
    requires i < |ms|
    ensures SetOf(Sent(ms[..i + 1])) ==
            SetOf(Sent(ms[..i])) + if ms[i].Parse? && ms[i].stmt.Shared? then {ms[i].stmt.hash} else {}
  {
    assert ms[..i + 1][..i] == ms[..i];
    var ps := Parses(ms[..i]);
    assert ps + [] == ps;
    SharedSnoc(ps, if ms[i].Parse? then ms[i].stmt else Unnamed);
  }

  /** While nothing has failed, the backend holds a statement exactly if it held it or the pipeline has parsed it. */
  lemma {:induction false} PresentAt(s: Session, ms: seq<Request>, d: set<Hash>, fs: seq<Fate>, i: nat, h: Hash)
    requires i <= |ms| && |fs| == |Forward(ms, d)| && (h in d ==> h in Held(s))
    requires Body(ms) && NoEviction(ms)
    ensures h in Held(s) ==> h in Held(At(s, ms, d, fs, i))
    ensures h in Held(At(s, ms, d, fs, i)) ==> h in Held(s) || h in SetOf(Sent(ms[..i]))
    ensures !At(s, ms, d, fs, i).skipping && h in SetOf(Sent(ms[..i])) ==> h in Held(At(s, ms, d, fs, i))
  {
    hide Serve, At, Held, Forward;
    if i == 0 {
      assert ms[..0] == [];
      assert SetOf(Sent([])) == {};
      AtStart(s, ms, d, fs);
    } else {
      PresentAt(s, ms, d, fs, i - 1, h);
      AtStep(s, ms, d, fs, i - 1);
      SentSnoc(ms, i - 1);
      hide Sent, SetOf;
      var m, before := ms[i - 1], At(s, ms, d, fs, i - 1);
      if !Deployed(m, d) {
        var f := fs[|Forward(ms[..i - 1], d)|];
        HeldStep(before, m, f);
      }
    }
  }

  lemma HeldStep(s: Session, m: Request, f: Fate)
    requires Inside(m) && KeepsShared(m)
    ensures var r := Serve(s, m, f).session;
      var brought := if m.Parse? && m.stmt.Shared? then {m.stmt.hash} else {};
      && Held(s) <= Held(r) <= Held(s) + brought
      && (!r.skipping ==> !s.skipping && Held(r) == Held(s) + brought)
  {
    hide Serve, Held;
    HeldAfter(s, m, f);
    ServeInside(s, m, f);
  }

  lemma AtStart(s: Session, ms: seq<Request>, d: set<Hash>, fs: seq<Fate>)
    requires |fs| == |Forward(ms, d)|
    ensures At(s, ms, d, fs, 0) == s
  {
    assert ms[..0] == [];
  }

  lemma FaithfulAt(s: Session, ms: seq<Request>, d: set<Hash>, fs: seq<Fate>, i: nat, h: Hash)
    requires i <= |ms| && |fs| == |Forward(ms, d)| && FaithfulTo(s, h) && CanonicalOnly(ms, h)
    ensures FaithfulTo(At(s, ms, d, fs, i), h)
  {
    ForwardGrows(ms, d, i);
    ForwardSelects(ms, d);
    var fw := Forward(ms[..i], d);
    assert forall m :: m in fw ==> m in Forward(ms, d);
    FaithfulRun(s, fw, fs[..|fw|], h);
  }

  predicate Names(m: Request, h: Hash) {
    (m.Bind? && m.stmt == Shared(h)) || (m.DescribeStmt? && m.stmt == Shared(h))
  }

  /** A Bind or Describe that is reached, and that the server would accept, fails exactly when its statement is neither
      held at the start nor parsed before it. */
  lemma StatementIsThereIff(s: Session, ms: seq<Request>, d: set<Hash>, fs: seq<Fate>, i: nat, h: Hash, f: Fate)
    requires |fs| == |Forward(ms, d)| && (h in d ==> h in Held(s)) && Body(ms) && NoEviction(ms)
    requires i < |ms| && Names(ms[i], h) && !At(s, ms, d, fs, i).skipping && f.ok
    ensures Serve(At(s, ms, d, fs, i), ms[i], f).replies == [Error] <==> h !in Held(s) + SetOf(Sent(ms[..i]))
  {
    hide At, Held;
    PresentAt(s, ms, d, fs, i, h);
    HeldIs(At(s, ms, d, fs, i), h);
  }

  /** The statement is missing at message i: not recorded, not parsed before, and not deployed. Deployment passes over
      what is parsed later in the pipeline, what no Bind names, and the first statement in a session that is
      discarding. */
  predicate Missing(qs: seq<Request>, d: set<Hash>, skipping: bool, order: seq<Hash>, i: nat, h: Hash)
    requires i <= |qs|
  {
    && h !in d && h !in SetOf(Sent(qs[..i]))
    && (h in SetOf(Sent(qs)) || h !in BoundShared(qs) || (skipping && order != [] && order[0] == h))
  }

  /** The hashes to deploy, each once, in the order in which they are taken. */
  ghost predicate Orders(order: seq<Hash>, qs: seq<Request>, d: set<Hash>) {
    SetOf(order) == Needed(qs, d) && Distinct(order)
  }

  lemma LateOf(order: seq<Hash>, skipping: bool, h: Hash)
    requires Distinct(order)
    ensures h in SetOf(Late(order, skipping)) <==> h in SetOf(order) && !(skipping && order != [] && order[0] == h)
  {
    if skipping && order != [] {
      assert order == [order[0]] + order[1..];
      assert order[0] !in order[1..] by {
        forall k | 0 <= k < |order[1..]| ensures order[1..][k] != order[0] { assert order[1..][k] == order[k + 1]; }
      }
    }
  }

  /** After deployment, statement by statement. */
  lemma DeployedUnlessMissing(qs: seq<Request>, s: Session, d: set<Hash>, unread: seq<Reply>, order: seq<Hash>,
                              gs: seq<Fate>, i: nat, h: Hash)
    requires |gs| == |order| && Tracks(d, s, h) && ParseComplete !in unread && Orders(order, qs, d) && i <= |qs|
    requires Inject(s, d, unread, order, gs).ok
    ensures h !in Held(Inject(s, d, unread, order, gs).session) + SetOf(Sent(qs[..i]))
        <==> Missing(qs, d, s.skipping, order, i, h)
  {
    hide Inject, Held, Sent, Late, BoundShared;
    InjectHolds(s, d, unread, order, gs, h);
    LateOf(order, s.skipping, h);
  }

  /** Where nothing can be missing, in terms of the pipeline and the session before it: a hash that is both parsed
      and bound is parsed first, and a discarding session is asked to deploy nothing. */
  predicate ParseFirst(qs: seq<Request>, d: set<Hash>) {
    forall i, h :: 0 <= i < |qs| && qs[i].Bind? && qs[i].stmt == Shared(h) && h !in d && h in SetOf(Sent(qs)) ==>
      h in SetOf(Sent(qs[..i]))
  }

  lemma NoBindMissesIff(qs: seq<Request>, d: set<Hash>, skipping: bool, order: seq<Hash>)
    requires Orders(order, qs, d)
    ensures (forall i, h :: 0 <= i < |qs| && qs[i].Bind? && qs[i].stmt == Shared(h) ==>
               !Missing(qs, d, skipping, order, i, h))
       <==> ParseFirst(qs, d) && (skipping ==> order == [])
  {
    hide Sent;
    if skipping && order != [] {
      var h := order[0];
      assert h in SetOf(order) && h in BoundShared(qs);
      var m :| m in qs && m.Bind? && m.stmt.Shared? && m.stmt.hash == h;
      var i :| 0 <= i < |qs| && qs[i] == m;
      SentOfPrefix(qs, i);
      assert Missing(qs, d, skipping, order, i, h);
    } else {
      forall i, h | 0 <= i < |qs| && qs[i].Bind? && qs[i].stmt == Shared(h) ensures h in BoundShared(qs) {
        assert qs[i] in qs;
      }
    }
  }

  lemma {:induction false} SentOfPrefix(ms: seq<Request>, i: nat)
    requires i <= |ms|
    ensures SetOf(Sent(ms[..i])) <= SetOf(Sent(ms))
  {
    if i < |ms| {
      var k := |ms| - 1;
      assert ms[..k][..i] == ms[..i] && ms[..k + 1] == ms;
      SentOfPrefix(ms[..k], i);
      SentSnoc(ms, k);
    } else {
      assert ms[..i] == ms;
    }
  }

  predicate NamesStatement(m: Request) { (m.Bind? || m.DescribeStmt?) && m.stmt.Named? }

  /** The message with the shared statement in place of the client's name. */
  function Aimed(m: Request, h: Hash): Request
    requires NamesStatement(m)
  {
    if m.Bind? then Bind(m.portal, Shared(h), m.args) else DescribeStmt(Shared(h))
  }

  /** Namespace virtualization for one pipeline on any backend whose record is right about the hash. A Bind or a
      Describe of a mapped name is sent for the shared statement; if it is reached and the server would accept it, it
      fails exactly when that statement is missing, and otherwise the statement is the text that the client's latest
      Parse gave the name. */
  lemma NameLeadsToLatestParse(t: NameTable, v: map<string, Query>, ms: seq<Request>, s: Session, d: set<Hash>,
                               unread: seq<Reply>, order: seq<Hash>, gs: seq<Fate>, fs: seq<Fate>, i: nat, f: Fate)
    requires ClientPipeline(ms) && ParseComplete !in unread
    requires |gs| == |order| && Orders(order, Rename(t, ms).msgs, d) && Inject(s, d, unread, order, gs).ok
    requires |fs| == |Forward(Rename(t, ms).msgs, Inject(s, d, unread, order, gs).deployed)|
    requires i < |ms| && NamesStatement(ms[i]) && ms[i].stmt.name in Rename(t, ms[..i]).table.names
    requires var n, h := ms[i].stmt.name, Rename(t, ms[..i]).table.names[ms[i].stmt.name];
      Tracks(d, s, h) && NameFits(t, v, n, h) && KeepsName(t, ms, n, h) && Truthful(ms, h) && FaithfulTo(s, h)
    ensures var r, qs := Inject(s, d, unread, order, gs), Rename(t, ms).msgs;
      var st := At(r.session, qs, r.deployed, fs, i);
      var n, vi := ms[i].stmt.name, View(v, ms[..i]);
      var h := Rename(t, ms[..i]).table.names[n];
      && n in vi && qs[i] == Aimed(ms[i], h)
      && (!st.skipping && f.ok ==>
            && (Serve(st, qs[i], f).replies == [Error] <==> Missing(qs, d, s.skipping, order, i, h))
            && (!Missing(qs, d, s.skipping, order, i, h) ==>
                  Shared(h) in st.prepared && st.prepared[Shared(h)] == vi[n]))
  {
    hide At, Inject, Held, KeepsName, Rename, View, Missing, Truthful, ClientPipeline, Sent, Orders;
    var qs, r := Rename(t, ms).msgs, Inject(s, d, unread, order, gs);
    var h := Rename(t, ms[..i]).table.names[ms[i].stmt.name];
    if ms[i].Bind? { BindIsRenamed(t, v, ms, i, h); } else { DescribeIsRenamed(t, v, ms, i, h); }
    RenamedIsPipeline(t, ms);
    RenamedIsCanonical(t, ms, h);
    InjectHolds(s, d, unread, order, gs, h);
    InjectIsFaithful(s, d, unread, order, gs, h);
    FaithfulAt(r.session, qs, r.deployed, fs, i, h);
    DeployedUnlessMissing(qs, s, d, unread, order, gs, i, h);
    var st := At(r.session, qs, r.deployed, fs, i);
    if !st.skipping && f.ok { StatementIsThereIff(r.session, qs, r.deployed, fs, i, h, f); }
  }

  /** What a Bind and a Describe of a statement do that is there: the portal is bound to the text, with the arguments,
      and the description is the text's. */
  predicate Serves(st: Session, m: Request, q: Request, f: Fate, text: Query) {
    var after := Serve(st, q, f);
    if m.Bind? then
      && after.replies == [BindComplete] && m.portal in after.session.portals
      && after.session.portals[m.portal] == Portal(text, m.args)
    else
      && m.DescribeStmt? && q.DescribeStmt? && q.stmt in st.prepared && st.prepared[q.stmt] == text
      && after == Served(st, [ParameterDescription, Shape(f)])
  }

  lemma PresentServes(st: Session, m: Request, h: Hash, f: Fate, text: Query)
    requires NamesStatement(m) && !st.skipping && f.ok && Shared(h) in st.prepared && st.prepared[Shared(h)] == text
    ensures Serves(st, m, Aimed(m, h), f, text)
  {
  }

  // --- Where it fails ---

  /** The hash ignores inlined values but the text keeps them: a client's Bind runs the values of another client. */
  lemma InlinedValuesLeak(canonical: string, mine: seq<string>, theirs: seq<string>, name: string, f: Fate)
    requires mine != theirs && f.ok
    ensures var t := NameTable(map[], 0);
      var h := HashOf(canonical);
      var first := Serve(FRESH, RenameOne(t, Parse(Named("a"), Dml(canonical, theirs))).msg, f).session;
      var mapped := RenameOne(t, Parse(Named(name), Dml(canonical, mine)));
      && Deployed(mapped.msg, Held(first))
      && Serve(first, RenameOne(mapped.table, Bind("", Named(name), [])).msg, f).session.portals[""].query
           == Dml(canonical, theirs) != Dml(canonical, mine)
  {
    var first := Serve(FRESH, Parse(Shared(HashOf(canonical)), Dml(canonical, theirs)), f).session;
    HeldIs(first, HashOf(canonical));
  }

  /** A pipeline after a failed Flush: deployment reports success although the server has discarded its Parse, and its
      Sync ends the discarding, so what follows is executed and the Bind fails. */
  lemma DeploymentEndsDiscarding(s: Session, d: set<Hash>, h: Hash, f: Fate, portal: string, args: seq<string>)
    requires s.skipping && Tracks(d, s, h) && h !in d && f.ok
    ensures var r := InjectOne(s, d, [], h, f);
      && r.ok && h !in r.deployed && !r.session.skipping
      && Serve(s, Bind(portal, Shared(h), args), f).replies == []
      && Serve(r.session, Bind(portal, Shared(h), args), f).replies == [Error]
  {
    HeldIs(s, h);
  }

  /** With two statements to deploy the second one is, and its Bind runs where the server would have discarded it. */
  lemma SecondDeploymentRuns(s: Session, d: set<Hash>, g: Hash, h: Hash, f: Fate, portal: string, args: seq<string>)
    requires s.skipping && Tracks(d, s, h) && g != h && h !in d && f.ok && f.commits
    ensures var r := Inject(s, d, [], [g, h], [f, f]);
      && r.ok && Serve(s, Bind(portal, Shared(h), args), f).replies == []
      && Serve(r.session, Bind(portal, Shared(h), args), f).replies == [BindComplete]
  {
    hide Held;
    var a := InjectOne(s, d, [], g, f);
    assert [g, h][..1] == [g] && [f, f][..1] == [f] && [g][..0] == [] && [f][..0] == [];
    assert Inject(s, d, [], [g], [f]) == a;
    InjectOneHolds(s, d, [], g, f, h);
    HeldIs(a.session, h);
    HeldIs(s, h);
    InjectOneHolds(a.session, a.deployed, [], h, f, h);
  }

  /** Closing a mapped name is sent as closing the unnamed statement: it leaves the session alone if and only if the
      server is discarding or the client has no unnamed statement, and otherwise that one is gone. */
  lemma CloseDropsUnnamedIff(t: NameTable, name: string, s: Session, f: Fate)
    requires name in t.names
    ensures var after := Serve(s, RenameOne(t, CloseStmt(Named(name))).msg, f).session;
      && (after == s <==> s.skipping || Unnamed !in s.prepared)
      && (after != s ==> after == s.(prepared := s.prepared - {Unnamed}))
  {
    assert Unnamed !in s.prepared ==> s.prepared - {Unnamed} == s.prepared;
  }
}
