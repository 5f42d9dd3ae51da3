/**
 What a backend holds against what the pooler has recorded: forwarding a rewritten pipeline, counting the
 acknowledgements, and deploying the statements that a Bind needs.
 */
module Deployment {
  import opened Sequences
  import opened Protocol

  // --- Phase 4: forwarding ---

  predicate Deployed(m: Request, d: set<Hash>) { m.Parse? && m.stmt.Shared? && m.stmt.hash in d }

  /** The messages that go to the backend: a Parse of a statement recorded as deployed is answered by the pooler. */
  function Forward(ms: seq<Request>, d: set<Hash>): seq<Request> {
    if ms == [] then []
    else
      var n := |ms| - 1;
      Forward(ms[..n], d) + if Deployed(ms[n], d) then [] else [ms[n]]
  }

  /** The statement names of the Parse messages, in order. */
  function Parses(ms: seq<Request>): seq<StmtName> {
    if ms == [] then []
    else
      var n := |ms| - 1;
      Parses(ms[..n]) + if ms[n].Parse? then [ms[n].stmt] else []
  }

  function SharedOf(ns: seq<StmtName>): seq<Hash> {
    if ns == [] then []
    else
      var n := |ns| - 1;
      SharedOf(ns[..n]) + if ns[n].Shared? then [ns[n].hash] else []
  }

  /** sentParseHashes: the shared Parse messages among those forwarded. */
  function Sent(ms: seq<Request>): seq<Hash> { SharedOf(Parses(ms)) }

  // --- Phase 5: acknowledgements ---

  function Acks(rs: seq<Reply>): nat {
    if rs == [] then 0 else Acks(rs[..|rs| - 1]) + if rs[|rs| - 1].ParseComplete? then 1 else 0
  }

  function Least(a: nat, b: nat): nat { if a < b then a else b }

  /** The k-th ParseComplete marks the k-th sent hash, whatever Parse it answers. */
  function Marked(d: set<Hash>, sent: seq<Hash>, acks: nat): set<Hash> {
    d + SetOf(sent[..Least(acks, |sent|)])
  }

  /** The Parse messages that the session acknowledges, in order. */
  function Acked(s: Session, ms: seq<Request>, fs: seq<Fate>): seq<StmtName>
    requires |fs| == |ms|
    decreases |ms|
  {
    if ms == [] then []
    else
      var n := |ms| - 1;
      var before := ServeAll(s, ms[..n], fs[..n]).session;
      Acked(s, ms[..n], fs[..n])
        + if ms[n].Parse? && ParseComplete in Serve(before, ms[n], fs[n]).replies then [ms[n].stmt] else []
  }

  /** The inside of a pipeline: Sync and Flush only end it, and no simple query is part of it. */
  predicate Inside(m: Request) { !m.Sync? && !m.Flush? && !m.SimpleQuery? }

  predicate Body(ms: seq<Request>) { forall m :: m in ms ==> Inside(m) }

  predicate KeepsShared(m: Request) { !(m.CloseStmt? && m.stmt.Shared?) }

  predicate NoEviction(ms: seq<Request>) { forall m :: m in ms ==> KeepsShared(m) }

  lemma AcksCat(rs: seq<Reply>, us: seq<Reply>)
    ensures Acks(rs + us) == Acks(rs) + Acks(us)
    decreases |us|
  {
    if us == [] {
      assert rs + us == rs;
    } else {
      assert (rs + us)[..|rs + us| - 1] == rs + us[..|us| - 1];
      AcksCat(rs, us[..|us| - 1]);
    }
  }

  lemma {:induction false} NoAcks(rs: seq<Reply>)
    requires ParseComplete !in rs
    ensures Acks(rs) == 0
  {
    if rs != [] { NoAcks(rs[..|rs| - 1]); }
  }

  lemma AnswersToParse(s: Session, m: Request, f: Fate)
    ensures var rs := Serve(s, m, f).replies;
      if m.Parse? then rs == [] || rs == [ParseComplete] || rs == [Error] else ParseComplete !in rs
  {
  }

  lemma OneAck(s: Session, m: Request, f: Fate)
    ensures Acks(Serve(s, m, f).replies) == if m.Parse? && ParseComplete in Serve(s, m, f).replies then 1 else 0
  {
    AnswersToParse(s, m, f);
    var rs := Serve(s, m, f).replies;
    hide Serve;
    if ParseComplete in rs {
      assert rs[..0] == [];
    } else {
      NoAcks(rs);
    }
  }

  lemma {:induction false} AcksCountAcked(s: Session, ms: seq<Request>, fs: seq<Fate>)
    requires |fs| == |ms|
    ensures Acks(ServeAll(s, ms, fs).replies) == |Acked(s, ms, fs)|
    decreases |ms|
  {
    hide Serve;
    if ms != [] {
      var n := |ms| - 1;
      var a := ServeAll(s, ms[..n], fs[..n]);
      AcksCountAcked(s, ms[..n], fs[..n]);
      OneAck(a.session, ms[n], fs[n]);
      AcksCat(a.replies, Serve(a.session, ms[n], fs[n]).replies);
    }
  }

  /** One request inside a pipeline: either it is discarded or fails, or a Parse is acknowledged. */
  lemma ServeInside(s: Session, m: Request, f: Fate)
    requires Inside(m)
    ensures var r := Serve(s, m, f);
      && (s.skipping ==> r.session == s && r.replies == [])
      && (m.Parse? && !r.session.skipping ==> ParseComplete in r.replies)
  {
  }

  /** Once a request has failed, everything inside the pipeline is discarded. */
  lemma {:induction false} Discarded(s: Session, ms: seq<Request>, fs: seq<Fate>)
    requires |ms| == |fs| && Body(ms) && s.skipping
    ensures ServeAll(s, ms, fs) == Served(s, [])
    decreases |ms|
  {
    hide Serve;
    if ms != [] {
      var n := |ms| - 1;
      Discarded(s, ms[..n], fs[..n]);
      ServeInside(s, ms[n], fs[n]);
    }
  }

  /** Discarding after an error acknowledges a prefix of the Parse messages. */
  lemma {:induction false} AckedIsPrefix(s: Session, ms: seq<Request>, fs: seq<Fate>)
    requires |fs| == |ms| && Body(ms)
    ensures Acked(s, ms, fs) <= Parses(ms)
    ensures !ServeAll(s, ms, fs).session.skipping ==> Acked(s, ms, fs) == Parses(ms)
    decreases |ms|
  {
    hide Serve;
    if ms != [] {
      var n := |ms| - 1;
      AckedIsPrefix(s, ms[..n], fs[..n]);
      ServeInside(ServeAll(s, ms[..n], fs[..n]).session, ms[n], fs[n]);
    }
  }

  lemma SharedSplit(ns: seq<StmtName>, k: nat)
    requires k <= |ns|
    ensures SharedOf(ns[..k]) <= SharedOf(ns)
    ensures |SharedOf(ns[..k])| <= k
    decreases |ns|
  {
    if k < |ns| {
      assert ns[..|ns| - 1][..k] == ns[..k];
      SharedSplit(ns[..|ns| - 1], k);
    } else {
      assert ns[..k] == ns;
      if k > 0 { SharedSplit(ns[..k - 1], k - 1); assert ns[..k - 1][..k - 1] == ns[..k - 1]; }
    }
  }

  lemma HeldAfter(s: Session, m: Request, f: Fate)
    requires KeepsShared(m)
    ensures Held(Serve(s, m, f).session) ==
            Held(s) + (if m.Parse? && m.stmt.Shared?
                && ParseComplete in Serve(s, m, f).replies then {m.stmt.hash} else {})
  {
    var t := Serve(s, m, f).session;
    forall h ensures h in Held(s) <==> Shared(h) in s.prepared { HeldIs(s, h); }
    forall h ensures h in Held(t) <==> Shared(h) in t.prepared { HeldIs(t, h); }
    var acked := m.Parse? && ParseComplete in Serve(s, m, f).replies;
    assert forall h :: Shared(h) in t.prepared <==> (Shared(h) in s.prepared || (acked && m.stmt == Shared(h)));
  }

  lemma SharedSnoc(ns: seq<StmtName>, n: StmtName)
    ensures SharedOf(ns + [n]) == SharedOf(ns) + if n.Shared? then [n.hash] else []
    ensures SetOf(SharedOf(ns + [n])) == SetOf(SharedOf(ns)) + if n.Shared? then {n.hash} else {}
  {
    assert (ns + [n])[..|ns|] == ns;
  }

  lemma HeldIs(s: Session, h: Hash)
    ensures h in Held(s) <==> Shared(h) in s.prepared
  {
    assert Shared(h) in s.prepared ==> Shared(h).hash == h;
  }

  /** A pipeline that never closes a shared statement adds exactly the acknowledged ones. */
  lemma {:induction false} HeldGrows(s: Session, ms: seq<Request>, fs: seq<Fate>)
    requires |fs| == |ms| && NoEviction(ms)
    ensures Held(ServeAll(s, ms, fs).session) == Held(s) + SetOf(SharedOf(Acked(s, ms, fs)))
    decreases |ms|
  {
    hide Serve, Held;
    if ms == [] {
      assert SetOf(SharedOf([])) == {};
    } else {
      var n := |ms| - 1;
      HeldGrows(s, ms[..n], fs[..n]);
      HeldAfter(ServeAll(s, ms[..n], fs[..n]).session, ms[n], fs[n]);
      var acked := Acked(s, ms[..n], fs[..n]);
      SharedSnoc(acked, if ms[n].Parse? then ms[n].stmt else Unnamed);
      assert acked + [] == acked;
    }
  }

  /** Nothing that is forwarded is recorded as deployed already. */
  lemma {:induction false} SentIsNew(ms: seq<Request>, d: set<Hash>)
    ensures SetOf(Sent(Forward(ms, d))) !! d
  {
    if ms == [] {
      assert Sent([]) == [];
    } else {
      var n := |ms| - 1;
      SentIsNew(ms[..n], d);
      var fw := Forward(ms[..n], d);
      assert (fw + [ms[n]])[..|fw|] == fw && fw + [] == fw;
      assert Parses(fw) + [] == Parses(fw);
      SharedSnoc(Parses(fw), if ms[n].Parse? then ms[n].stmt else Unnamed);
    }
  }

  lemma {:induction false} InSharedOf(ns: seq<StmtName>, h: Hash)
    ensures h in SharedOf(ns) <==> Shared(h) in ns
  {
    if ns != [] {
      var n := |ns| - 1;
      InSharedOf(ns[..n], h);
      assert ns == ns[..n] + [ns[n]];
    }
  }

  /** The record is right about a hash. */
  predicate Tracks(d: set<Hash>, s: Session, h: Hash) { h in d <==> h in Held(s) }

  /** After the first a Parse messages the marks have reached h, although its own Parse is not among them. */
  predicate Overtakes(ps: seq<StmtName>, a: nat, h: Hash) {
    h in SharedOf(ps)[..Least(a, |SharedOf(ps)|)] && Shared(h) !in ps[..Least(a, |ps|)]
  }

  /** The record says of h what the session holds, after an outcome. */
  predicate RightAbout(s: Session, d: set<Hash>, ms: seq<Request>, fs: seq<Fate>, h: Hash)
    requires |ms| == |fs|
  {
    Tracks(Marked(d, Sent(ms), Acks(ServeAll(s, ms, fs).replies)), ServeAll(s, ms, fs).session, h)
  }

  /** The record is right about a hash precisely when the acknowledgements have not overtaken it. */
  lemma MarkIsRightIff(s: Session, d: set<Hash>, ms: seq<Request>, fs: seq<Fate>, h: Hash)
    requires |fs| == |ms| && Body(ms) && NoEviction(ms) && Tracks(d, s, h)
    ensures RightAbout(s, d, ms, fs, h) <==> h in d || !Overtakes(Parses(ms), |Acked(s, ms, fs)|, h)
  {
    hide Serve, ServeAll, Acked, Acks, Held, Parses, SharedOf;
    var acked, ps := Acked(s, ms, fs), Parses(ms);
    AckedIsPrefix(s, ms, fs);
    AcksCountAcked(s, ms, fs);
    HeldGrows(s, ms, fs);
    SharedSplit(ps, |acked|);
    assert acked == ps[..|acked|];
    InSharedOf(acked, h);
    assert h in SharedOf(acked) ==> h in SharedOf(ps)[..Least(|acked|, |SharedOf(ps)|)];
  }

  /** The record after an outcome is exact. */
  predicate ExactAfter(s: Session, d: set<Hash>, ms: seq<Request>, fs: seq<Fate>)
    requires |ms| == |fs|
  {
    Marked(d, Sent(ms), Acks(ServeAll(s, ms, fs).replies)) == Held(ServeAll(s, ms, fs).session)
  }

  lemma ExactIsRight(s: Session, d: set<Hash>, ms: seq<Request>, fs: seq<Fate>)
    requires |ms| == |fs|
    ensures ExactAfter(s, d, ms, fs) <==> forall h :: RightAbout(s, d, ms, fs, h)
  {
    hide ServeAll, Held, Acks, Sent;
    var a, b := Marked(d, Sent(ms), Acks(ServeAll(s, ms, fs).replies)), Held(ServeAll(s, ms, fs).session);
    assert forall h :: RightAbout(s, d, ms, fs, h) <==> (h in a <==> h in b);
    hide Marked, RightAbout;
    assert a == b <==> forall h :: h in a <==> h in b;
  }

  /** The record stays exact precisely when the acknowledgements have overtaken nothing; without repeated hashes, when
      no Parse of the client's own was acknowledged or every forwarded shared one was. */
  lemma MarksAreExactIff(s: Session, d: set<Hash>, ms: seq<Request>, fs: seq<Fate>)
    requires |fs| == |ms| && Body(ms) && NoEviction(ms) && d == Held(s)
    ensures ExactAfter(s, d, ms, fs) <==> forall h :: h in d || !Overtakes(Parses(ms), |Acked(s, ms, fs)|, h)
    ensures Distinct(Sent(ms)) && SetOf(Sent(ms)) !! d ==>
              var acked := Acked(s, ms, fs);
              ExactAfter(s, d, ms, fs) <==> |SharedOf(acked)| == |acked| || |SharedOf(acked)| == |Sent(ms)|
  {
    hide Serve, ServeAll, Acked, Acks, Held, Parses, SharedOf, Overtakes, Distinct;
    forall h ensures RightAbout(s, d, ms, fs, h) <==> h in d || !Overtakes(Parses(ms), |Acked(s, ms, fs)|, h) {
      MarkIsRightIff(s, d, ms, fs, h);
    }
    ExactIsRight(s, d, ms, fs);
    hide ExactAfter, RightAbout;
    if Distinct(Sent(ms)) && SetOf(Sent(ms)) !! d {
      AckedIsPrefix(s, ms, fs);
      assert Acked(s, ms, fs) == Parses(ms)[..|Acked(s, ms, fs)|];
      OvertakenIff(Parses(ms), |Acked(s, ms, fs)|);
      forall h | Overtakes(Parses(ms), |Acked(s, ms, fs)|, h) ensures h !in d {
        OvertakenIsSent(Parses(ms), |Acked(s, ms, fs)|, h);
        assert h in SetOf(Sent(ms));
      }
    }
  }

  lemma OvertakenIsSent(ps: seq<StmtName>, a: nat, h: Hash)
    requires Overtakes(ps, a, h)
    ensures h in SharedOf(ps)
  {
  }

  lemma OvertakenIff(ps: seq<StmtName>, a: nat)
    requires a <= |ps| && Distinct(SharedOf(ps))
    ensures (exists h :: Overtakes(ps, a, h))
       <==> |SharedOf(ps[..a])| != a && |SharedOf(ps[..a])| != |SharedOf(ps)|
  {
    var sent, m := SharedOf(ps), |SharedOf(ps[..a])|;
    SharedSplit(ps, a);
    hide SharedOf;
    forall h ensures h in sent[..m] <==> Shared(h) in ps[..a] { InSharedOf(ps[..a], h); }
    if m < a && m < |sent| {
      assert sent[m] in sent[..Least(a, |sent|)];
      assert Overtakes(ps, a, sent[m]);
    }
  }

  /** Whatever is repeated, the record never misses a statement that the backend holds. */
  lemma MarksCoverHeld(s: Session, d: set<Hash>, ms: seq<Request>, fs: seq<Fate>)
    requires |fs| == |ms| && Body(ms) && NoEviction(ms) && d == Held(s)
    ensures Held(ServeAll(s, ms, fs).session) <= Marked(d, Sent(ms), Acks(ServeAll(s, ms, fs).replies))
  {
    hide Serve, ServeAll, Acked, Acks, Held, Parses, SharedOf;
    var acked, sent := Acked(s, ms, fs), Sent(ms);
    AckedIsPrefix(s, ms, fs);
    AcksCountAcked(s, ms, fs);
    HeldGrows(s, ms, fs);
    SharedSplit(Parses(ms), |acked|);
    assert acked == Parses(ms)[..|acked|];
    var a, b := |SharedOf(acked)|, Least(|acked|, |sent|);
    assert SharedOf(acked) == sent[..a] <= sent[..b];
    assert SetOf(sent[..a]) <= SetOf(sent[..b]);
  }

  /** No Parse of the client's own stands before a forwarded shared one. */
  predicate SharedFirst(ns: seq<StmtName>) {
    forall i, j :: 0 <= i < j < |ns| && ns[j].Shared? ==> ns[i].Shared?
  }

  /** No Parse of the client's own stands before the first one of h. */
  predicate ParsedFirst(ps: seq<StmtName>, h: Hash) {
    forall i, j :: 0 <= i < j < |ps| && ps[j] == Shared(h) && !ps[i].Shared? ==> Shared(h) in ps[..i]
  }

  lemma {:induction false} SharedPrefix(ps: seq<StmtName>, n: nat)
    requires n <= |ps| && forall i :: 0 <= i < n ==> ps[i].Shared?
    ensures |SharedOf(ps[..n])| == n && SharedOf(ps[..n]) <= SharedOf(ps)
  {
    SharedSplit(ps, n);
    if n > 0 {
      SharedPrefix(ps, n - 1);
      assert ps[..n][..n - 1] == ps[..n - 1];
    }
  }

  /** Acknowledgements do not overtake what is parsed first. */
  lemma FirstIsNotOvertaken(ps: seq<StmtName>, a: nat, h: Hash)
    requires ParsedFirst(ps, h)
    ensures !Overtakes(ps, a, h)
  {
    hide SharedOf;
    if Overtakes(ps, a, h) {
      OvertakenIsSent(ps, a, h);
      InSharedOf(ps, h);
      var p := FirstOf(ps, Shared(h));
      SharedPrefix(ps, p);
      InSharedOf(ps[..p], h);
    }
  }

  lemma {:induction false} FirstOf(ps: seq<StmtName>, n: StmtName) returns (p: nat)
    requires n in ps
    ensures p < |ps| && ps[p] == n && n !in ps[..p]
  {
    p := 0;
    while ps[p] != n
      invariant p < |ps| && n !in ps[..p] && n in ps[p..]
      decreases |ps| - p
    {
      assert ps[p..] == [ps[p]] + ps[p + 1..];
      p := p + 1;
    }
  }

  /** A condition on the messages alone: shared Parse messages first, repeated or not. */
  lemma SharedFirstIsExact(s: Session, d: set<Hash>, ms: seq<Request>, fs: seq<Fate>)
    requires |fs| == |ms| && Body(ms) && NoEviction(ms)
    requires d == Held(s) && SharedFirst(Parses(ms))
    ensures ExactAfter(s, d, ms, fs)
  {
    hide Serve, ServeAll, Acked, Acks, Held, Parses, SharedOf, ExactAfter, Overtakes;
    forall h ensures !Overtakes(Parses(ms), |Acked(s, ms, fs)|, h) {
      assert ParsedFirst(Parses(ms), h);
      FirstIsNotOvertaken(Parses(ms), |Acked(s, ms, fs)|, h);
    }
    MarksAreExactIff(s, d, ms, fs);
  }

  // --- Exact for every outcome ---

  const SUCCESS := Fate(true, true, false, [], Idle, true)

  const FAILURE := Fate(false, false, false, [], Idle, false)

  function All(f: Fate, n: nat): seq<Fate> { seq(n, i => f) }

  /** The session after the first k messages. */
  function After(s: Session, ms: seq<Request>, fs: seq<Fate>, k: nat): Session
    requires k <= |ms| == |fs|
  {
    ServeAll(s, ms[..k], fs[..k]).session
  }

  predicate OwnParse(m: Request) { m.Parse? && !m.stmt.Shared? }

  predicate SharedParse(m: Request) { m.Parse? && m.stmt.Shared? }

  lemma AfterPrefix(s: Session, ms: seq<Request>, fs: seq<Fate>, n: nat, k: nat)
    requires k <= n <= |ms| == |fs|
    ensures After(s, ms[..n], fs[..n], k) == After(s, ms, fs, k)
  {
    assert ms[..n][..k] == ms[..k] && fs[..n][..k] == fs[..k];
  }

  lemma AfterStep(s: Session, ms: seq<Request>, fs: seq<Fate>, k: nat)
    requires k < |ms| == |fs|
    ensures After(s, ms, fs, k + 1) == Serve(After(s, ms, fs, k), ms[k], fs[k]).session
  {
    hide Serve;
    assert ms[..k + 1][..k] == ms[..k] && fs[..k + 1][..k] == fs[..k];
  }

  lemma {:induction false} SkippingStays(s: Session, ms: seq<Request>, fs: seq<Fate>, i: nat, j: nat)
    requires i <= j <= |ms| == |fs| && Body(ms)
    ensures After(s, ms, fs, i).skipping ==> After(s, ms, fs, j).skipping
    decreases j
  {
    hide Serve, After;
    if i < j {
      SkippingStays(s, ms, fs, i, j - 1);
      AfterStep(s, ms, fs, j - 1);
      ServeInside(After(s, ms, fs, j - 1), ms[j - 1], fs[j - 1]);
    }
  }

  lemma LastAck(s: Session, ms: seq<Request>, fs: seq<Fate>)
    requires |ms| == |fs| > 0 && Body(ms)
    ensures var n := |ms| - 1;
      var acked := ms[n].Parse? && !After(s, ms, fs, n + 1).skipping;
      Acked(s, ms, fs) == Acked(s, ms[..n], fs[..n]) + if acked then [ms[n].stmt] else []
  {
    var n := |ms| - 1;
    assert ms[..n + 1] == ms && fs[..n + 1] == fs;
    var before := After(s, ms, fs, n);
    AfterStep(s, ms, fs, n);
    if ms[n].Parse? { AckIsSuccess(before, ms[n], fs[n]); }
    hide Serve;
  }

  lemma AckIsSuccess(s: Session, m: Request, f: Fate)
    requires m.Parse?
    ensures ParseComplete in Serve(s, m, f).replies <==> !Serve(s, m, f).session.skipping
  {
  }

  /** If some outcome gets through the messages, the one in which everything succeeds does, to the same statements and
      portals. */
  lemma {:induction false} SuccessGoesFurthest(s: Session, ms: seq<Request>, fs: seq<Fate>, k: nat)
    requires k <= |ms| == |fs| && Body(ms) && !After(s, ms, fs, k).skipping
    ensures var a, b := After(s, ms, fs, k), After(s, ms, All(SUCCESS, |ms|), k);
      !b.skipping && b.prepared == a.prepared && b.portals == a.portals
    decreases k
  {
    hide Serve, After;
    if k > 0 {
      SkippingStays(s, ms, fs, k - 1, k);
      SuccessGoesFurthest(s, ms, fs, k - 1);
      AfterStep(s, ms, fs, k - 1);
      AfterStep(s, ms, All(SUCCESS, |ms|), k - 1);
      SuccessFollows(After(s, ms, fs, k - 1), After(s, ms, All(SUCCESS, |ms|), k - 1), ms[k - 1], fs[k - 1]);
    } else {
      assert After(s, ms, fs, 0) == s == After(s, ms, All(SUCCESS, |ms|), 0)
          by { AfterNone(s, ms, fs); AfterNone(s, ms, All(SUCCESS, |ms|)); }
    }
  }

  lemma AfterNone(s: Session, ms: seq<Request>, fs: seq<Fate>)
    requires |ms| == |fs|
    ensures After(s, ms, fs, 0) == s
  {
    assert ms[..0] == [] && fs[..0] == [];
  }

  lemma SuccessFollows(a: Session, b: Session, m: Request, f: Fate)
    requires Inside(m) && !a.skipping && !b.skipping && a.prepared == b.prepared && a.portals == b.portals
    requires !Serve(a, m, f).session.skipping
    ensures var x, y := Serve(a, m, f).session, Serve(b, m, SUCCESS).session;
      !y.skipping && x.prepared == y.prepared && x.portals == y.portals
  {
  }

  /** Once k messages have succeeded, their acknowledgements have overtaken h. */
  predicate ShiftsAt(s: Session, d: set<Hash>, ms: seq<Request>, k: nat, h: Hash) {
    && k <= |ms| && h !in d && !After(s, ms, All(SUCCESS, |ms|), k).skipping
    && Overtakes(Parses(ms), |Parses(ms[..k])|, h)
  }

  /** The record is right about a hash for every outcome if and only if no run of successes overtakes it. */
  lemma RightForEveryOutcomeIff(s: Session, d: set<Hash>, ms: seq<Request>, h: Hash)
    requires Body(ms) && NoEviction(ms) && Tracks(d, s, h)
    ensures (forall fs: seq<Fate> :: |fs| == |ms| ==> RightAbout(s, d, ms, fs, h))
       <==> forall k: nat :: !ShiftsAt(s, d, ms, k, h)
  {
    hide Serve, ServeAll, After, Acked, Held, Parses, Body, NoEviction, RightAbout, Overtakes;
    if k: nat :| ShiftsAt(s, d, ms, k, h) {
      var fs := All(SUCCESS, k) + All(FAILURE, |ms| - k);
      CutOutcome(s, ms, k, |ms|);
      assert ms[..|ms|] == ms && fs[..|ms|] == fs;
      MarkIsRightIff(s, d, ms, fs, h);
      assert |fs| == |ms| && !RightAbout(s, d, ms, fs, h);
    } else {
      forall fs: seq<Fate> | |fs| == |ms| ensures RightAbout(s, d, ms, fs, h) {
        if !RightAbout(s, d, ms, fs, h) { var k := ShiftIsFound(s, d, ms, fs, h); }
      }
    }
  }

  lemma ShiftIsFound(s: Session, d: set<Hash>, ms: seq<Request>, fs: seq<Fate>, h: Hash) returns (k: nat)
    requires |fs| == |ms| && Body(ms) && NoEviction(ms) && Tracks(d, s, h) && !RightAbout(s, d, ms, fs, h)
    ensures ShiftsAt(s, d, ms, k, h)
  {
    assert ms[..0] == [] && Parses([]) == [];
    hide Serve, ServeAll, After, Acked, Held, Parses, Body, NoEviction, RightAbout, Overtakes;
    MarkIsRightIff(s, d, ms, fs, h);
    k := AckedCut(s, ms, fs);
    NothingOvertaken(Parses(ms), h);
    SuccessGoesFurthest(s, ms, fs, k);
  }

  /** The record is exact for every outcome if and only if no run of successes overtakes anything. */
  lemma ExactForEveryOutcomeIff(s: Session, d: set<Hash>, ms: seq<Request>)
    requires Body(ms) && NoEviction(ms) && d == Held(s)
    ensures (forall fs: seq<Fate> :: |fs| == |ms| ==> ExactAfter(s, d, ms, fs))
       <==> forall k: nat, h :: !ShiftsAt(s, d, ms, k, h)
  {
    hide ShiftsAt, Body, NoEviction, RightAbout, ExactAfter;
    if k: nat, h :| ShiftsAt(s, d, ms, k, h) {
      RightForEveryOutcomeIff(s, d, ms, h);
      var fs: seq<Fate> :| |fs| == |ms| && !RightAbout(s, d, ms, fs, h);
      ExactIsRight(s, d, ms, fs);
    } else {
      forall fs: seq<Fate> | |fs| == |ms| ensures ExactAfter(s, d, ms, fs) {
        forall h ensures RightAbout(s, d, ms, fs, h) { RightForEveryOutcomeIff(s, d, ms, h); }
        ExactIsRight(s, d, ms, fs);
      }
    }
  }

  lemma NothingOvertaken(ps: seq<StmtName>, h: Hash)
    ensures !Overtakes(ps, 0, h)
  {
  }

  /** How far an outcome gets: what it acknowledges is what the messages up to there parse. */
  lemma {:induction false} AckedCut(s: Session, ms: seq<Request>, fs: seq<Fate>) returns (k: nat)
    requires |ms| == |fs| && Body(ms)
    ensures k <= |ms| && |Parses(ms[..k])| == |Acked(s, ms, fs)|
    ensures s.skipping ==> k == 0
    ensures !s.skipping ==> !After(s, ms, fs, k).skipping && (k < |ms| ==> After(s, ms, fs, |ms|).skipping)
    decreases |ms|
  {
    hide Serve, After;
    AfterNone(s, ms, fs);
    if ms == [] {
      k := 0;
    } else {
      var n := |ms| - 1;
      k := AckedCut(s, ms[..n], fs[..n]);
      LastAck(s, ms, fs);
      assert ms[..n][..k] == ms[..k];
      AfterPrefix(s, ms, fs, n, k);
      AfterPrefix(s, ms, fs, n, n);
      SkippingStays(s, ms, fs, n, n + 1);
      SkippingStays(s, ms, fs, 0, n + 1);
      if !s.skipping && !After(s, ms, fs, n + 1).skipping {
        k := n + 1;
        assert ms[..n + 1] == ms;
      }
    }
  }

  /** Success up to message k and failure from there on acknowledges exactly the Parse messages before k. */
  lemma {:induction false} CutOutcome(s: Session, ms: seq<Request>, k: nat, n: nat)
    requires k <= n <= |ms| && Body(ms) && !After(s, ms, All(SUCCESS, |ms|), k).skipping
    ensures var fs := All(SUCCESS, k) + All(FAILURE, |ms| - k);
      Acked(s, ms[..n], fs[..n]) == Parses(ms[..k])
    decreases n
  {
    hide Serve, Parses, Acked, ServeAll;
    var fs := All(SUCCESS, k) + All(FAILURE, |ms| - k);
    if n == k {
      assert fs[..k] == All(SUCCESS, |ms|)[..k];
      AckedIsPrefix(s, ms[..k], fs[..k]);
    } else {
      hide After;
      CutOutcome(s, ms, k, n - 1);
      var us, gs := ms[..n], fs[..n];
      assert us[..n - 1] == ms[..n - 1] && gs[..n - 1] == fs[..n - 1] && gs[n - 1] == FAILURE;
      LastAck(s, us, gs);
      AfterStep(s, us, gs, n - 1);
      if us[n - 1].Parse? { FailureFails(After(s, us, gs, n - 1), us[n - 1]); }
    }
  }

  lemma FailureFails(s: Session, m: Request)
    requires m.Parse?
    ensures Serve(s, m, FAILURE).session.skipping
  {
  }

  /** A Parse of the client's own that the session can acknowledge, before a forwarded shared one. */
  predicate OwnBefore(s: Session, ms: seq<Request>, i: nat, j: nat) {
    i < j < |ms| && OwnParse(ms[i]) && SharedParse(ms[j]) && !After(s, ms, All(SUCCESS, |ms|), i + 1).skipping
  }

  lemma {:induction false} OwnIn(ms: seq<Request>, k: nat)
    requires k <= |ms|
    ensures |Sent(ms[..k])| <= |Parses(ms[..k])|
    ensures |Sent(ms[..k])| != |Parses(ms[..k])| <==> exists i :: 0 <= i < k && OwnParse(ms[i])
  {
    if k > 0 {
      OwnIn(ms, k - 1);
      assert ms[..k][..k - 1] == ms[..k - 1];
      var ps := Parses(ms[..k - 1]);
      SharedSnoc(ps, if ms[k - 1].Parse? then ms[k - 1].stmt else Unnamed);
      assert ps + [] == ps;
      hide SharedOf, Parses;
      assert (exists i :: 0 <= i < k && OwnParse(ms[i]))
        <==> (exists i :: 0 <= i < k - 1 && OwnParse(ms[i])) || OwnParse(ms[k - 1]);
    }
  }

  lemma {:induction false} SharedAfter(ms: seq<Request>, k: nat, n: nat)
    requires k <= n <= |ms|
    ensures Parses(ms[..k]) <= Parses(ms[..n]) && |Sent(ms[..k])| <= |Sent(ms[..n])|
    ensures |Sent(ms[..k])| != |Sent(ms[..n])| <==> exists j :: k <= j < n && SharedParse(ms[j])
    decreases n
  {
    if k < n {
      SharedAfter(ms, k, n - 1);
      assert ms[..n][..n - 1] == ms[..n - 1];
      var ps := Parses(ms[..n - 1]);
      SharedSnoc(ps, if ms[n - 1].Parse? then ms[n - 1].stmt else Unnamed);
      assert ps + [] == ps;
      hide SharedOf, Parses;
      assert (exists j :: k <= j < n && SharedParse(ms[j]))
        <==> (exists j :: k <= j < n - 1 && SharedParse(ms[j])) || SharedParse(ms[n - 1]);
    }
  }

  /** Without repeated hashes something is overtaken exactly when an acceptable Parse of the client's own stands before
      a shared one. */
  lemma ShiftsIffOwnBefore(s: Session, d: set<Hash>, ms: seq<Request>)
    requires Body(ms) && Distinct(Sent(ms)) && SetOf(Sent(ms)) !! d
    ensures (exists k: nat, h :: ShiftsAt(s, d, ms, k, h)) <==> exists i: nat, j: nat :: OwnBefore(s, ms, i, j)
  {
    hide After, Parses, SharedOf, Distinct, Body;
    if i: nat, j: nat :| OwnBefore(s, ms, i, j) {
      var h := ShiftOf(ms, i + 1, i, j);
      OvertakenIsSent(Parses(ms), |Parses(ms[..i + 1])|, h);
      assert h in SetOf(Sent(ms));
      assert ShiftsAt(s, d, ms, i + 1, h);
    }
    if k: nat, h :| ShiftsAt(s, d, ms, k, h) {
      var i, j := SplitOf(ms, k, h);
      SkippingStays(s, ms, All(SUCCESS, |ms|), i + 1, k);
      assert OwnBefore(s, ms, i, j);
    }
  }

  /** A Parse of the client's own before message k, a shared one from there on. */
  predicate Splits(ms: seq<Request>, k: nat, i: nat, j: nat) {
    i < k <= j < |ms| && OwnParse(ms[i]) && SharedParse(ms[j])
  }

  lemma SplitOf(ms: seq<Request>, k: nat, h: Hash) returns (i: nat, j: nat)
    requires k <= |ms| && Distinct(Sent(ms)) && Overtakes(Parses(ms), |Parses(ms[..k])|, h)
    ensures Splits(ms, k, i, j)
  {
    hide Parses, SharedOf, Distinct, OwnParse, SharedParse;
    OwnIn(ms, k);
    SharedAfter(ms, k, |ms|);
    assert ms[..|ms|] == ms;
    OvertakenIff(Parses(ms), |Parses(ms[..k])|);
    assert Parses(ms)[..|Parses(ms[..k])|] == Parses(ms[..k]);
    i :| 0 <= i < k && OwnParse(ms[i]);
    j :| k <= j < |ms| && SharedParse(ms[j]);
  }

  lemma ShiftOf(ms: seq<Request>, k: nat, i: nat, j: nat) returns (h: Hash)
    requires Distinct(Sent(ms)) && Splits(ms, k, i, j)
    ensures Overtakes(Parses(ms), |Parses(ms[..k])|, h)
  {
    hide Parses, SharedOf, Distinct, OwnParse, SharedParse;
    OwnIn(ms, k);
    SharedAfter(ms, k, |ms|);
    assert ms[..|ms|] == ms;
    assert OwnParse(ms[i]) && SharedParse(ms[j]);
    OvertakenIff(Parses(ms), |Parses(ms[..k])|);
    assert Parses(ms)[..|Parses(ms[..k])|] == Parses(ms[..k]);
    h :| Overtakes(Parses(ms), |Parses(ms[..k])|, h);
  }

  /** A private Parse before a shared one that fails: the record says deployed, the backend holds nothing. */
  lemma MixedParsesAreMisattributed(s: Session, own: Query, q: Query, h: Hash)
    requires !s.skipping && Shared(h) !in s.prepared
    ensures var ms := [Parse(Unnamed, own), Parse(Shared(h), q)];
      var r := ServeAll(s, ms, [SUCCESS, FAILURE]);
      && Sent(ms) == [h] && h in Marked({}, Sent(ms), Acks(r.replies)) && h !in Held(r.session)
  {
    hide ServeAll, Serve, Held, Acks, Sent, SUCCESS, FAILURE;
    var a, b := Parse(Unnamed, own), Parse(Shared(h), q);
    TwoServes(s, own, q, h);
    TwoInARow(s, a, b, SUCCESS, FAILURE);
    SentOfTwo(a, b, h);
    AcksCat([ParseComplete], [Error]);
    NoAcks([Error]);
    HeldIs(ServeAll(s, [a, b], [SUCCESS, FAILURE]).session, h);
    assert [h][..1] == [h] && h in [h];
  }

  lemma TwoServes(s: Session, own: Query, q: Query, h: Hash)
    requires !s.skipping && Shared(h) !in s.prepared
    ensures var x := Serve(s, Parse(Unnamed, own), SUCCESS);
      var y := Serve(x.session, Parse(Shared(h), q), FAILURE);
      x.replies == [ParseComplete] && y.replies == [Error] && Shared(h) !in y.session.prepared
  {
  }

  lemma TwoInARow(s: Session, a: Request, b: Request, f: Fate, g: Fate)
    ensures var x := Serve(s, a, f);
      var y := Serve(x.session, b, g);
      ServeAll(s, [a, b], [f, g]) == Served(y.session, x.replies + y.replies)
  {
    hide Serve;
    assert [a, b][..1] == [a] && [f, g][..1] == [f] && [a][..0] == [] && [f][..0] == [];
    assert [] + Serve(s, a, f).replies == Serve(s, a, f).replies;
    assert ServeAll(s, [a], [f]) == Serve(s, a, f);
  }

  lemma ParsesSnoc(ms: seq<Request>, m: Request)
    ensures Parses(ms + [m]) == Parses(ms) + if m.Parse? then [m.stmt] else []
  {
    assert (ms + [m])[..|ms|] == ms;
  }

  lemma SentOfTwo(a: Request, b: Request, h: Hash)
    requires OwnParse(a) && b.Parse? && b.stmt == Shared(h)
    ensures Sent([a, b]) == [h] && Acks([ParseComplete]) == 1
  {
    assert [ParseComplete][..0] == [];
    ParsesSnoc([], a);
    ParsesSnoc([a], b);
    SharedSnoc([], a.stmt);
    SharedSnoc([a.stmt], b.stmt);
    assert [] + [a] == [a] && [a] + [b] == [a, b] && [] + [a.stmt] == [a.stmt];
    assert Parses([]) == [] && SharedOf([]) == [];
    hide Parses, SharedOf;
  }
}
