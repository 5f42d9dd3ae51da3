/**
 One backend connection between two uses: what a pipeline leaves to be read, what reading it records, and
 when the connection is fit to be given to somebody else.
 */
module Connection {
  import opened Protocol
  import opened Naming
  import opened Deployment
  import opened Virtual

  /** A backend with its session, the replies on the wire and the record of deployed statements. */
  datatype Conn = Conn(session: Session, unread: seq<Reply>, deployed: set<Hash>)

  /** Which loop reads the replies. */
  datatype Kind = Extended | Flushed | Plain | Cached(hash: Hash) | Notice

  datatype Job = Job(kind: Kind, sent: seq<Hash>, wasPinned: bool)

  const NEW := Conn(FRESH, [], {})

  // --- Reading ---

  predicate Ends(r: Reply, kind: Kind) {
    if kind.Flushed? then r.RowDescription? || r.NoData? || r.Error? else r.Ready?
  }

  /** How many replies the loop reads; more than there are when it would block. */
  function Length(rs: seq<Reply>, kind: Kind): (n: nat)
    ensures 1 <= n <= |rs| + 1
  {
    if rs == [] then 1 else if Ends(rs[0], kind) then 1 else 1 + Length(rs[1..], kind)
  }

  function Record(d: set<Hash>, job: Job, rs: seq<Reply>): set<Hash> {
    match job.kind
    case Extended => Marked(d, job.sent, Acks(rs))
    case Flushed => Marked(d, job.sent, Acks(rs))
    case Cached(h) => if ParseComplete in rs then d + {h} else d
    case _ => d
  }

  /** The connection after n replies have been read. */
  function Read(c: Conn, job: Job, n: nat): Conn
    requires n <= |c.unread|
  {
    Conn(c.session, c.unread[n..], Record(c.deployed, job, c.unread[..n]))
  }

  /** The status that the last of the n replies read reports. */
  function Reported(conn: Conn, n: nat): Tx
    requires 0 < n <= |conn.unread|
  {
    if conn.unread[n - 1].Ready? then conn.unread[n - 1].tx else Idle
  }

  /** In step with a hash: nothing on the wire, and the record says of it what the session holds. */
  predicate AtRest(c: Conn, h: Hash) { c.unread == [] && Tracks(c.deployed, c.session, h) }

  /** If the job's reading ends, the connection is in step again. */
  predicate Settles(c: Conn, job: Job, h: Hash) {
    var n := Length(c.unread, job.kind);
    n <= |c.unread| ==> AtRest(Read(c, job, n), h)
  }

  /** Clean: nothing on the wire, outside a transaction, no statement of a client's own. */
  predicate Clean(c: Conn) {
    c.unread == [] && c.session.tx.Idle? && !c.session.skipping && Private(c.session) == {}
  }

  predicate NoReady(rs: seq<Reply>) { forall r :: r in rs ==> !r.Ready? }

  /** The only ReadyForQuery on the wire, if there is one, is the last reply and tells the session's status. */
  predicate Answered(c: Conn) {
    NoReady(c.unread)
    || (c.unread != [] && NoReady(c.unread[..|c.unread| - 1]) && !c.session.skipping
        && c.unread[|c.unread| - 1] == Ready(c.session.tx))
  }

  /** The same while a job waits for its replies; a Flush brings no ReadyForQuery, and a NOTIFY leaves the session
      clean. */
  predicate Tells(c: Conn, job: Job) {
    if job.kind.Flushed? then NoReady(c.unread)
    else Answered(c) && (job.kind.Notice? ==> c.session.tx.Idle? && Private(c.session) == {})
  }

  lemma {:induction false} LengthAtEnd(rs: seq<Reply>, last: Reply, kind: Kind)
    requires (forall r :: r in rs ==> !Ends(r, kind)) && Ends(last, kind)
    ensures Length(rs + [last], kind) == |rs| + 1
  {
    if rs != [] {
      assert (rs + [last])[1..] == rs[1..] + [last];
      LengthAtEnd(rs[1..], last, kind);
    }
  }

  lemma {:induction false} LengthPrefix(a: seq<Reply>, b: seq<Reply>, kind: Kind)
    ensures Length(a, kind) <= |a| ==> Length(a + b, kind) == Length(a, kind)
    ensures Length(a, kind) > |a| ==> Length(a + b, kind) == |a| + Length(b, kind)
  {
    if a == [] {
      assert a + b == b;
    } else {
      assert (a + b)[1..] == a[1..] + b;
      LengthPrefix(a[1..], b, kind);
    }
  }

  /** Reading ends exactly when one of the replies ends it. */
  lemma {:induction false} LengthFinds(rs: seq<Reply>, kind: Kind)
    ensures Length(rs, kind) <= |rs| <==> exists r :: r in rs && Ends(r, kind)
  {
    if rs != [] {
      LengthFinds(rs[1..], kind);
      assert forall r :: r in rs <==> r == rs[0] || r in rs[1..];
    }
  }

  lemma {:induction false} NoReadyInside(s: Session, ms: seq<Request>, fs: seq<Fate>)
    requires |fs| == |ms| && Body(ms)
    ensures NoReady(ServeAll(s, ms, fs).replies)
    decreases |ms|
  {
    if ms != [] {
      var n := |ms| - 1;
      NoReadyInside(s, ms[..n], fs[..n]);
      assert Inside(ms[n]);
    }
  }

  // --- A pipeline on a connection ---

  /** A client pipeline on a connection, with what the environment decides: the order of deployment and the fates. */
  datatype Delivery = Delivery(order: seq<Hash>, gs: seq<Fate>, fs: seq<Fate>, last: Fate)

  function Injected(c: Conn, v: Delivery): Deploying
    requires |v.gs| == |v.order|
  {
    Inject(c.session, c.deployed, c.unread, v.order, v.gs)
  }

  ghost predicate Fits(c: Conn, msgs: seq<Request>, v: Delivery) {
    && |v.gs| == |v.order|
    && Orders(v.order, msgs, c.deployed)
    && |v.fs| == |Forward(msgs, Injected(c, v).deployed)|
  }

  /** The connection after deployment and forwarding; the pipeline ends with Sync or Flush. */
  function Deliver(c: Conn, msgs: seq<Request>, end: Request, v: Delivery): Conn
    requires |v.gs| == |v.order| && |v.fs| == |Forward(msgs, Injected(c, v).deployed)|
  {
    var inj := Injected(c, v);
    var run := ServeAll(inj.session, Forward(msgs, inj.deployed), v.fs);
    var done := Serve(run.session, end, v.last);
    Conn(done.session, (if v.order == [] then c.unread else []) + run.replies + done.replies, inj.deployed)
  }

  lemma FirstSnoc(ps: seq<StmtName>, n: StmtName, h: Hash)
    ensures ParsedFirst(ps + [n], h)
       <==> ParsedFirst(ps, h) && (n == Shared(h) && n !in ps ==> forall x :: x in ps ==> x.Shared?)
  {
    var us := ps + [n];
    if ParsedFirst(us, h) {
      forall i, j | 0 <= i < j < |ps| && ps[j] == Shared(h) && !ps[i].Shared? ensures Shared(h) in ps[..i] {
        assert us[i] == ps[i] && us[j] == ps[j] && us[..i] == ps[..i];
      }
      if n == Shared(h) && n !in ps {
        forall x | x in ps ensures x.Shared? {
          var i :| 0 <= i < |ps| && ps[i] == x;
          assert us[i] == x && us[|ps|] == n && us[..i] == ps[..i];
          assert Shared(h) !in ps[..i];
        }
      }
    }
    if ParsedFirst(ps, h) && (n == Shared(h) && n !in ps ==> forall x :: x in ps ==> x.Shared?) {
      forall i, j | 0 <= i < j < |us| && us[j] == Shared(h) && !us[i].Shared? ensures Shared(h) in us[..i] {
        assert us[i] == ps[i] && us[..i] == ps[..i];
        if j == |ps| && Shared(h) in ps {
          var k :| 0 <= k < |ps| && ps[k] == Shared(h);
          if k < i { assert ps[..i][k] == Shared(h); }
        }
      }
    }
  }

  /** What is parsed first stays so among the messages that are forwarded. */
  lemma {:induction false} FirstOfForward(ms: seq<Request>, d: set<Hash>, h: Hash)
    requires h !in d
    ensures forall n :: n in Parses(Forward(ms, d)) ==> n in Parses(ms)
    ensures Shared(h) in Parses(ms) ==> Shared(h) in Parses(Forward(ms, d))
    ensures ParsedFirst(Parses(ms), h) ==> ParsedFirst(Parses(Forward(ms, d)), h)
  {
    if ms != [] {
      var n := |ms| - 1;
      FirstOfForward(ms[..n], d, h);
      var ps, fw, qs := Parses(ms[..n]), Forward(ms[..n], d), Parses(Forward(ms[..n], d));
      var m := ms[n];
      assert Parses(ms) == ps + if m.Parse? then [m.stmt] else [];
      assert ps + [] == ps && fw + [] == fw;
      if m.Parse? { FirstSnoc(ps, m.stmt, h); }
      if !Deployed(m, d) {
        ParsesSnoc(fw, m);
        assert Parses(Forward(ms, d)) == qs + if m.Parse? then [m.stmt] else [];
        assert qs + [] == qs;
        if m.Parse? { FirstSnoc(qs, m.stmt, h); }
      }
      hide Forward, Parses, ParsedFirst;
    }
  }

  /** A pipeline in which no Parse of the client's own stands before the first one of a hash, unless the backend has the
      statement anyway: once its replies are read the record is right about that hash. */
  lemma DeliverySettles(c: Conn, msgs: seq<Request>, end: Request, v: Delivery, job: Job, h: Hash)
    requires AtRest(c, h) && Fits(c, msgs, v) && Injected(c, v).ok
    requires Body(msgs) && NoEviction(msgs) && (h in Injected(c, v).deployed || ParsedFirst(Parses(msgs), h))
    requires job.sent == Sent(Forward(msgs, Injected(c, v).deployed))
    requires (end.Sync? && job.kind.Extended?) || (end.Flush? && job.kind.Flushed? && DescribeLast(msgs))
    ensures Settles(Deliver(c, msgs, end, v), job, h)
  {
    hide ServeAll, Forward, Parses, ParsedFirst, Inject, Held, Private, Acks, Length, Orders, DescribeLast, Serve,
      Overtakes,
      Marked;
    var inj := Injected(c, v);
    var fw := Forward(msgs, inj.deployed);
    InjectHolds(c.session, c.deployed, c.unread, v.order, v.gs, h);
    ForwardSelects(msgs, inj.deployed);
    var run := ServeAll(inj.session, fw, v.fs);
    var done := Serve(run.session, end, v.last);
    if h !in inj.deployed {
      FirstOfForward(msgs, inj.deployed, h);
      FirstIsNotOvertaken(Parses(fw), |Acked(inj.session, fw, v.fs)|, h);
    }
    MarkIsRightIff(inj.session, inj.deployed, fw, v.fs, h);
    HeldAfter(run.session, end, v.last);
    EndAnswers(run.session, end, v.last);
    var next := Deliver(c, msgs, end, v);
    assert next.unread == run.replies + done.replies;
    NoAcks(done.replies);
    AcksCat(run.replies, done.replies);
    ReadsAll(inj.session, fw, v.fs, end, v.last, job.kind, msgs, inj.deployed);
    assert next.unread[..|next.unread|] == next.unread && next.unread[|next.unread|..] == [];
  }

  /** The answer to Sync or Flush. */
  lemma EndAnswers(s: Session, end: Request, f: Fate)
    requires end.Sync? || end.Flush?
    ensures var r := Serve(s, end, f);
      && ParseComplete !in r.replies
      && (end.Flush? ==> r.replies == [])
      && (end.Sync? ==> !r.session.skipping && r.replies != [] && NoReady(r.replies[..|r.replies| - 1])
                        && r.replies[|r.replies| - 1] == Ready(r.session.tx))
  {
  }

  lemma ReadsAll(s: Session, fw: seq<Request>, fs: seq<Fate>, end: Request, f: Fate, kind: Kind, msgs: seq<Request>,
                 d: set<Hash>)
    requires |fs| == |fw| && fw == Forward(msgs, d) && Body(fw)
    requires (end.Sync? && kind.Extended?) || (end.Flush? && kind.Flushed? && DescribeLast(msgs))
    ensures var run := ServeAll(s, fw, fs);
      var rs := run.replies + Serve(run.session, end, f).replies;
      Length(rs, kind) <= |rs| ==> Length(rs, kind) == |rs|
  {
    hide ServeAll, Serve, Length, DescribeLast, Forward;
    var run := ServeAll(s, fw, fs);
    var done := Serve(run.session, end, f).replies;
    EndAnswers(run.session, end, f);
    if end.Sync? {
      NoReadyInside(s, fw, fs);
      var front := run.replies + done[..|done| - 1];
      assert run.replies + done == front + [done[|done| - 1]];
      LengthAtEnd(front, done[|done| - 1], kind);
    } else {
      assert run.replies + [] == run.replies;
      ForwardKeepsDescribeLast(msgs, d);
      DescribeLastReadsAll(s, fw, fs);
    }
  }

  /** Any pipeline: the only ReadyForQuery comes last and tells the status. */
  lemma DeliveryAnswers(c: Conn, msgs: seq<Request>, end: Request, v: Delivery)
    requires NoReady(c.unread) && Fits(c, msgs, v) && Body(msgs)
    ensures end.Sync? ==> Answered(Deliver(c, msgs, end, v))
    ensures end.Flush? ==> NoReady(Deliver(c, msgs, end, v).unread)
  {
    hide ServeAll, Forward, Inject, Private, Orders, Serve;
    var inj := Injected(c, v);
    var fw := Forward(msgs, inj.deployed);
    ForwardSelects(msgs, inj.deployed);
    var run := ServeAll(inj.session, fw, v.fs);
    var rs := Serve(run.session, end, v.last).replies;
    NoReadyInside(inj.session, fw, v.fs);
    var front := (if v.order == [] then c.unread else []) + run.replies;
    var next := Deliver(c, msgs, end, v);
    assert next.unread == front + rs;
    assert NoReady(front);
    if end.Sync? {
      EndAnswers(run.session, end, v.last);
      assert next.unread[..|next.unread| - 1] == front + rs[..|rs| - 1];
    } else if end.Flush? {
      EndAnswers(run.session, end, v.last);
    }
  }

  // --- Flush ---

  predicate Describes(m: Request) { m.DescribeStmt? || m.DescribePortal? }

  /** Position of the first Describe, or the length. */
  function FirstDescribe(ms: seq<Request>): (n: nat)
    ensures n <= |ms|
    ensures n < |ms| ==> Describes(ms[n])
    ensures forall i :: 0 <= i < n ==> !Describes(ms[i])
  {
    if ms == [] || Describes(ms[0]) then 0 else 1 + FirstDescribe(ms[1..])
  }

  /** The only Describe, if there is one, is the last message. */
  predicate DescribeLast(ms: seq<Request>) { forall i :: 0 <= i < |ms| && Describes(ms[i]) ==> i == |ms| - 1 }

  lemma {:induction false} ForwardKeepsDescribeLast(ms: seq<Request>, d: set<Hash>)
    requires DescribeLast(ms)
    ensures DescribeLast(Forward(ms, d))
  {
    if ms != [] {
      var n := |ms| - 1;
      forall m | m in Forward(ms[..n], d) ensures !Describes(m) {
        ForwardSelects(ms[..n], d);
        var k :| 0 <= k < n && ms[k] == m;
      }
      assert Forward(ms, d) == Forward(ms[..n], d) + if Deployed(ms[n], d) then [] else [ms[n]];
    }
  }

  /** One message in a session that is not discarding: what it answers, and whether that ends the reading after
      Flush. */
  lemma OneAnswer(s: Session, m: Request, f: Fate)
    requires Inside(m) && !s.skipping
    ensures var r := Serve(s, m, f);
      && r.replies != []
      && (forall x :: x in r.replies[..|r.replies| - 1] ==> !Ends(x, Flushed))
      && (Ends(r.replies[|r.replies| - 1], Flushed) <==> r.session.skipping || Describes(m))
  {
    if m.Execute? { ExecuteAnswer(s, m, f); } else { ShortAnswer(s, m, f); }
    hide Serve;
  }

  lemma ExecuteAnswer(s: Session, m: Request, f: Fate)
    requires m.Execute? && !s.skipping
    ensures var r := Serve(s, m, f);
      && r.replies != []
      && (forall x :: x in r.replies[..|r.replies| - 1] ==> !Ends(x, Flushed))
      && (Ends(r.replies[|r.replies| - 1], Flushed) <==> r.session.skipping)
  {
    var rs := Serve(s, m, f).replies;
    if m.portal in s.portals {
      assert rs == DataRows(f) + [rs[|rs| - 1]];
      assert rs[..|rs| - 1] == DataRows(f);
    }
  }

  lemma ShortAnswer(s: Session, m: Request, f: Fate)
    requires Inside(m) && !m.Execute? && !s.skipping
    ensures var r := Serve(s, m, f);
      && r.replies != []
      && (forall x :: x in r.replies[..|r.replies| - 1] ==> !Ends(x, Flushed))
      && (Ends(r.replies[|r.replies| - 1], Flushed) <==> r.session.skipping || Describes(m))
  {
    hide RunPortal, ServeQuery, DataRows;
  }

  lemma OneAnswerLength(s: Session, m: Request, f: Fate)
    requires Inside(m) && !s.skipping
    ensures var r := Serve(s, m, f);
      && r.replies != []
      && Length(r.replies, Flushed) == (if r.session.skipping || Describes(m) then |r.replies| else |r.replies| + 1)
  {
    hide Serve;
    OneAnswer(s, m, f);
    var rs := Serve(s, m, f).replies;
    var front, last := rs[..|rs| - 1], rs[|rs| - 1];
    assert rs == front + [last];
    LengthFinds(front, Flushed);
    LengthFinds([last], Flushed);
    LengthPrefix(front, [last], Flushed);
    assert last in [last];
  }

  /** Without a Describe: reading ends at the last reply if a request failed, and not at all otherwise. */
  lemma {:induction false} UndescribedLength(s: Session, ms: seq<Request>, fs: seq<Fate>)
    requires |fs| == |ms| && Body(ms) && !s.skipping && FirstDescribe(ms) == |ms|
    ensures var r := ServeAll(s, ms, fs);
      Length(r.replies, Flushed) == if r.session.skipping then |r.replies| else |r.replies| + 1
    decreases |ms|
  {
    hide Serve, FirstDescribe;
    if ms != [] {
      var n := |ms| - 1;
      UndescribedPrefix(ms, n);
      UndescribedLength(s, ms[..n], fs[..n]);
      var a := ServeAll(s, ms[..n], fs[..n]);
      var b := Serve(a.session, ms[n], fs[n]);
      LengthPrefix(a.replies, b.replies, Flushed);
      if a.session.skipping {
        ServeInside(a.session, ms[n], fs[n]);
        assert a.replies + [] == a.replies;
      } else {
        OneAnswerLength(a.session, ms[n], fs[n]);
      }
    }
  }

  lemma UndescribedPrefix(ms: seq<Request>, k: nat)
    requires k <= FirstDescribe(ms)
    ensures FirstDescribe(ms[..k]) == k && (k < FirstDescribe(ms) ==> !Describes(ms[k]))
  {
    assert FirstDescribe(ms[..k]) <= k;
  }

  /** After Flush the reading takes every reply, for one outcome, exactly when a request failed up to the first Describe
      or that Describe is the last message. */
  lemma FlushReadsAllIff(s: Session, ms: seq<Request>, fs: seq<Fate>)
    requires |fs| == |ms| && Body(ms) && !s.skipping
    ensures var rs, i := ServeAll(s, ms, fs).replies, FirstDescribe(ms);
      Length(rs, Flushed) == |rs| <==> After(s, ms, fs, Least(i + 1, |ms|)).skipping || i + 1 == |ms|
  {
    hide Serve, ServeAll, FirstDescribe, Length;
    var i := FirstDescribe(ms);
    if i == |ms| {
      UndescribedLength(s, ms, fs);
      assert ms[..i] == ms && fs[..i] == fs;
    } else {
      UndescribedPrefix(ms, i);
      UndescribedLength(s, ms[..i], fs[..i]);
      var a := ServeAll(s, ms[..i], fs[..i]);
      var rest := ServeAll(a.session, ms[i..], fs[i..]);
      ServeCat(s, ms[..i], fs[..i], ms[i..], fs[i..]);
      assert ms[..i] + ms[i..] == ms && fs[..i] + fs[i..] == fs;
      LengthPrefix(a.replies, rest.replies, Flushed);
      if a.session.skipping {
        SkippingStays(s, ms, fs, i, i + 1);
        Discarded(a.session, ms[i..], fs[i..]);
        assert a.replies + [] == a.replies;
      } else {
        DescribeIsRead(a.session, ms[i..], fs[i..]);
        AfterStep(s, ms, fs, i);
      }
    }
  }

  /** From the first Describe on, in a session that is not discarding. */
  lemma DescribeIsRead(s: Session, ms: seq<Request>, fs: seq<Fate>)
    requires |fs| == |ms| > 0 && Body(ms) && !s.skipping && Describes(ms[0])
    ensures var rs := ServeAll(s, ms, fs).replies;
      && Length(rs, Flushed) <= |rs|
      && (Length(rs, Flushed) == |rs| <==> Serve(s, ms[0], fs[0]).session.skipping || |ms| == 1)
  {
    hide Serve, Length, ServeAll;
    var a := Serve(s, ms[0], fs[0]);
    var ns, gs := ms[1..], fs[1..];
    assert ms == [ms[0]] + ns && fs == [fs[0]] + gs;
    Front(s, ms[0], ns, fs[0], gs);
    var b := ServeAll(a.session, ns, gs);
    OneAnswerLength(s, ms[0], fs[0]);
    LengthPrefix(a.replies, b.replies, Flushed);
    if a.session.skipping {
      Discarded(a.session, ns, gs);
    } else if ns != [] {
      Front(a.session, ns[0], ns[1..], gs[0], gs[1..]);
      assert ns == [ns[0]] + ns[1..] && gs == [gs[0]] + gs[1..];
      OneAnswerLength(a.session, ns[0], gs[0]);
    } else {
      EmptyRun(a.session);
    }
  }

  lemma EmptyRun(s: Session)
    ensures ServeAll(s, [], []) == Served(s, [])
  {
  }

  /** After Flush the reading ends, for one outcome, exactly when a request failed or some Describe was forwarded. */
  lemma FlushEndsIff(s: Session, ms: seq<Request>, fs: seq<Fate>)
    requires |fs| == |ms| && Body(ms) && !s.skipping
    ensures var r := ServeAll(s, ms, fs);
      Length(r.replies, Flushed) <= |r.replies| <==> r.session.skipping || FirstDescribe(ms) < |ms|
  {
    hide Serve, ServeAll, FirstDescribe, Length;
    var i := FirstDescribe(ms);
    if i == |ms| {
      UndescribedLength(s, ms, fs);
    } else {
      UndescribedPrefix(ms, i);
      UndescribedLength(s, ms[..i], fs[..i]);
      var a := ServeAll(s, ms[..i], fs[..i]);
      ServeCat(s, ms[..i], fs[..i], ms[i..], fs[i..]);
      assert ms[..i] + ms[i..] == ms && fs[..i] + fs[i..] == fs;
      LengthPrefix(a.replies, ServeAll(a.session, ms[i..], fs[i..]).replies, Flushed);
      if !a.session.skipping { DescribeIsRead(a.session, ms[i..], fs[i..]); }
    }
  }

  lemma EndOfRun(s: Session, ms: seq<Request>, fs: seq<Fate>)
    requires |fs| == |ms|
    ensures After(s, ms, fs, |ms|) == ServeAll(s, ms, fs).session
  {
    assert ms[..|ms|] == ms && fs[..|fs|] == fs;
  }

  /** Over all outcomes: the reading always ends if and only if some Describe is forwarded, or no outcome gets
      through. */
  lemma FlushAlwaysEndsIff(s: Session, ms: seq<Request>)
    requires Body(ms) && !s.skipping
    ensures (forall fs: seq<Fate> :: |fs| == |ms| ==>
               var rs := ServeAll(s, ms, fs).replies; Length(rs, Flushed) <= |rs|)
       <==> FirstDescribe(ms) < |ms| || ServeAll(s, ms, All(SUCCESS, |ms|)).session.skipping
  {
    hide Serve, ServeAll, FirstDescribe, Length, After;
    FlushEndsIff(s, ms, All(SUCCESS, |ms|));
    forall fs: seq<Fate> | |fs| == |ms|
      ensures var r := ServeAll(s, ms, fs);
        (Length(r.replies, Flushed) <= |r.replies| <==> r.session.skipping || FirstDescribe(ms) < |ms|)
        && (!r.session.skipping ==> !ServeAll(s, ms, All(SUCCESS, |ms|)).session.skipping)
    {
      FlushEndsIff(s, ms, fs);
      EndOfRun(s, ms, fs);
      EndOfRun(s, ms, All(SUCCESS, |ms|));
      if !After(s, ms, fs, |ms|).skipping { SuccessGoesFurthest(s, ms, fs, |ms|); }
    }
  }

  /** If the only Describe is the last message, a reading that ends has taken every reply. */
  lemma DescribeLastReadsAll(s: Session, ms: seq<Request>, fs: seq<Fate>)
    requires |fs| == |ms| && Body(ms) && DescribeLast(ms)
    ensures var rs := ServeAll(s, ms, fs).replies; Length(rs, Flushed) <= |rs| ==> Length(rs, Flushed) == |rs|
  {
    hide Serve, ServeAll, FirstDescribe, After;
    if s.skipping {
      Discarded(s, ms, fs);
    } else {
      FlushReadsAllIff(s, ms, fs);
      FlushEndsIff(s, ms, fs);
      EndOfRun(s, ms, fs);
    }
  }

  /** Over all outcomes: a reading that ends has taken every reply if and only if the only Describe is the last message,
      or the first one can never be reached. */
  lemma FlushAlwaysReadsAllIff(s: Session, ms: seq<Request>)
    requires Body(ms) && !s.skipping
    ensures (forall fs: seq<Fate> :: |fs| == |ms| ==>
               var rs := ServeAll(s, ms, fs).replies; Length(rs, Flushed) <= |rs| ==> Length(rs, Flushed) == |rs|)
       <==> DescribeLast(ms) || After(s, ms, All(SUCCESS, |ms|), Least(FirstDescribe(ms) + 1, |ms|)).skipping
  {
    hide Serve, ServeAll, Length, After;
    var i := FirstDescribe(ms);
    FlushReadsAllIff(s, ms, All(SUCCESS, |ms|));
    FlushEndsIff(s, ms, All(SUCCESS, |ms|));
    if DescribeLast(ms) {
      hide DescribeLast, FirstDescribe;
      forall fs: seq<Fate> | |fs| == |ms|
        ensures var rs := ServeAll(s, ms, fs).replies; Length(rs, Flushed) <= |rs| ==> Length(rs, Flushed) == |rs|
      {
        DescribeLastReadsAll(s, ms, fs);
      }
    } else {
      var k :| 0 <= k < |ms| && Describes(ms[k]) && k != |ms| - 1;
      assert i <= k;
      hide FirstDescribe;
      forall fs: seq<Fate> | |fs| == |ms| && After(s, ms, All(SUCCESS, |ms|), i + 1).skipping
        ensures var rs := ServeAll(s, ms, fs).replies; Length(rs, Flushed) == |rs|
      {
        FlushReadsAllIff(s, ms, fs);
        if !After(s, ms, fs, i + 1).skipping { SuccessGoesFurthest(s, ms, fs, i + 1); }
      }
    }
  }

  /** Parse, Describe, Flush: the reading stops at the last reply, whatever happens. */
  lemma DescribedFlushSettles(s: Session, n: StmtName, q: Query, f: Fate, g: Fate)
    requires !s.skipping
    ensures var rs := ServeAll(s, [Parse(n, q), DescribeStmt(n)], [f, g]).replies; Length(rs, Flushed) == |rs|
  {
    hide ServeAll, Length;
    var ms := [Parse(n, q), DescribeStmt(n)];
    DescribeLastReadsAll(s, ms, [f, g]);
    FlushEndsIff(s, ms, [f, g]);
    assert Describes(ms[1]);
    assert FirstDescribe(ms) <= 1;
  }

  /** Without a Describe the reading after Flush never ends. */
  lemma BareFlushBlocks(s: Session, n: StmtName, q: Query, f: Fate)
    requires !s.skipping && f.ok && n !in s.prepared
    ensures var rs := Serve(s, Parse(n, q), f).replies; Length(rs, Flushed) > |rs|
  {
    assert [ParseComplete][1..] == [];
  }

  /** A Parse after the Describe: its acknowledgement stays unread, and the statement is held without being recorded. */
  lemma EarlyStopLeavesUnmarked(s: Session, n: StmtName, q: Query, h: Hash)
    requires !s.skipping && n != Shared(h) && n !in s.prepared && Shared(h) !in s.prepared
    ensures var ms := [Parse(n, q), DescribeStmt(n), Parse(Shared(h), Canonical(h))];
      var r := ServeAll(s, ms, All(SUCCESS, 3));
      var k := Length(r.replies, Flushed);
      k <= |r.replies| && ParseComplete in r.replies[k..] && h in Held(r.session)
  {
    var a, b, c := Parse(n, q), DescribeStmt(n), Parse(Shared(h), Canonical(h));
    var fs := All(SUCCESS, 3);
    assert fs == [SUCCESS] + ([SUCCESS] + [SUCCESS]) && [a, b, c] == [a] + ([b] + [c]);
    var s1 := Serve(s, a, SUCCESS);
    var s2 := Serve(s1.session, b, SUCCESS);
    Front(s, a, [b] + [c], SUCCESS, [SUCCESS] + [SUCCESS]);
    Front(s1.session, b, [c], SUCCESS, [SUCCESS]);
    Front(s2.session, c, [], SUCCESS, []);
    EmptyRun(Serve(s2.session, c, SUCCESS).session);
    assert [c] + [] == [c] && [SUCCESS] + [] == [SUCCESS];
    var r := ServeAll(s, [a, b, c], fs);
    var front := [ParseComplete, ParameterDescription];
    assert r.replies == front + [NoData] + [ParseComplete];
    LengthAtEnd(front, NoData, Flushed);
    LengthPrefix(front + [NoData], [ParseComplete], Flushed);
    assert r.replies[3..] == [ParseComplete];
    HeldIs(r.session, h);
  }

  // --- The statements of the client's own ---

  /** A Close of a name that the client had not mapped. */
  predicate OwnClose(t: NameTable, m: Request) { m.CloseStmt? && m.stmt.Named? && m.stmt.name !in t.names }

  /** The Close finds its statement: it is not discarded, and the client has parsed it. */
  predicate Lands(m: Request, s: Session)
    requires m.CloseStmt?
  {
    !s.skipping && m.stmt in s.prepared
  }

  /** The Close does no harm to the count: it lands, or the count was above the number of statements, or already
      zero. */
  predicate CloseCounts(t: NameTable, m: Request, s: Session) {
    OwnClose(t, m) ==> Lands(m, s) || |Private(s)| < t.count || t.count == 0
  }

  /** One message keeps the count above the number of the client's own statements exactly then. */
  lemma PrivateAfterIff(s: Session, t: NameTable, m: Request, f: Fate)
    requires FromClient(m) && Inside(m) && |Private(s)| <= t.count
    ensures |Private(Serve(s, RenameOne(t, m).msg, f).session)| <= RenameOne(t, m).table.count <==> CloseCounts(t, m, s)
  {
    var q := RenameOne(t, m).msg;
    var after := Serve(s, q, f).session;
    if m.Parse? && m.stmt.Named? && m.query.Other? {
      assert Private(after) <= Private(s) + {m.stmt};
      Smaller(Private(after), Private(s) + {m.stmt});
    } else if OwnClose(t, m) {
      if Lands(m, s) {
        assert m.stmt in Private(s);
        assert Private(after) == Private(s) - {m.stmt};
      } else {
        assert Private(after) == Private(s);
      }
    } else {
      assert Private(after) == Private(s);
    }
  }

  /** An exact count stays exact with one message if and only if a Parse of an own statement is acknowledged and a Close
      of one lands. */
  lemma CountStaysExactIff(s: Session, t: NameTable, m: Request, f: Fate)
    requires FromClient(m) && Inside(m) && |Private(s)| == t.count
    ensures var r := Serve(s, RenameOne(t, m).msg, f);
      |Private(r.session)| == RenameOne(t, m).table.count
      <==> (m.Parse? && Counts(t, m) ==> ParseComplete in r.replies) && (OwnClose(t, m) ==> Lands(m, s) || t.count == 0)
  {
    var p, q := Private(s), Private(Serve(s, RenameOne(t, m).msg, f).session);
    if m.Parse? && Counts(t, m) {
      if ParseComplete in Serve(s, RenameOne(t, m).msg, f).replies {
        assert q == p + {m.stmt} && m.stmt !in p;
      } else {
        assert q == p;
      }
    } else if OwnClose(t, m) {
      if Lands(m, s) { assert q == p - {m.stmt} && m.stmt in p; } else { assert q == p; }
    } else {
      assert q == p;
    }
  }

  lemma Smaller(a: set<StmtName>, b: set<StmtName>)
    requires a <= b
    ensures |a| <= |b|
  {
    assert b == a + (b - a) && a !! (b - a);
  }

  /** Every Close of a pipeline does no harm, in the outcome fs. */
  ghost predicate ClosesCount(t: NameTable, ms: seq<Request>, s: Session, d: set<Hash>, fs: seq<Fate>)
    requires |fs| == |Forward(Rename(t, ms).msgs, d)|
  {
    forall i :: 0 <= i < |ms| ==> CloseCounts(Rename(t, ms[..i]).table, ms[i], At(s, Rename(t, ms).msgs, d, fs, i))
  }

  /** The count is right when the pipeline reaches message i. */
  ghost predicate CountHolds(t: NameTable, ms: seq<Request>, s: Session, d: set<Hash>, fs: seq<Fate>, i: nat)
    requires i <= |ms| && |fs| == |Forward(Rename(t, ms).msgs, d)|
  {
    |Private(At(s, Rename(t, ms).msgs, d, fs, i))| <= Rename(t, ms[..i]).table.count
  }

  lemma CountStep(t: NameTable, ms: seq<Request>, s: Session, d: set<Hash>, fs: seq<Fate>, i: nat)
    requires i < |ms| && |fs| == |Forward(Rename(t, ms).msgs, d)| && ClientPipeline(ms)
        && CountHolds(t, ms, s, d, fs, i)
    ensures CountHolds(t, ms, s, d, fs, i + 1)
       <==> CloseCounts(Rename(t, ms[..i]).table, ms[i], At(s, Rename(t, ms).msgs, d, fs, i))
  {
    hide At, Forward, Serve, Private, RenameOne, Deployed;
    var qs := Rename(t, ms).msgs;
    AtStep(s, qs, d, fs, i);
    RenamedAt(t, ms, i);
    assert ms[..i + 1][..i] == ms[..i];
    var before, ti := At(s, qs, d, fs, i), Rename(t, ms[..i]).table;
    assert FromClient(ms[i]) && Inside(ms[i]);
    if Deployed(qs[i], d) {
      DeployedKeepsCount(ti, ms[i], d);
    } else {
      PrivateAfterIff(before, ti, ms[i], fs[|Forward(qs[..i], d)|]);
    }
  }

  /** The count never falls below the number of the client's own statements on its backend. */
  lemma {:induction false} PrivateAt(s: Session, t: NameTable, ms: seq<Request>, d: set<Hash>, fs: seq<Fate>, i: nat)
    requires i <= |ms| && |fs| == |Forward(Rename(t, ms).msgs, d)|
    requires ClientPipeline(ms) && |Private(s)| <= t.count && ClosesCount(t, ms, s, d, fs)
    ensures CountHolds(t, ms, s, d, fs, i)
    decreases i
  {
    hide At, Forward, Private, Rename, CloseCounts;
    if i == 0 {
      assert ms[..0] == [];
      AtStart(s, Rename(t, ms).msgs, d, fs);
      assert Rename(t, []).table == t by { NothingRenamed(t); }
    } else {
      PrivateAt(s, t, ms, d, fs, i - 1);
      CountStep(t, ms, s, d, fs, i - 1);
    }
  }

  lemma NothingRenamed(t: NameTable)
    ensures Rename(t, []) == Pipeline(t, [], false)
  {
  }

  /** Over a pipeline: the count stays right throughout if and only if no Close does harm. */
  lemma CountHoldsIff(s: Session, t: NameTable, ms: seq<Request>, d: set<Hash>, fs: seq<Fate>)
    requires |fs| == |Forward(Rename(t, ms).msgs, d)| && ClientPipeline(ms) && |Private(s)| <= t.count
    ensures (forall i :: 0 <= i <= |ms| ==> CountHolds(t, ms, s, d, fs, i)) <==> ClosesCount(t, ms, s, d, fs)
  {
    hide At, Forward, Private, Rename, CloseCounts, CountHolds;
    if forall i :: 0 <= i <= |ms| ==> CountHolds(t, ms, s, d, fs, i) {
      forall i | 0 <= i < |ms|
        ensures CloseCounts(Rename(t, ms[..i]).table, ms[i], At(s, Rename(t, ms).msgs, d, fs, i))
      {
        CountStep(t, ms, s, d, fs, i);
      }
    }
    if ClosesCount(t, ms, s, d, fs) {
      forall i | 0 <= i <= |ms| ensures CountHolds(t, ms, s, d, fs, i) { PrivateAt(s, t, ms, d, fs, i); }
    }
  }

  lemma DeployedKeepsCount(t: NameTable, m: Request, d: set<Hash>)
    requires FromClient(m) && Deployed(RenameOne(t, m).msg, d)
    ensures RenameOne(t, m).table.count == t.count && CloseCounts(t, m, FRESH)
    ensures forall s :: CloseCounts(t, m, s)
  {
  }

  predicate Closes(m: Request) { m.CloseStmt? || m.ClosePortal? }

  /** What a client can check: nothing but Closes goes to the backend before the Close, and the statement is the
      client's and is not closed twice. */
  predicate CloseIsSafe(qs: seq<Request>, s: Session, d: set<Hash>, i: nat, n: StmtName)
    requires i <= |qs|
  {
    && !s.skipping && n in s.prepared
    && forall j :: 0 <= j < i ==> Deployed(qs[j], d) || (Closes(qs[j]) && qs[j] != CloseStmt(n))
  }

  /** Every Close of the client's own finds its statement. */
  ghost predicate ClosesLand(t: NameTable, ms: seq<Request>, s: Session, d: set<Hash>, fs: seq<Fate>)
    requires |fs| == |Forward(Rename(t, ms).msgs, d)|
  {
    forall i :: 0 <= i < |ms| && OwnClose(Rename(t, ms[..i]).table, ms[i]) ==>
      Lands(ms[i], At(s, Rename(t, ms).msgs, d, fs, i))
  }

  lemma {:induction false} AtSkips(s: Session, qs: seq<Request>, d: set<Hash>, fs: seq<Fate>, i: nat, j: nat)
    requires i <= j <= |qs| && |fs| == |Forward(qs, d)| && Body(qs)
    ensures At(s, qs, d, fs, i).skipping ==> At(s, qs, d, fs, j).skipping
    decreases j
  {
    hide At, Serve;
    if i < j {
      AtSkips(s, qs, d, fs, i, j - 1);
      AtStep(s, qs, d, fs, j - 1);
      if !Deployed(qs[j - 1], d) {
        ServeInside(At(s, qs, d, fs, j - 1), qs[j - 1], fs[|Forward(qs[..j - 1], d)|]);
      }
    }
  }

  /** A statement stays while only Closes of others go by. */
  lemma {:induction false} StaysThroughCloses(s: Session, qs: seq<Request>, d: set<Hash>, fs: seq<Fate>, i: nat,
                                              n: StmtName)
    requires i <= |qs| && |fs| == |Forward(qs, d)| && Body(qs) && !s.skipping
    requires forall j :: 0 <= j < i ==> Deployed(qs[j], d) || Closes(qs[j])
    ensures !At(s, qs, d, fs, i).skipping
    ensures n in At(s, qs, d, fs, i).prepared <==> n in s.prepared && forall j :: 0 <= j < i ==> qs[j] != CloseStmt(n)
    decreases i
  {
    hide At;
    if i == 0 {
      AtStart(s, qs, d, fs);
    } else {
      StaysThroughCloses(s, qs, d, fs, i - 1, n);
      AtStep(s, qs, d, fs, i - 1);
    }
  }

  lemma FailureStops(s: Session, m: Request)
    requires Inside(m) && !Closes(m)
    ensures Serve(s, m, FAILURE).session.skipping
  {
  }

  /** For every outcome the Close at i finds its statement if and only if it is safe. */
  lemma LandsForEveryOutcomeIff(s: Session, qs: seq<Request>, d: set<Hash>, i: nat, n: StmtName)
    requires i <= |qs| && Body(qs)
    ensures (forall fs: seq<Fate> :: |fs| == |Forward(qs, d)| ==> Lands(CloseStmt(n), At(s, qs, d, fs, i)))
       <==> CloseIsSafe(qs, s, d, i, n)
  {
    hide At, Serve, Forward;
    var fails := All(FAILURE, |Forward(qs, d)|);
    if CloseIsSafe(qs, s, d, i, n) {
      forall fs: seq<Fate> | |fs| == |Forward(qs, d)| ensures Lands(CloseStmt(n), At(s, qs, d, fs, i)) {
        StaysThroughCloses(s, qs, d, fs, i, n);
      }
    } else if s.skipping {
      AtStart(s, qs, d, fails);
      AtSkips(s, qs, d, fails, 0, i);
      assert !Lands(CloseStmt(n), At(s, qs, d, fails, i));
    } else if j :| 0 <= j < i && !Deployed(qs[j], d) && !Closes(qs[j]) {
      AtStep(s, qs, d, fails, j);
      FailureStops(At(s, qs, d, fails, j), qs[j]);
      AtSkips(s, qs, d, fails, j + 1, i);
      assert !Lands(CloseStmt(n), At(s, qs, d, fails, i));
    } else {
      StaysThroughCloses(s, qs, d, fails, i, n);
      assert !Lands(CloseStmt(n), At(s, qs, d, fails, i));
    }
  }

  /** A Close sent on its own for a statement that the backend holds is in order. */
  lemma LoneCloseLands(t: NameTable, s: Session, d: set<Hash>, name: string, f: Fate)
    requires !s.skipping && Named(name) in s.prepared && name !in t.names
    ensures |Forward(Rename(t, [CloseStmt(Named(name))]).msgs, d)| == 1
    ensures ClosesLand(t, [CloseStmt(Named(name))], s, d, [f]) && ClosesCount(t, [CloseStmt(Named(name))], s, d, [f])
  {
    var m := CloseStmt(Named(name));
    assert [m][..0] == [];
    NothingRenamed(t);
    var qs := Rename(t, [m]).msgs;
    assert qs == [] + [m] && qs[..0] == [];
    assert Forward(qs, d) == [] + [m];
    AtStart(s, qs, d, [f]);
    LandingCounts(t, [m], s, d, [f]);
  }

  /** Closes that find their statements do no harm to the count. */
  lemma LandingCounts(t: NameTable, ms: seq<Request>, s: Session, d: set<Hash>, fs: seq<Fate>)
    requires |fs| == |Forward(Rename(t, ms).msgs, d)| && ClosesLand(t, ms, s, d, fs)
    ensures ClosesCount(t, ms, s, d, fs)
  {
    hide At, Rename, Private, Forward;
  }

  /** A Close that is discarded after an error still lowers the count: it may reach zero while the statement lives. */
  lemma DiscardedCloseIsCounted(t: NameTable, s: Session, name: string, f: Fate)
    requires s.skipping && Named(name) in s.prepared && name !in t.names && t.count == 1
    ensures var m := CloseStmt(Named(name));
      RenameOne(t, m).table.count == 0 && Named(name) in Private(Serve(s, RenameOne(t, m).msg, f).session)
  {
  }

  /** So does a Close of a name that was never parsed. */
  lemma StrayCloseIsCounted(t: NameTable, s: Session, name: string, other: string, f: Fate)
    requires name != other && Named(name) in s.prepared && other !in t.names && t.count == 1
    ensures var m := CloseStmt(Named(other));
      RenameOne(t, m).table.count == 0 && Named(name) in Private(Serve(s, RenameOne(t, m).msg, f).session)
  {
  }
}
