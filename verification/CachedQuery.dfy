/**
 A simple query served from the statement cache: Parse when needed, Bind, Describe, Execute and Sync, with
 the replies of the extended protocol removed, answers exactly what the plain query would.
 */
module CachedQuery {
  import opened Protocol
  import opened Deployment
  import opened Virtual

  /** How the statement fares in this database: rejected with or without its values, or run to an end or an error, and
      then committed or not. */
  datatype Outcome = Unparsable | Unbindable | Ran(rows: bool, data: seq<string>, ok: bool, commits: bool)

  /** The statement runs to its end and its commit is refused. */
  predicate CommitFails(o: Outcome) { o.Ran? && o.ok && !o.commits }

  /** The messages of the cached path; the first is left out when the record says that the backend has the statement. */
  function Messages(h: Hash, values: seq<string>, recorded: bool): seq<Request> {
    (if recorded then [] else [Parse(Shared(h), Canonical(h))])
    + [Bind("", Shared(h), values), DescribePortal(""), Execute(""), Sync]
  }

  function Succeeds(ok: bool): Fate { Fate(true, ok, false, [], Idle, true) }

  function RunFate(o: Outcome): Fate {
    match o
    case Ran(rows, data, ok, commits) => Fate(true, ok, rows, data, Idle, commits)
    case _ => FAILURE
  }

  /** A plain query commits before it reports its end: a refused commit is an error in its place. */
  function QueryFate(o: Outcome): Fate { if CommitFails(o) then RunFate(o).(ok := false) else RunFate(o) }

  function Fates(o: Outcome, recorded: bool): seq<Fate> {
    (if recorded then [] else [Succeeds(!o.Unparsable?)])
    + [Succeeds(o.Ran?), RunFate(o).(ok := true), RunFate(o), RunFate(o)]
  }

  /** What the client of a simple query must not see. */
  predicate Hidden(r: Reply) { r.ParseComplete? || r.BindComplete? || r.NoData? }

  function Translated(rs: seq<Reply>): seq<Reply> {
    if rs == [] then []
    else Translated(rs[..|rs| - 1]) + if Hidden(rs[|rs| - 1]) then [] else [rs[|rs| - 1]]
  }

  lemma {:induction false} TranslatedCat(rs: seq<Reply>, us: seq<Reply>)
    ensures Translated(rs + us) == Translated(rs) + Translated(us)
  {
    if us == [] {
      assert rs + us == rs;
    } else {
      assert (rs + us)[..|rs + us| - 1] == rs + us[..|us| - 1];
      TranslatedCat(rs, us[..|us| - 1]);
    }
  }

  lemma {:induction false} VisibleStays(rs: seq<Reply>)
    requires forall r :: r in rs ==> !Hidden(r)
    ensures Translated(rs) == rs
  {
    if rs != [] { VisibleStays(rs[..|rs| - 1]); }
  }

  lemma {:induction false} HiddenGoes(rs: seq<Reply>)
    requires forall r :: r in rs ==> Hidden(r)
    ensures Translated(rs) == []
  {
    if rs != [] { HiddenGoes(rs[..|rs| - 1]); }
  }

  /** How the run ends on the cached path, and in a plain query. */
  function Ending(h: Hash, values: seq<string>, o: Outcome): seq<Reply>
    requires o.Ran?
  {
    [if o.ok then Complete(Work(h.canonical, values)) else Error]
    + (if CommitFails(o) then [Error] else []) + [Ready(Idle)]
  }

  function PlainEnding(h: Hash, values: seq<string>, o: Outcome): seq<Reply>
    requires o.Ran?
  {
    [if o.ok && o.commits then Complete(Work(h.canonical, values)) else Error, Ready(Idle)]
  }

  /** What a plain query answers. */
  function Answer(canonical: string, values: seq<string>, o: Outcome): seq<Reply> {
    if o.Ran? then
      (if o.rows then [RowDescription] else [])
      + (DataRows(RunFate(o)) + PlainEnding(HashOf(canonical), values, o))
    else [Error, Ready(Idle)]
  }

  lemma PortalReplies(s: Session, h: Hash, values: seq<string>, o: Outcome)
    requires !s.skipping && s.tx.Idle? && Shared(h) in s.prepared && s.prepared[Shared(h)] == Canonical(h)
    ensures var r := ServeAll(s, Messages(h, values, true), Fates(o, true));
      && r.session == s.(portals := map[])
      && r.replies == if o.Ran?
                      then [BindComplete] + ([Shape(RunFate(o))] + (DataRows(RunFate(o)) + Ending(h, values, o)))
                      else [Error, Ready(Idle)]
  {
    hide ServeAll;
    var b, d, e := Bind("", Shared(h), values), DescribePortal(""), Execute("");
    var fs := Fates(o, true);
    assert Messages(h, values, true) == [b] + ([d] + ([e] + [Sync]));
    assert fs == [fs[0]] + ([fs[1]] + ([fs[2]] + [fs[3]]));
    var s1 := Serve(s, b, fs[0]).session;
    var s2 := Serve(s1, d, fs[1]).session;
    var s3 := Serve(s2, e, fs[2]).session;
    Front(s, b, [d] + ([e] + [Sync]), fs[0], [fs[1]] + ([fs[2]] + [fs[3]]));
    Front(s1, d, [e] + [Sync], fs[1], [fs[2]] + [fs[3]]);
    Front(s2, e, [Sync], fs[2], [fs[3]]);
    AtSync(s3, fs[3]);
    assert DataRows(fs[2]) == DataRows(fs[1]);
    if o.Ran? {
      assert CloseImplicit(s3, fs[3]).replies == (if CommitFails(o) then [Error] else []) + [Ready(Idle)];
      hide Serve, CloseImplicit;
      var c, tail := [if o.ok then Complete(Work(h.canonical, values)) else Error], CloseImplicit(s3, fs[3]).replies;
      assert Ending(h, values, o) == c + tail;
      assert DataRows(fs[2]) + c + tail == DataRows(fs[2]) + (c + tail);
    }
  }

  lemma AtSync(s: Session, f: Fate)
    ensures ServeAll(s, [Sync], [f]) == CloseImplicit(s, f)
  {
    assert [Sync][..0] == [] && [f][..0] == [];
    assert [] + CloseImplicit(s, f).replies == CloseImplicit(s, f).replies;
  }

  lemma PlainReplies(s: Session, canonical: string, values: seq<string>, o: Outcome)
    requires !s.skipping && s.tx.Idle?
    ensures Serve(s, SimpleQuery(Dml(canonical, values)), QueryFate(o)).replies == Answer(canonical, values, o)
  {
    assert WorkOf(Portal(Dml(canonical, values), [])) == Work(canonical, values);
    assert DataRows(QueryFate(o)) == DataRows(RunFate(o));
  }

  /** What the client of the cached path sees. */
  function CachedAnswer(h: Hash, values: seq<string>, o: Outcome): seq<Reply> {
    if o.Ran? then
      (if o.rows then [RowDescription] else []) + (DataRows(RunFate(o)) + Ending(h, values, o))
    else [Error, Ready(Idle)]
  }

  /** The two answers are the same unless a commit is refused: then the cached path has reported the end before. */
  lemma AnswersAgreeIff(h: Hash, values: seq<string>, o: Outcome)
    ensures CachedAnswer(h, values, o) == Answer(h.canonical, values, o) <==> !CommitFails(o)
  {
    assert HashOf(h.canonical) == h;
    if CommitFails(o) {
      assert |CachedAnswer(h, values, o)| == |Answer(h.canonical, values, o)| + 1;
    } else if o.Ran? {
      assert Ending(h, values, o) == PlainEnding(h, values, o);
    }
  }

  /** Bind, Describe, Execute, Sync on a backend that has the statement. */
  lemma RunsPortal(s: Session, h: Hash, values: seq<string>, o: Outcome)
    requires !s.skipping && s.tx.Idle? && Shared(h) in s.prepared && s.prepared[Shared(h)] == Canonical(h)
    ensures var r := ServeAll(s, Messages(h, values, true), Fates(o, true));
      && Translated(r.replies) == CachedAnswer(h, values, o)
      && Acks(r.replies) == 0
      && r.session == s.(portals := map[])
  {
    hide ServeAll, Serve, Translated, Acks;
    PortalReplies(s, h, values, o);
    var rs := ServeAll(s, Messages(h, values, true), Fates(o, true)).replies;
    assert ParseComplete !in rs;
    NoAcks(rs);
    if o.Ran? {
      var shape, seen := Shape(RunFate(o)), DataRows(RunFate(o)) + Ending(h, values, o);
      VisibleStays(seen);
      TranslatedCat([BindComplete], [shape] + seen);
      TranslatedCat([shape], seen);
      HiddenGoes([BindComplete]);
      if o.rows { VisibleStays([RowDescription]); } else { HiddenGoes([NoData]); }
    } else {
      VisibleStays(rs);
    }
  }

  /** The cached path refines the plain query in success and in every error, when the record is exact for this
      statement, if and only if no commit is refused after the statement has run to its end. */
  lemma CachedRefinesPlain(s: Session, canonical: string, values: seq<string>, o: Outcome)
    requires !s.skipping && s.tx.Idle? && FaithfulTo(s, HashOf(canonical))
    ensures var h := HashOf(canonical);
      var recorded := h in Held(s);
      var r := ServeAll(s, Messages(h, values, recorded), Fates(o, recorded));
      && (Translated(r.replies) == Serve(s, SimpleQuery(Dml(canonical, values)), QueryFate(o)).replies
          <==> !CommitFails(o))
      && Held(r.session) == Held(s) + (if Acks(r.replies) > 0 then {h} else {})
      && Private(r.session) == Private(s) && r.session.tx.Idle? && !r.session.skipping
  {
    hide Translated, ServeAll, Fates, Acks, Answer, CachedAnswer, Serve;
    var h := HashOf(canonical);
    CachedAnswers(s, h, values, o);
    PlainReplies(s, canonical, values, o);
    AnswersAgreeIff(h, values, o);
  }

  lemma CachedAnswers(s: Session, h: Hash, values: seq<string>, o: Outcome)
    requires !s.skipping && s.tx.Idle? && FaithfulTo(s, h)
    ensures var recorded := h in Held(s);
      var r := ServeAll(s, Messages(h, values, recorded), Fates(o, recorded));
      && Translated(r.replies) == CachedAnswer(h, values, o)
      && Held(r.session) == Held(s) + (if Acks(r.replies) > 0 then {h} else {})
      && Private(r.session) == Private(s) && r.session.tx.Idle? && !r.session.skipping
  {
    hide Translated, ServeAll, Fates, Acks, CachedAnswer, Serve;
    HeldIs(s, h);
    if h in Held(s) {
      RunsPortal(s, h, values, o);
    } else {
      ParsesFirst(s, h, values, o);
    }
  }

  /** A refused commit: the client of the cached path has been told of the end, rows and all, before the error; the
      client of the plain query only of the error. */
  lemma RefusedCommitFollowsSuccess(s: Session, canonical: string, values: seq<string>, o: Outcome)
    requires !s.skipping && s.tx.Idle? && FaithfulTo(s, HashOf(canonical)) && CommitFails(o)
    ensures var h := HashOf(canonical);
      var recorded := h in Held(s);
      var done := Complete(Work(canonical, values));
      && done in Translated(ServeAll(s, Messages(h, values, recorded), Fates(o, recorded)).replies)
      && done !in Serve(s, SimpleQuery(Dml(canonical, values)), QueryFate(o)).replies
  {
    hide Translated, ServeAll, Serve, Messages, Fates;
    CachedAnswers(s, HashOf(canonical), values, o);
    PlainReplies(s, canonical, values, o);
  }

  lemma ParseStep(s: Session, h: Hash, o: Outcome)
    requires !s.skipping && s.tx.Idle? && Shared(h) !in s.prepared
    ensures var a := Serve(s, Parse(Shared(h), Canonical(h)), Succeeds(!o.Unparsable?));
      && a.session.tx.Idle? && Private(a.session) == Private(s)
      && Held(a.session) == Held(s) + (if o.Unparsable? then {} else {h})
      && a.replies == (if o.Unparsable? then [Error] else [ParseComplete])
      && a.session.skipping == o.Unparsable?
      && (!o.Unparsable? ==> Shared(h) in a.session.prepared && a.session.prepared[Shared(h)] == Canonical(h))
  {
    HeldAfter(s, Parse(Shared(h), Canonical(h)), Succeeds(!o.Unparsable?));
  }

  lemma SamePrepared(s: Session, t: Session)
    requires s.prepared == t.prepared
    ensures Held(s) == Held(t) && Private(s) == Private(t)
  {
  }

  lemma ParsesFirst(s: Session, h: Hash, values: seq<string>, o: Outcome)
    requires !s.skipping && s.tx.Idle? && Shared(h) !in s.prepared
    ensures var r := ServeAll(s, Messages(h, values, false), Fates(o, false));
      && Translated(r.replies) == CachedAnswer(h, values, o)
      && Acks(r.replies) == (if o.Unparsable? then 0 else 1)
      && Held(r.session) == Held(s) + (if o.Unparsable? then {} else {h})
      && Private(r.session) == Private(s) && r.session.tx.Idle? && !r.session.skipping
  {
    hide Translated, Acks, ServeAll, Serve, Held, Private;
    var p := Parse(Shared(h), Canonical(h));
    var f := Succeeds(!o.Unparsable?);
    ParseStep(s, h, o);
    assert Messages(h, values, false) == [p] + Messages(h, values, true);
    assert Fates(o, false) == [f] + Fates(o, true);
    Front(s, p, Messages(h, values, true), f, Fates(o, true));
    var a := Serve(s, p, f);
    var rest := ServeAll(a.session, Messages(h, values, true), Fates(o, true));
    if o.Unparsable? {
      StopsAtSync(a.session, h, values, o);
      assert [Error] + [Ready(Idle)] == [Error, Ready(Idle)];
      VisibleStays([Error, Ready(Idle)]);
      NoAcks([Error, Ready(Idle)]);
      SamePrepared(rest.session, a.session);
    } else {
      RunsPortal(a.session, h, values, o);
      TranslatedCat([ParseComplete], rest.replies);
      HiddenGoes([ParseComplete]);
      AcksCat([ParseComplete], rest.replies);
      OneAck(s, p, f);
      SamePrepared(rest.session, a.session);
    }
  }

  lemma StopsAtSync(s: Session, h: Hash, values: seq<string>, o: Outcome)
    requires s.skipping && s.tx.Idle?
    ensures ServeAll(s, Messages(h, values, true), Fates(o, true))
         == Served(s.(skipping := false, portals := map[]), [Ready(Idle)])
  {
    var ms, fs := Messages(h, values, true), Fates(o, true);
    assert Body(ms[..3]);
    Discarded(s, ms[..3], fs[..3]);
    assert ms[3] == Sync;
  }

  /** The plain query answers with an error and nothing else. */
  predicate Bare(o: Outcome) { o.Ran? ==> !o.rows && !(o.ok && o.commits) }

  /** Over every outcome and every record: with the right record the answers agree unless a commit is refused, with a
      wrong one they agree only when the plain query, too, answers nothing but an error. */
  lemma CachedRefinesPlainIff(s: Session, canonical: string, values: seq<string>, o: Outcome, recorded: bool)
    requires !s.skipping && s.tx.Idle? && FaithfulTo(s, HashOf(canonical))
    ensures var h := HashOf(canonical);
      Translated(ServeAll(s, Messages(h, values, recorded), Fates(o, recorded)).replies)
        == Serve(s, SimpleQuery(Dml(canonical, values)), QueryFate(o)).replies
      <==> if recorded == (h in Held(s)) then !CommitFails(o) else Bare(o)
  {
    hide Translated, Acks;
    hide ServeAll, Messages, Fates, Serve;
    var h := HashOf(canonical);
    if recorded == (h in Held(s)) {
      CachedRefinesPlain(s, canonical, values, o);
    } else {
      FirstIsRejected(s, h, values, o, recorded);
      VisibleStays([Error, Ready(Idle)]);
      PlainReplies(s, canonical, values, o);
      BareAnswer(canonical, values, o);
    }
  }

  lemma BareAnswer(canonical: string, values: seq<string>, o: Outcome)
    ensures Answer(canonical, values, o) == [Error, Ready(Idle)] <==> Bare(o)
  {
    var a := Answer(canonical, values, o);
    if o.Ran? {
      if o.rows {
        assert a[0] == RowDescription;
      } else {
        assert DataRows(RunFate(o)) == [];
        assert a == PlainEnding(HashOf(canonical), values, o);
      }
    }
  }

  lemma FirstIsRejected(s: Session, h: Hash, values: seq<string>, o: Outcome, recorded: bool)
    requires !s.skipping && s.tx.Idle? && recorded != (h in Held(s))
    ensures ServeAll(s, Messages(h, values, recorded), Fates(o, recorded)).replies == [Error, Ready(Idle)]
  {
    hide ServeAll;
    HeldIs(s, h);
    var ms, fs := Messages(h, values, recorded), Fates(o, recorded);
    var n := |ms| - 1;
    var a := Serve(s, ms[0], fs[0]);
    assert a == Reject(s);
    assert ms == [ms[0]] + (ms[1..n] + [Sync]) && fs == [fs[0]] + (fs[1..n] + [fs[n]]);
    Front(s, ms[0], ms[1..n] + [Sync], fs[0], fs[1..n] + [fs[n]]);
    ServeCat(a.session, ms[1..n], fs[1..n], [Sync], [fs[n]]);
    Discarded(a.session, ms[1..n], fs[1..n]);
    AtSync(a.session, fs[n]);
  }
}
