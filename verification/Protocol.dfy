/**
 One PostgreSQL session as the frontend/backend protocol describes it (sections 55.2.2 and 55.2.3
 of the PostgreSQL 16 documentation): prepared statements, portals, transaction status, and
 discarding everything after an error until Sync.
 */
module Protocol {
  /** A statement name suffix; taken as injective in the canonical text. */
  datatype Hash = HashOf(canonical: string)

  /** Statement text by what the parameterizer makes of it: canonical text and extracted values, or no result. */
  datatype Query = Dml(canonical: string, inlined: seq<string>) | Other(text: string)

  /** Names on a backend: client names never start with pfx_, so Shared is disjoint from Named. */
  datatype StmtName = Unnamed | Named(name: string) | Shared(hash: Hash)

  datatype Portal = Portal(query: Query, args: seq<string>)

  /** What one execution computes: a text with $-parameters and their values, wherever the values came from. */
  datatype Work = Work(canonical: string, values: seq<string>) | Script(text: string)

  function WorkOf(p: Portal): Work {
    match p.query
    case Dml(canonical, inlined) => Work(canonical, if inlined == [] then p.args else inlined)
    case Other(text) => Script(text)
  }

  datatype Tx = Idle | InBlock | Failed

  datatype Request =
    | Parse(stmt: StmtName, query: Query)
    | Bind(portal: string, stmt: StmtName, args: seq<string>)
    | DescribeStmt(stmt: StmtName)
    | DescribePortal(portal: string)
    | Execute(portal: string)
    | CloseStmt(stmt: StmtName)
    | ClosePortal(portal: string)
    | Sync
    | Flush
    | SimpleQuery(query: Query)

  /** Complete is the command tag that ends a successful execution. */
  datatype Reply =
    | ParseComplete
    | BindComplete
    | CloseComplete
    | ParameterDescription
    | RowDescription
    | NoData
    | DataRow(row: string)
    | Complete(work: Work)
    | Error
    | Ready(tx: Tx)

  /** What the session cannot decide by itself: is the statement accepted for execution, does the request succeed, does
      the statement have columns, which rows come before its end, where does it leave the transaction; and, for Sync,
      does the commit of what it ends succeed. */
  datatype Fate = Fate(planned: bool, ok: bool, rows: bool, data: seq<string>, tx: Tx, commits: bool)

  datatype Session = Session(prepared: map<StmtName, Query>, portals: map<string, Portal>, tx: Tx, skipping: bool)

  datatype Served = Served(session: Session, replies: seq<Reply>)

  const FRESH := Session(map[], map[], Idle, false)

  function Broken(tx: Tx): Tx { if tx.Idle? then Idle else Failed }

  /** An error in the extended protocol: reported once, then requests are discarded until Sync. */
  function Reject(s: Session): Served {
    Served(s.(tx := Broken(s.tx), skipping := true), [Error])
  }

  function Shape(f: Fate): Reply { if f.rows then RowDescription else NoData }

  /** ReadyForQuery; outside a transaction block the portals are gone. */
  function Settle(s: Session): Served {
    Served(s.(skipping := false, portals := if s.tx.Idle? then map[] else s.portals), [Ready(s.tx)])
  }

  /** Sync commits what ran outside a transaction block; deferred constraints can still make that fail. */
  function CloseImplicit(s: Session, f: Fate): Served {
    var r := Settle(s);
    Served(r.session, (if s.tx.Idle? && !s.skipping && !f.commits then [Error] else []) + r.replies)
  }

  function DataRows(f: Fate): seq<Reply> {
    seq(if f.rows then |f.data| else 0, i requires 0 <= i < |f.data| => DataRow(f.data[i]))
  }

  function ServeQuery(s: Session, q: Query, f: Fate): Served {
    var t := s.(prepared := s.prepared - {Unnamed});
    var ok := f.planned && f.ok;
    var r := Settle(t.(tx := if ok then f.tx else Broken(s.tx)));
    var shape := if f.planned && f.rows then [RowDescription] else [];
    var data := if f.planned then DataRows(f) else [];
    Served(r.session, shape + data + [if ok then Complete(WorkOf(Portal(q, []))) else Error] + r.replies)
  }

  function RunPortal(s: Session, p: Portal, f: Fate): Served {
    if f.ok then Served(s.(tx := f.tx), DataRows(f) + [Complete(WorkOf(p))])
    else var r := Reject(s); Served(r.session, DataRows(f) + r.replies)
  }

  function Serve(s: Session, m: Request, f: Fate): Served {
    if m.Sync? then CloseImplicit(s, f)
    else if s.skipping || m.Flush? then Served(s, [])
    else
      match m
      case SimpleQuery(q) => ServeQuery(s, q, f)
      case Parse(n, q) =>
        if f.ok && (n.Unnamed? || n !in s.prepared) then Served(s.(prepared := s.prepared[n := q]), [ParseComplete])
        else Reject(s)
      case Bind(p, n, args) =>
        if f.ok && n in s.prepared then
          Served(s.(portals := s.portals[p := Portal(s.prepared[n], args)]), [BindComplete])
        else Reject(s)
      case DescribeStmt(n) =>
        if f.ok && n in s.prepared then Served(s, [ParameterDescription, Shape(f)]) else Reject(s)
      case DescribePortal(p) =>
        if f.ok && p in s.portals then Served(s, [Shape(f)]) else Reject(s)
      case Execute(p) =>
        if p in s.portals then RunPortal(s, s.portals[p], f) else Reject(s)
      case CloseStmt(n) => Served(s.(prepared := s.prepared - {n}), [CloseComplete])
      case ClosePortal(p) => Served(s.(portals := s.portals - {p}), [CloseComplete])
      case _ => Served(s, [])
  }

  /** A run of requests; the fates give each request its environment. */
  function ServeAll(s: Session, ms: seq<Request>, fs: seq<Fate>): Served
    requires |fs| == |ms|
    decreases |ms|
  {
    if ms == [] then Served(s, [])
    else
      var n := |ms| - 1;
      var a := ServeAll(s, ms[..n], fs[..n]);
      var b := Serve(a.session, ms[n], fs[n]);
      Served(b.session, a.replies + b.replies)
  }

  /** The shared statements a session holds. */
  function Held(s: Session): set<Hash> {
    set n | n in s.prepared && n.Shared? :: n.hash
  }

  /** The text that a shared name stands for. */
  function Canonical(h: Hash): Query { Dml(h.canonical, []) }

  /** If the session holds the shared statement, it is the canonical text it is named after. */
  predicate FaithfulTo(s: Session, h: Hash) { Shared(h) in s.prepared ==> s.prepared[Shared(h)] == Canonical(h) }

  /** The statements of the client's own that a session holds. */
  function Private(s: Session): set<StmtName> {
    set n | n in s.prepared && n.Named?
  }

  lemma {:induction false} ServeCat(s: Session, ms: seq<Request>, fs: seq<Fate>, ns: seq<Request>, gs: seq<Fate>)
    requires |fs| == |ms| && |gs| == |ns|
    ensures var a := ServeAll(s, ms, fs);
      var b := ServeAll(a.session, ns, gs);
      ServeAll(s, ms + ns, fs + gs) == Served(b.session, a.replies + b.replies)
    decreases |ns|
  {
    hide Serve;
    if ns == [] {
      assert ms + ns == ms && fs + gs == fs;
    } else {
      var n := |ns| - 1;
      assert (ms + ns)[..|ms| + n] == ms + ns[..n] && (fs + gs)[..|ms| + n] == fs + gs[..n];
      ServeCat(s, ms, fs, ns[..n], gs[..n]);
    }
  }

  /** A run of requests read from the front. */
  lemma Front(s: Session, m: Request, ms: seq<Request>, f: Fate, fs: seq<Fate>)
    requires |ms| == |fs|
    ensures var a := Serve(s, m, f);
      var b := ServeAll(a.session, ms, fs);
      ServeAll(s, [m] + ms, [f] + fs) == Served(b.session, a.replies + b.replies)
  {
    hide Serve;
    assert [m][..0] == [] && [f][..0] == [];
    assert [] + Serve(s, m, f).replies == Serve(s, m, f).replies;
    assert ServeAll(s, [m], [f]) == Serve(s, m, f);
    ServeCat(s, [m], [f], ms, fs);
  }
}
