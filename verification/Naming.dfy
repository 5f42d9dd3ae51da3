/**
 Statement names: how a client's names are rewritten to shared ones, and the private namespace
 that the rewriting has to imitate.
 */
module Naming {
  import opened Protocol

  /** A client's name map and its count of named statements that could not be shared. */
  datatype NameTable = NameTable(names: map<string, Hash>, count: nat)

  /** A rewritten message; pins when the client must stay on the backend it is sent to. */
  datatype Renamed = Renamed(table: NameTable, msg: Request, pins: bool)

  function Less(n: nat): nat { if n > 0 then n - 1 else 0 }

  function Internal(t: NameTable, n: StmtName): StmtName {
    if n.Named? && n.name in t.names then Shared(t.names[n.name]) else n
  }

  /** Phase 1 of the pipeline for one message. */
  function RenameOne(t: NameTable, m: Request): Renamed {
    match m
    case Parse(n, q) =>
      if !n.Named? then Renamed(t, m, true)
      else if q.Dml? then
        Renamed(t.(names := t.names[n.name := HashOf(q.canonical)]), Parse(Shared(HashOf(q.canonical)), q), false)
      else Renamed(t.(count := t.count + 1), m, true)
    case Bind(p, n, args) => Renamed(t, Bind(p, Internal(t, n), args), false)
    case DescribeStmt(n) => Renamed(t, DescribeStmt(Internal(t, n)), false)
    case CloseStmt(n) =>
      if !n.Named? then Renamed(t, m, false)
      else if n.name in t.names then Renamed(t.(names := t.names - {n.name}), CloseStmt(Unnamed), false)
      else Renamed(t.(count := Less(t.count)), m, false)
    case _ => Renamed(t, m, false)
  }

  datatype Pipeline = Pipeline(table: NameTable, msgs: seq<Request>, pins: bool)

  /** Phase 1 of the pipeline. */
  function Rename(t: NameTable, ms: seq<Request>): (r: Pipeline)
    ensures |r.msgs| == |ms|
  {
    if ms == [] then Pipeline(t, [], false)
    else
      var n := |ms| - 1;
      var a := Rename(t, ms[..n]);
      var b := RenameOne(a.table, ms[n]);
      Pipeline(b.table, a.msgs + [b.msg], a.pins || b.pins)
  }

  /** A client cannot speak of shared names. */
  predicate FromClient(m: Request) {
    match m
    case Parse(n, _) => !n.Shared?
    case Bind(_, n, _) => !n.Shared?
    case DescribeStmt(n) => !n.Shared?
    case CloseStmt(n) => !n.Shared?
    case _ => true
  }

  // --- The reference: one private namespace per client ---

  function ViewOne(v: map<string, Query>, m: Request): map<string, Query> {
    match m
    case Parse(n, q) => if n.Named? then v[n.name := q] else v
    case CloseStmt(n) => if n.Named? then v - {n.name} else v
    case _ => v
  }

  /** The client's latest Parse of each name. */
  function View(v: map<string, Query>, ms: seq<Request>): map<string, Query> {
    if ms == [] then v else ViewOne(View(v, ms[..|ms| - 1]), ms[|ms| - 1])
  }

  /** A Parse of the name that can be shared, under that hash. */
  predicate Shares(m: Request, n: string, h: Hash) {
    m.Parse? && m.stmt == Named(n) && m.query.Dml? && HashOf(m.query.canonical) == h
  }

  /** A Parse of the name that can be shared, under whatever hash. */
  predicate SharesAny(m: Request, n: string) { m.Parse? && m.stmt == Named(n) && m.query.Dml? }

  /** From the i-th message on nothing maps the name or closes it. */
  predicate Unmapped(ms: seq<Request>, n: string, i: nat) {
    forall j :: i <= j < |ms| ==> ms[j] != CloseStmt(Named(n)) && !SharesAny(ms[j], n)
  }

  /** A name maps to the hash of the last Parse of it that could be shared, unless a Close of the name follows. */
  lemma {:induction false} MapsToIff(t: NameTable, ms: seq<Request>, n: string, h: Hash)
    ensures n in Rename(t, ms).table.names && Rename(t, ms).table.names[n] == h
       <==> || (n in t.names && t.names[n] == h && Unmapped(ms, n, 0))
            || exists i :: 0 <= i < |ms| && Shares(ms[i], n, h) && Unmapped(ms, n, i + 1)
  {
    if ms != [] {
      var k := |ms| - 1;
      MapsToIff(t, ms[..k], n, h);
      forall i | 0 <= i <= k ensures Unmapped(ms, n, i) <==> Unmapped(ms[..k], n, i) && Unmapped(ms, n, k) {
        assert forall j :: i <= j < k ==> ms[..k][j] == ms[j];
      }
      assert Unmapped(ms, n, k + 1);
      assert forall i :: 0 <= i < k ==> ms[..k][i] == ms[i];
      assert Unmapped(ms, n, k) <==> ms[k] != CloseStmt(Named(n)) && forall g :: !Shares(ms[k], n, g) by {
        if SharesAny(ms[k], n) { assert Shares(ms[k], n, HashOf(ms[k].query.canonical)); }
      }
    }
  }

  /** From the i-th message on nothing parses the name or closes it. */
  predicate Unspoken(ms: seq<Request>, n: string, i: nat) {
    forall j :: i <= j < |ms| ==> ms[j] != CloseStmt(Named(n)) && !(ms[j].Parse? && ms[j].stmt == Named(n))
  }

  /** A name stands for the text of its last Parse, unless a Close of the name follows. */
  lemma {:induction false} ViewIff(v: map<string, Query>, ms: seq<Request>, n: string, q: Query)
    ensures n in View(v, ms) && View(v, ms)[n] == q
       <==> || (n in v && v[n] == q && Unspoken(ms, n, 0))
            || exists i :: 0 <= i < |ms| && ms[i] == Parse(Named(n), q) && Unspoken(ms, n, i + 1)
  {
    if ms != [] {
      var k := |ms| - 1;
      ViewIff(v, ms[..k], n, q);
      forall i | 0 <= i <= k ensures Unspoken(ms, n, i) <==> Unspoken(ms[..k], n, i) && Unspoken(ms, n, k) {
        assert forall j :: i <= j < k ==> ms[..k][j] == ms[j];
      }
      assert Unspoken(ms, n, k + 1);
      assert forall i :: 0 <= i < k ==> ms[..k][i] == ms[i];
    }
  }

  /** Where the name maps to the hash, it stands for the text the client last parsed under it. */
  predicate NameFits(t: NameTable, v: map<string, Query>, n: string, h: Hash) {
    n in t.names && t.names[n] == h ==> n in v && v[n] == Canonical(h)
  }

  /** The message keeps the name true: no extracted values under that hash, no re-Parse to a text that cannot be shared
      while the name maps to it. */
  predicate KeepsNameOne(t: NameTable, m: Request, n: string, h: Hash) {
    m.Parse? && m.stmt == Named(n) ==>
      if m.query.Dml? then HashOf(m.query.canonical) == h ==> m.query.inlined == []
      else !(n in t.names && t.names[n] == h)
  }

  predicate KeepsName(t: NameTable, ms: seq<Request>, n: string, h: Hash) {
    ms != [] ==>
      KeepsName(t, ms[..|ms| - 1], n, h) && KeepsNameOne(Rename(t, ms[..|ms| - 1]).table, ms[|ms| - 1], n, h)
  }

  /** One message keeps a name in agreement with the private namespace exactly when it meets that condition. */
  lemma NameStaysTrueIff(t: NameTable, v: map<string, Query>, m: Request, n: string, h: Hash)
    requires NameFits(t, v, n, h)
    ensures NameFits(RenameOne(t, m).table, ViewOne(v, m), n, h) <==> KeepsNameOne(t, m, n, h)
  {
  }

  lemma {:induction false} NameStaysTrue(t: NameTable, v: map<string, Query>, ms: seq<Request>, n: string, h: Hash)
    requires NameFits(t, v, n, h) && KeepsName(t, ms, n, h)
    ensures NameFits(Rename(t, ms).table, View(v, ms), n, h)
  {
    if ms != [] {
      var k := |ms| - 1;
      NameStaysTrue(t, v, ms[..k], n, h);
      NameStaysTrueIff(Rename(t, ms[..k]).table, View(v, ms[..k]), ms[k], n, h);
    }
  }

  /** Every mapped name is true, whatever it maps to. */
  ghost predicate Agree(t: NameTable, v: map<string, Query>) { forall n, h :: NameFits(t, v, n, h) }

  /** One message keeps all names true exactly when it carries no extracted values under a name and does not re-parse a
      mapped name to a text that cannot be shared. */
  lemma AgreeOne(t: NameTable, v: map<string, Query>, m: Request)
    requires Agree(t, v)
    ensures Agree(RenameOne(t, m).table, ViewOne(v, m))
       <==> (m.Parse? && m.stmt.Named? ==> if m.query.Dml? then m.query.inlined == [] else m.stmt.name !in t.names)
  {
    var t', v' := RenameOne(t, m).table, ViewOne(v, m);
    forall n, h ensures NameFits(t', v', n, h) <==> KeepsNameOne(t, m, n, h) { NameStaysTrueIff(t, v, m, n, h); }
    if m.Parse? && m.stmt.Named? {
      var n := m.stmt.name;
      if m.query.Dml? {
        assert NameFits(t', v', n, HashOf(m.query.canonical)) <==> m.query.inlined == [];
      } else if n in t.names {
        assert !NameFits(t', v', n, t.names[n]);
      }
    }
  }

  /** The rewritten messages, one by one. */
  lemma {:induction false} RenamedAt(t: NameTable, ms: seq<Request>, i: nat)
    requires i < |ms|
    ensures Rename(t, ms).msgs[i] == RenameOne(Rename(t, ms[..i]).table, ms[i]).msg
  {
    var n := |ms| - 1;
    if i < n {
      RenamedAt(t, ms[..n], i);
      assert ms[..n][..i] == ms[..i];
    }
  }

  lemma {:induction false} KeepsNamePrefix(t: NameTable, ms: seq<Request>, n: string, h: Hash, i: nat)
    requires i <= |ms| && KeepsName(t, ms, n, h)
    ensures KeepsName(t, ms[..i], n, h)
  {
    if i < |ms| {
      KeepsNamePrefix(t, ms[..|ms| - 1], n, h, i);
      assert ms[..|ms| - 1][..i] == ms[..i];
    } else {
      assert ms[..i] == ms;
    }
  }

  /** What a Bind of a client name turns into, with the text it stands for in the private namespace. */
  lemma BindIsRenamed(t: NameTable, v: map<string, Query>, ms: seq<Request>, i: nat, h: Hash)
    requires i < |ms| && ms[i].Bind? && ms[i].stmt.Named?
    requires NameFits(t, v, ms[i].stmt.name, h) && KeepsName(t, ms, ms[i].stmt.name, h)
    ensures var ti, vi, n := Rename(t, ms[..i]).table, View(v, ms[..i]), ms[i].stmt.name;
      if n in ti.names && ti.names[n] == h then
        n in vi && vi[n] == Canonical(h) && Rename(t, ms).msgs[i] == Bind(ms[i].portal, Shared(h), ms[i].args)
      else if n !in ti.names then Rename(t, ms).msgs[i] == ms[i]
      else Rename(t, ms).msgs[i] == Bind(ms[i].portal, Shared(ti.names[n]), ms[i].args)
  {
    RenamedAt(t, ms, i);
    KeepsNamePrefix(t, ms, ms[i].stmt.name, h, i);
    NameStaysTrue(t, v, ms[..i], ms[i].stmt.name, h);
  }

  /** So with a Describe: of a mapped name it asks for the shared statement, of any other it is unchanged. */
  lemma DescribeIsRenamed(t: NameTable, v: map<string, Query>, ms: seq<Request>, i: nat, h: Hash)
    requires i < |ms| && ms[i].DescribeStmt? && ms[i].stmt.Named?
    requires NameFits(t, v, ms[i].stmt.name, h) && KeepsName(t, ms, ms[i].stmt.name, h)
    ensures var ti, vi, n := Rename(t, ms[..i]).table, View(v, ms[..i]), ms[i].stmt.name;
      if n in ti.names && ti.names[n] == h then
        n in vi && vi[n] == Canonical(h) && Rename(t, ms).msgs[i] == DescribeStmt(Shared(h))
      else if n !in ti.names then Rename(t, ms).msgs[i] == ms[i]
      else Rename(t, ms).msgs[i] == DescribeStmt(Shared(ti.names[n]))
  {
    RenamedAt(t, ms, i);
    KeepsNamePrefix(t, ms, ms[i].stmt.name, h, i);
    NameStaysTrue(t, v, ms[..i], ms[i].stmt.name, h);
  }

  /** What is not about statements, or about an unnamed one, is sent as it is, and changes no name. */
  lemma OthersAreNotRenamed(t: NameTable, m: Request)
    requires !(m.Parse? || m.Bind? || m.DescribeStmt? || m.CloseStmt?) || !m.stmt.Named?
    ensures RenameOne(t, m).msg == m && RenameOne(t, m).table == t
  {
  }

  /** A client is pinned by a pipeline exactly if it parses a statement that cannot be shared: unnamed, or a text that
      the extractor does not take. */
  lemma {:induction false} PinsIff(t: NameTable, ms: seq<Request>)
    ensures Rename(t, ms).pins <==> exists m :: m in ms && m.Parse? && (!m.stmt.Named? || m.query.Other?)
  {
    if ms != [] {
      var n := |ms| - 1;
      PinsIff(t, ms[..n]);
      assert forall m :: m in ms <==> m in ms[..n] || m == ms[n];
    }
  }

  /** The messages that the count of named statements counts, up and down. */
  predicate Counts(t: NameTable, m: Request) {
    (m.Parse? && m.stmt.Named? && m.query.Other?) || (m.CloseStmt? && m.stmt.Named? && m.stmt.name !in t.names)
  }

  /** The count goes up by one with a named Parse that cannot be shared, down by one, not below zero, with a Close of an
      unmapped name, and nowhere with anything else. */
  lemma CountsByOne(t: NameTable, m: Request)
    ensures var count := RenameOne(t, m).table.count;
      if !Counts(t, m) then count == t.count
      else if m.Parse? then count == t.count + 1
      else if t.count == 0 then count == 0
      else count == t.count - 1
  {
  }

  // --- Where the map goes wrong ---

  /** A name that is mapped and then re-parsed to a text that cannot be shared still leads to the old statement. */
  lemma StaleMapping(t: NameTable, n: string, canonical: string, text: string, portal: string)
    ensures var ms := [Parse(Named(n), Dml(canonical, [])), Parse(Named(n), Other(text)), Bind(portal, Named(n), [])];
      && Rename(t, ms).msgs[2] == Bind(portal, Shared(HashOf(canonical)), [])
      && View(map[], ms[..2])[n] == Other(text)
  {
    var a, b, c := Parse(Named(n), Dml(canonical, [])), Parse(Named(n), Other(text)), Bind(portal, Named(n), []);
    assert [a, b, c][..2] == [a, b] && [a, b][..1] == [a] && [a][..0] == [];
    var t1 := RenameOne(t, a).table;
    assert Rename(t, [a]).table == t1;
    assert Rename(t, [a, b]).table == t1.(count := t1.count + 1);
    RenamedAt(t, [a, b, c], 2);
    assert View(map[], [a]) == map[n := a.query];
  }
}
