/**
 From a statement tree to the name under which it is shared: the extractor's result as the multiplexer sees it.
 */
module Addressing {
  import opened SqlText
  import opened SqlTree
  import opened LexerLaws
  import Lexer
  import opened Protocol
  import opened Naming
  import opened Deployment
  import opened Virtual
  import opened CachedQuery

  /** ClassifyAndParameterize for a statement without parameters: no result when a literal cannot be located. */
  function Parameterized(n: Node): Query {
    match Scanned(n)
    case Rewritten(sql, values) => Dml(sql, values)
    case _ => Other(Sql(n))
  }

  predicate Extractable(n: Node) { Plain(n) && WalksInOrder(n) && Good(TokensOf(n)) && NoShadow(TokensOf(n)) }

  /** Statements of one template share one name, each with its own values. */
  lemma OneTemplateOneName(a: Node, b: Node)
    requires Extractable(a) && Extractable(b) && SameTemplate(TokensOf(a), TokensOf(b))
    ensures Parameterized(a).Dml? && Parameterized(b).Dml?
    ensures HashOf(Parameterized(a).canonical) == HashOf(Parameterized(b).canonical)
    ensures Parameterized(a).inlined == Values(Walk(a, false, []))
        && Parameterized(b).inlined == Values(Walk(b, false, []))
  {
    hide Scanned, Plain, Walk, Print;
    OneTemplateOneText(a, b);
  }

  /** Two simple queries of one template served from the cache one after the other on one backend: the second needs no
      Parse, since it runs the first one's statement, and the work that its client sees completed is its own. */
  lemma CachedWorkIsOwn(a: Node, b: Node, s: Session, o: Outcome, rows: bool, data: seq<string>, commits: bool)
    requires Extractable(a) && Extractable(b) && SameTemplate(TokensOf(a), TokensOf(b)) && !o.Unparsable?
    requires !s.skipping && s.tx.Idle?
    requires Parameterized(a).Dml? ==> FaithfulTo(s, HashOf(Parameterized(a).canonical))
    ensures Parameterized(a).Dml? && Parameterized(b).Dml?
    ensures var h, g := HashOf(Parameterized(a).canonical), HashOf(Parameterized(b).canonical);
      var recorded := h in Held(s);
      var first := ServeAll(s, Messages(h, Parameterized(a).inlined, recorded), Fates(o, recorded)).session;
      var o' := Ran(rows, data, true, commits);
      var second := ServeAll(first, Messages(g, Parameterized(b).inlined, true), Fates(o', true));
      && g in Held(first)
      && forall w :: Complete(w) in Translated(second.replies)
           <==> w == Work(Parameterized(b).canonical, Values(Walk(b, false, [])))
  {
    OneTemplateOneName(a, b);
    hide Extractable, SameTemplate, Walk, Values;
    var p, q := Parameterized(a), Parameterized(b);
    hide Parameterized;
    CachedTwice(s, HashOf(p.canonical), p.inlined, o, q.inlined, rows, data, commits);
  }

  lemma CachedTwice(s: Session, h: Hash, values: seq<string>, o: Outcome, others: seq<string>, rows: bool,
                    data: seq<string>, commits: bool)
    requires !s.skipping && s.tx.Idle? && FaithfulTo(s, h) && !o.Unparsable?
    ensures var recorded := h in Held(s);
      var first := ServeAll(s, Messages(h, values, recorded), Fates(o, recorded)).session;
      var second := ServeAll(first, Messages(h, others, true), Fates(Ran(rows, data, true, commits), true));
      && h in Held(first)
      && forall w :: Complete(w) in Translated(second.replies) <==> w == Work(h.canonical, others)
  {
    hide ServeAll, Serve, Acks, Translated;
    var recorded := h in Held(s);
    HeldIs(s, h);
    assert HashOf(h.canonical) == h;
    CachedRefinesPlain(s, h.canonical, values, o);
    if !recorded { ParsesFirst(s, h, values, o); }
    assert CanonicalOnly(Messages(h, values, recorded), h);
    FaithfulRun(s, Messages(h, values, recorded), Fates(o, recorded), h);
    var first := ServeAll(s, Messages(h, values, recorded), Fates(o, recorded)).session;
    HeldIs(first, h);
    hide Messages, Fates;
    RunsPortal(first, h, others, Ran(rows, data, true, commits));
  }

  /** A named Parse shares by the same name but keeps its text: of two statements of one template with different
      values, the second to be prepared on a backend runs the first. */
  lemma TemplatesShareAStatement(a: Node, b: Node, name: string, f: Fate)
    requires Extractable(a) && Extractable(b) && SameTemplate(TokensOf(a), TokensOf(b))
    requires Values(Walk(a, false, [])) != Values(Walk(b, false, [])) && f.ok
    ensures var t := NameTable(map[], 0);
      var first := Serve(FRESH, RenameOne(t, Parse(Named("a"), Parameterized(a))).msg, f).session;
      var mapped := RenameOne(t, Parse(Named(name), Parameterized(b)));
      && Deployed(mapped.msg, Held(first))
      && Serve(first, RenameOne(mapped.table, Bind("", Named(name), [])).msg, f).session.portals[""].query
           == Parameterized(a) != Parameterized(b)
  {
    hide Parameterized, Walk, Extractable, SameTemplate, Values;
    OneTemplateOneName(a, b);
    InlinedValuesLeak(Parameterized(a).canonical, Parameterized(b).inlined, Parameterized(a).inlined, name, f);
  }
}
