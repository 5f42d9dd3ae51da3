/**
 The tree walk of pkg/pgfox/parser.go against the text it is meant to match: a statement tree, its
 printed form, the literals the walk collects and the tree with those literals replaced.
 */
module SqlTree {
  import opened Lexer
  import opened LexerLaws
  import opened SqlText

  /** The node types through which the walk goes to one child. */
  datatype Shape =
    | FuncCall(name: string)
    | ResTarget(name: string)     // SELECT val AS name
    | Assignment(name: string)    // SET name = val, also a ResTarget
    | TypeCast(name: string)
    | BoolExpr(name: string)
    | CoalesceExpr
    | NullTest(name: string)
    | RowExpr
    | ArrayExpr
    | RangeSubselect(name: string)
    | ValuesLists

  datatype Pairing = AExpr(op: string) | CaseWhen | SetOperation(op: string)

  /** The node types the walk distinguishes. Optional children are Absent; lists are Nil and Cons. */
  datatype Node =
    | Absent
    | Nil
    | Cons(head: Node, tail: Node)
    | AConst(lit: Literal)
    | Leaf(tok: Tok)  // column, table, *, NULL, TRUE, FALSE: nothing the walk could collect
    | ParamRef(n: nat)
    | One(shape: Shape, child: Node)
    | Two(pairing: Pairing, left: Node, right: Node)
    | SubLink(test: Node, subOp: string, subselect: Node)
    | CaseExpr(arg: Node, whens: Node, defresult: Node)
    | JoinExpr(kind: string, larg: Node, rarg: Node, quals: Node)
    | SelectStmt(withClause: Node, body: Node, sortClause: Node, limitCount: Node, limitOffset: Node)
    | SelectCore(distinctClause: Node, targetList: Node, fromClause: Node, whereClause: Node, groupClause: Node,
                 havingClause: Node)
    | InsertStmt(withClause: Node, relation: Node, cols: Node, source: Node, returning: Node)
    | UpdateStmt(withClause: Node, relation: Node, targetList: Node, fromClause: Node, whereClause: Node, returning: Node)
    | DeleteStmt(withClause: Node, relation: Node, usingClause: Node, whereClause: Node, returning: Node)
    | RangeFunction(func: Node)

  // --- collectLiterals ---

  predicate IsNumeric(lit: Literal) { lit.kind.LitInt? || lit.kind.LitFloat? }

  /** collectLiterals: appends the literals of the tree to out, in the order of the walk. */
  function Walk(n: Node, inLimit: bool, out: seq<Literal>): seq<Literal> {
    match n
    case AConst(lit) => if inLimit && IsNumeric(lit) then out else out + [lit]
    case Cons(h, t) => Walk(t, inLimit, Walk(h, inLimit, out))
    case One(shape, c) => Walk(c, inLimit && !shape.ValuesLists?, out)
    case Two(pairing, l, r) =>
      var lim := inLimit && !pairing.SetOperation?;
      Walk(r, lim, Walk(l, lim, out))
    case SubLink(_, _, sub) => Walk(sub, inLimit, out)
    case CaseExpr(arg, whens, defresult) => Walk(defresult, inLimit, Walk(whens, inLimit, Walk(arg, inLimit, out)))
    case JoinExpr(_, l, r, quals) => Walk(quals, inLimit, Walk(r, inLimit, Walk(l, inLimit, out)))
    case SelectStmt(_, body, _, count, offset) => Walk(count, true, Walk(offset, true, Walk(body, false, out)))
    case SelectCore(_, targets, from, where, group, having) =>
      Walk(having, false, Walk(group, false, Walk(where, false, Walk(from, false, Walk(targets, false, out)))))
    case InsertStmt(_, _, _, source, _) => Walk(source, false, out)
    case UpdateStmt(_, _, targets, _, where, _) => Walk(where, false, Walk(targets, false, out))
    case DeleteStmt(_, _, _, where, _) => Walk(where, false, out)
    case _ => out
  }

  // --- Printing ---

  /** How the walk treats a part of the text: collected, under LIMIT or OFFSET, or never visited. */
  datatype Mode = Walked | Structural | Skipped

  predicate Collects(m: Mode, lit: Literal) { m.Walked? || (m.Structural? && !IsNumeric(lit)) }

  /** Inside a sub-select the LIMIT context of the enclosing statement ends. */
  function Inner(m: Mode): Mode { if m.Skipped? then Skipped else Walked }

  function Limit(m: Mode): Mode { if m.Skipped? then Skipped else Structural }

  function OneMode(shape: Shape, m: Mode): Mode { if shape.ValuesLists? then Inner(m) else m }

  function TwoMode(pairing: Pairing, m: Mode): Mode { if pairing.SetOperation? then Inner(m) else m }

  function Opening(shape: Shape): string {
    match shape
    case FuncCall(name) => name + "("
    case Assignment(name) => name + " ="
    case CoalesceExpr => "COALESCE("
    case ArrayExpr => "ARRAY["
    case ValuesLists => "VALUES"
    case ResTarget(_) => ""
    case TypeCast(_) => "("
    case NullTest(_) => "("
    case _ => "("
  }

  function Closing(shape: Shape): string {
    match shape
    case ResTarget(name) => name
    case TypeCast(name) => ")::" + name
    case NullTest(name) => ") " + name
    case RangeSubselect(name) => ") " + name
    case ArrayExpr => "]"
    case Assignment(_) => ""
    case ValuesLists => ""
    case _ => ")"
  }

  function Before(pairing: Pairing): string { if pairing.CaseWhen? then "WHEN" else "" }

  function Between(pairing: Pairing): string { if pairing.CaseWhen? then "THEN" else pairing.op }

  lemma {:induction false} LiveCat(ts: seq<Tok>, us: seq<Tok>)
    ensures Live(ts + us) == Live(ts) + Live(us)
  {
    if ts == [] {
      assert ts + us == us;
    } else {
      assert (ts + us)[1..] == ts[1..] + us;
      LiveCat(ts[1..], us);
    }
  }

  lemma {:induction false} SubstCat(ts: seq<Tok>, us: seq<Tok>, k: nat)
    ensures Subst(ts + us, k) == Subst(ts, k) + Subst(us, k + |Live(ts)|)
  {
    if ts == [] {
      assert ts + us == us;
    } else {
      assert (ts + us)[1..] == ts[1..] + us;
      SubstCat(ts[1..], us, if ts[0].Lit? && ts[0].live then k + 1 else k);
    }
  }

  /** Append one token. */
  function Emit(acc: seq<Tok>, t: Tok): seq<Tok> { acc + [t] }

  function EmitWord(acc: seq<Tok>, w: string): seq<Tok> { Emit(acc, Word(w)) }

  lemma EmitLive()
    ensures forall acc, t {:trigger Emit(acc, t)} ::
              Live(Emit(acc, t)) == if IsLive(t) then Live(acc) + [t.lit] else Live(acc)
  {
    forall acc, t: Tok
      ensures Live(Emit(acc, t)) == if IsLive(t) then Live(acc) + [t.lit] else Live(acc)
    {
      LiveCat(acc, [t]);
      assert [t][1..] == [];
      assert Live([t]) == if IsLive(t) then [t.lit] else [];
    }
  }

  lemma EmitSubst()
    ensures forall acc, t {:trigger Emit(acc, t)} ::
              Subst(Emit(acc, t), 1) == Emit(Subst(acc, 1), if IsLive(t) then Param(1 + |Live(acc)|) else t)
  {
    forall acc, t: Tok
      ensures Subst(Emit(acc, t), 1) == Emit(Subst(acc, 1), if IsLive(t) then Param(1 + |Live(acc)|) else t)
    {
      SubstCat(acc, [t], 1);
      assert [t][1..] == [];
    }
  }

  /** The text of a tree, appended to acc; sep separates the elements of a list. */
  function Print(n: Node, m: Mode, sep: string, acc: seq<Tok>): seq<Tok>
    decreases n, 2
  {
    match n
    case Absent => acc
    case Nil => acc
    case Cons(_, _) => PrintCons(n, m, sep, acc)
    case AConst(lit) => Emit(acc, Lit(lit, Collects(m, lit)))
    case Leaf(tok) => Emit(acc, tok)
    case ParamRef(k) => Emit(acc, Param(k))
    case One(_, _) => PrintOne(n, m, acc)
    case Two(_, _, _) => PrintTwo(n, m, acc)
    case SubLink(_, _, _) => PrintSubLink(n, m, acc)
    case CaseExpr(_, _, _) => PrintCase(n, m, acc)
    case JoinExpr(_, _, _, _) => PrintJoin(n, m, acc)
    case SelectStmt(_, _, _, _, _) => PrintSelect(n, m, acc)
    case SelectCore(_, _, _, _, _, _) => PrintCore(n, m, acc)
    case InsertStmt(_, _, _, _, _) => PrintInsert(n, m, acc)
    case UpdateStmt(_, _, _, _, _, _) => PrintUpdate(n, m, acc)
    case DeleteStmt(_, _, _, _, _) => PrintDelete(n, m, acc)
    case RangeFunction(func) => Print(func, Skipped, ",", acc)
  }

  function PrintCons(n: Node, m: Mode, sep: string, acc: seq<Tok>): seq<Tok>
    requires n.Cons?
    decreases n, 1
  {
    var a := Print(n.head, m, ",", acc);
    Print(n.tail, m, sep, if n.tail.Cons? then EmitWord(a, sep) else a)
  }

  function PrintOne(n: Node, m: Mode, acc: seq<Tok>): seq<Tok>
    requires n.One?
    decreases n, 1
  {
    var sep := if n.shape.BoolExpr? then n.shape.name else ",";
    EmitWord(Print(n.child, OneMode(n.shape, m), sep, EmitWord(acc, Opening(n.shape))), Closing(n.shape))
  }

  function PrintTwo(n: Node, m: Mode, acc: seq<Tok>): seq<Tok>
    requires n.Two?
    decreases n, 1
  {
    var i := TwoMode(n.pairing, m);
    var a := Print(n.left, i, ",", EmitWord(acc, Before(n.pairing)));
    Print(n.right, i, ",", EmitWord(a, Between(n.pairing)))
  }

  function PrintSubLink(n: Node, m: Mode, acc: seq<Tok>): seq<Tok>
    requires n.SubLink?
    decreases n, 1
  {
    EmitWord(Print(n.subselect, m, ",", EmitWord(Print(n.test, Skipped, ",", acc), n.subOp + " (")), ")")
  }

  function PrintCase(n: Node, m: Mode, acc: seq<Tok>): seq<Tok>
    requires n.CaseExpr?
    decreases n, 1
  {
    var a := Print(n.arg, m, ",", EmitWord(acc, "CASE"));
    EmitWord(Clause("ELSE", n.defresult, m, Print(n.whens, m, "", a)), "END")
  }

  function PrintJoin(n: Node, m: Mode, acc: seq<Tok>): seq<Tok>
    requires n.JoinExpr?
    decreases n, 1
  {
    Clause("ON", n.quals, m, Print(n.rarg, m, ",", EmitWord(Print(n.larg, m, ",", acc), n.kind)))
  }

  function PrintSelect(n: Node, m: Mode, acc: seq<Tok>): seq<Tok>
    requires n.SelectStmt?
    decreases n, 1
  {
    var a := Print(n.body, Inner(m), ",", Clause("WITH", n.withClause, Skipped, acc));
    var b := Clause("ORDER BY", n.sortClause, Skipped, a);
    Clause("OFFSET", n.limitOffset, Limit(m), Clause("LIMIT", n.limitCount, Limit(m), b))
  }

  function PrintCore(n: Node, m: Mode, acc: seq<Tok>): seq<Tok>
    requires n.SelectCore?
    decreases n, 1
  {
    var i := Inner(m);
    var a := Clause("DISTINCT ON", n.distinctClause, Skipped, EmitWord(acc, "SELECT"));
    var b := Clause("FROM", n.fromClause, i, Print(n.targetList, i, ",", a));
    Clause("HAVING", n.havingClause, i, Clause("GROUP BY", n.groupClause, i, Clause("WHERE", n.whereClause, i, b)))
  }

  function PrintInsert(n: Node, m: Mode, acc: seq<Tok>): seq<Tok>
    requires n.InsertStmt?
    decreases n, 1
  {
    var a := Clause("INSERT INTO", n.relation, Skipped, Clause("WITH", n.withClause, Skipped, acc));
    var b := EmitWord(Clause("(", n.cols, Skipped, a), ")");
    Clause("RETURNING", n.returning, Skipped, Print(n.source, Inner(m), ",", b))
  }

  function PrintUpdate(n: Node, m: Mode, acc: seq<Tok>): seq<Tok>
    requires n.UpdateStmt?
    decreases n, 1
  {
    var a := Clause("UPDATE", n.relation, Skipped, Clause("WITH", n.withClause, Skipped, acc));
    var b := Clause("FROM", n.fromClause, Skipped, Clause("SET", n.targetList, Inner(m), a));
    Clause("RETURNING", n.returning, Skipped, Clause("WHERE", n.whereClause, Inner(m), b))
  }

  function PrintDelete(n: Node, m: Mode, acc: seq<Tok>): seq<Tok>
    requires n.DeleteStmt?
    decreases n, 1
  {
    var a := Clause("DELETE FROM", n.relation, Skipped, Clause("WITH", n.withClause, Skipped, acc));
    var b := Clause("USING", n.usingClause, Skipped, a);
    Clause("RETURNING", n.returning, Skipped, Clause("WHERE", n.whereClause, Inner(m), b))
  }

  /** A keyword and what follows it, or nothing when the part is absent. */
  function Clause(keyword: string, n: Node, m: Mode, acc: seq<Tok>): seq<Tok>
    decreases n, 3
  {
    if n.Absent? || n.Nil? then acc else Print(n, m, ",", EmitWord(acc, keyword))
  }

  /** The tokens of a statement. */
  function TokensOf(n: Node): seq<Tok> { Print(n, Walked, ",", []) }

  /** The printed statement. */
  function Sql(n: Node): string { TextOf(TokensOf(n)) }

  // --- The tree rewrite ---

  datatype Numbered = Numbered(node: Node, next: nat)

  /** Every literal that the walk collects becomes a parameter, numbered from k in text order. */
  function Number(n: Node, m: Mode, k: nat): Numbered
    decreases n, 2
  {
    match n
    case AConst(lit) => if Collects(m, lit) then Numbered(ParamRef(k), k + 1) else Numbered(n, k)
    case Cons(_, _) => NumberCons(n, m, k)
    case One(_, _) => NumberOne(n, m, k)
    case Two(_, _, _) => NumberTwo(n, m, k)
    case SubLink(_, _, _) => NumberSubLink(n, m, k)
    case CaseExpr(_, _, _) => NumberCase(n, m, k)
    case JoinExpr(_, _, _, _) => NumberJoin(n, m, k)
    case SelectStmt(_, _, _, _, _) => NumberSelect(n, m, k)
    case SelectCore(_, _, _, _, _, _) => NumberCore(n, m, k)
    case InsertStmt(_, _, _, _, _) => NumberInsert(n, m, k)
    case UpdateStmt(_, _, _, _, _, _) => NumberUpdate(n, m, k)
    case DeleteStmt(_, _, _, _, _) => NumberDelete(n, m, k)
    case _ => Numbered(n, k)
  }

  function NumberCons(n: Node, m: Mode, k: nat): Numbered
    requires n.Cons?
    decreases n, 1
  {
    var a := Number(n.head, m, k);
    var b := Number(n.tail, m, a.next);
    Numbered(Cons(a.node, b.node), b.next)
  }

  function NumberOne(n: Node, m: Mode, k: nat): Numbered
    requires n.One?
    decreases n, 1
  {
    var a := Number(n.child, OneMode(n.shape, m), k);
    Numbered(One(n.shape, a.node), a.next)
  }

  function NumberTwo(n: Node, m: Mode, k: nat): Numbered
    requires n.Two?
    decreases n, 1
  {
    var a := Number(n.left, TwoMode(n.pairing, m), k);
    var b := Number(n.right, TwoMode(n.pairing, m), a.next);
    Numbered(Two(n.pairing, a.node, b.node), b.next)
  }

  function NumberSubLink(n: Node, m: Mode, k: nat): Numbered
    requires n.SubLink?
    decreases n, 1
  {
    var a := Number(n.subselect, m, k);
    Numbered(SubLink(n.test, n.subOp, a.node), a.next)
  }

  function NumberCase(n: Node, m: Mode, k: nat): Numbered
    requires n.CaseExpr?
    decreases n, 1
  {
    var a := Number(n.arg, m, k);
    var b := Number(n.whens, m, a.next);
    var c := Number(n.defresult, m, b.next);
    Numbered(CaseExpr(a.node, b.node, c.node), c.next)
  }

  function NumberJoin(n: Node, m: Mode, k: nat): Numbered
    requires n.JoinExpr?
    decreases n, 1
  {
    var a := Number(n.larg, m, k);
    var b := Number(n.rarg, m, a.next);
    var c := Number(n.quals, m, b.next);
    Numbered(JoinExpr(n.kind, a.node, b.node, c.node), c.next)
  }

  function NumberSelect(n: Node, m: Mode, k: nat): Numbered
    requires n.SelectStmt?
    decreases n, 1
  {
    var a := Number(n.body, Inner(m), k);
    var b := Number(n.limitCount, Limit(m), a.next);
    var c := Number(n.limitOffset, Limit(m), b.next);
    Numbered(SelectStmt(n.withClause, a.node, n.sortClause, b.node, c.node), c.next)
  }

  function NumberCore(n: Node, m: Mode, k: nat): Numbered
    requires n.SelectCore?
    decreases n, 1
  {
    var a := Number(n.targetList, Inner(m), k);
    var b := Number(n.fromClause, Inner(m), a.next);
    var c := Number(n.whereClause, Inner(m), b.next);
    var d := Number(n.groupClause, Inner(m), c.next);
    var e := Number(n.havingClause, Inner(m), d.next);
    Numbered(SelectCore(n.distinctClause, a.node, b.node, c.node, d.node, e.node), e.next)
  }

  function NumberInsert(n: Node, m: Mode, k: nat): Numbered
    requires n.InsertStmt?
    decreases n, 1
  {
    var a := Number(n.source, Inner(m), k);
    Numbered(InsertStmt(n.withClause, n.relation, n.cols, a.node, n.returning), a.next)
  }

  function NumberUpdate(n: Node, m: Mode, k: nat): Numbered
    requires n.UpdateStmt?
    decreases n, 1
  {
    var a := Number(n.targetList, Inner(m), k);
    var b := Number(n.whereClause, Inner(m), a.next);
    Numbered(UpdateStmt(n.withClause, n.relation, a.node, n.fromClause, b.node, n.returning), b.next)
  }

  function NumberDelete(n: Node, m: Mode, k: nat): Numbered
    requires n.DeleteStmt?
    decreases n, 1
  {
    var a := Number(n.whereClause, Inner(m), k);
    Numbered(DeleteStmt(n.withClause, n.relation, n.usingClause, a.node, n.returning), a.next)
  }

  // --- Walk order is text order ---

  /** Nothing the walk collects under LIMIT or OFFSET: numbers only, no quoted constant and no sub-select. */
  predicate NumbersOnly(n: Node) {
    match n
    case AConst(lit) => lit.kind.LitInt? || lit.kind.LitFloat?
    case Cons(h, t) => NumbersOnly(h) && NumbersOnly(t)
    case Two(pairing, l, r) => !pairing.SetOperation? && NumbersOnly(l) && NumbersOnly(r)
    case One(shape, c) => !shape.ValuesLists? && NumbersOnly(c)
    case Absent => true
    case Nil => true
    case Leaf(_) => true
    case ParamRef(_) => true
    case _ => false
  }

  /** No leaf prints a literal. */
  predicate Plain(n: Node) {
    match n
    case Leaf(tok) => !tok.Lit?
    case Cons(h, t) => Plain(h) && Plain(t)
    case One(_, c) => Plain(c)
    case Two(_, l, r) => Plain(l) && Plain(r)
    case SubLink(test, _, sub) => Plain(test) && Plain(sub)
    case CaseExpr(arg, whens, defresult) => Plain(arg) && Plain(whens) && Plain(defresult)
    case JoinExpr(_, l, r, quals) => Plain(l) && Plain(r) && Plain(quals)
    case SelectStmt(w, body, sort, count, offset) =>
      Plain(w) && Plain(body) && Plain(sort) && Plain(count) && Plain(offset)
    case SelectCore(distinct, targets, from, where, group, having) =>
      Plain(distinct) && Plain(targets) && Plain(from) && Plain(where) && Plain(group) && Plain(having)
    case InsertStmt(w, relation, cols, source, returning) =>
      Plain(w) && Plain(relation) && Plain(cols) && Plain(source) && Plain(returning)
    case UpdateStmt(w, relation, targets, from, where, returning) =>
      Plain(w) && Plain(relation) && Plain(targets) && Plain(from) && Plain(where) && Plain(returning)
    case DeleteStmt(w, relation, using, where, returning) =>
      Plain(w) && Plain(relation) && Plain(using) && Plain(where) && Plain(returning)
    case RangeFunction(func) => Plain(func)
    case _ => true
  }

  /** The walk visits OFFSET before LIMIT, the text has it after. */
  predicate SameOrder(count: Node, offset: Node) {
    Walk(count, true, Walk(offset, true, [])) == Walk(offset, true, Walk(count, true, []))
  }

  /** In every sub-select that the walk visits, the two orders come to the same. */
  predicate WalksInOrder(n: Node) {
    match n
    case Cons(h, t) => WalksInOrder(h) && WalksInOrder(t)
    case One(_, c) => WalksInOrder(c)
    case Two(_, l, r) => WalksInOrder(l) && WalksInOrder(r)
    case SubLink(_, _, sub) => WalksInOrder(sub)
    case CaseExpr(arg, whens, defresult) => WalksInOrder(arg) && WalksInOrder(whens) && WalksInOrder(defresult)
    case JoinExpr(_, l, r, quals) => WalksInOrder(l) && WalksInOrder(r) && WalksInOrder(quals)
    case SelectStmt(_, body, _, count, offset) =>
      WalksInOrder(body) && WalksInOrder(count) && WalksInOrder(offset) && SameOrder(count, offset)
    case SelectCore(_, targets, from, where, group, having) =>
      WalksInOrder(targets) && WalksInOrder(from) && WalksInOrder(where) && WalksInOrder(group) && WalksInOrder(having)
    case InsertStmt(_, _, _, source, _) => WalksInOrder(source)
    case UpdateStmt(_, _, targets, _, where, _) => WalksInOrder(targets) && WalksInOrder(where)
    case DeleteStmt(_, _, _, where, _) => WalksInOrder(where)
    case _ => true
  }

  lemma {:induction false} WalkAppends(n: Node, inLimit: bool, a: seq<Literal>, b: seq<Literal>)
    ensures Walk(n, inLimit, a + b) == a + Walk(n, inLimit, b)
    decreases n, 1
  {
    match n {
      case Cons(h, t) =>
        WalkAppends(h, inLimit, a, b);
        WalkAppends(t, inLimit, a, Walk(h, inLimit, b));
      case One(shape, c) => WalkAppends(c, inLimit && !shape.ValuesLists?, a, b);
      case Two(pairing, l, r) =>
        var lim := inLimit && !pairing.SetOperation?;
        WalkAppends(l, lim, a, b);
        WalkAppends(r, lim, a, Walk(l, lim, b));
      case SubLink(_, _, sub) => WalkAppends(sub, inLimit, a, b);
      case CaseExpr(arg, whens, defresult) =>
        var c := Walk(arg, inLimit, b);
        WalkAppends(arg, inLimit, a, b);
        WalkAppends(whens, inLimit, a, c);
        WalkAppends(defresult, inLimit, a, Walk(whens, inLimit, c));
      case JoinExpr(_, l, r, quals) =>
        var c := Walk(l, inLimit, b);
        WalkAppends(l, inLimit, a, b);
        WalkAppends(r, inLimit, a, c);
        WalkAppends(quals, inLimit, a, Walk(r, inLimit, c));
      case SelectStmt(_, body, _, count, offset) =>
        var c := Walk(body, false, b);
        WalkAppends(body, false, a, b);
        WalkAppends(offset, true, a, c);
        WalkAppends(count, true, a, Walk(offset, true, c));
      case SelectCore(_, targets, from, where, group, having) => CoreAppends(n, a, b);
      case InsertStmt(_, _, _, source, _) => WalkAppends(source, false, a, b);
      case UpdateStmt(_, _, targets, _, where, _) =>
        WalkAppends(targets, false, a, b);
        WalkAppends(where, false, a, Walk(targets, false, b));
      case DeleteStmt(_, _, _, where, _) => WalkAppends(where, false, a, b);
      case AConst(lit) => assert a + b + [lit] == a + (b + [lit]);
      case _ =>
    }
  }

  lemma {:induction false} CoreAppends(n: Node, a: seq<Literal>, b: seq<Literal>)
    requires n.SelectCore?
    ensures Walk(n, false, a + b) == a + Walk(n, false, b)
    decreases n, 0
  {
    var c := Walk(n.targetList, false, b);
    var d := Walk(n.fromClause, false, c);
    var e := Walk(n.whereClause, false, d);
    WalkAppends(n.targetList, false, a, b);
    WalkAppends(n.fromClause, false, a, c);
    WalkAppends(n.whereClause, false, a, d);
    WalkAppends(n.groupClause, false, a, e);
    WalkAppends(n.havingClause, false, a, Walk(n.groupClause, false, e));
  }

  lemma {:induction false} NumbersAreStructural(n: Node, out: seq<Literal>)
    requires NumbersOnly(n)
    ensures Walk(n, true, out) == out
  {
    match n {
      case Cons(h, t) => NumbersAreStructural(h, out); NumbersAreStructural(t, out);
      case Two(_, l, r) => NumbersAreStructural(l, out); NumbersAreStructural(r, out);
      case One(_, c) => NumbersAreStructural(c, out);
      case _ =>
    }
  }

  /** With numbers only under OFFSET the order does not matter. */
  lemma NumericOffset(count: Node, offset: Node)
    requires NumbersOnly(offset)
    ensures SameOrder(count, offset)
  {
    NumbersAreStructural(offset, []);
    NumbersAreStructural(offset, Walk(count, true, []));
  }

  /** What the walk adds in a mode. */
  function Gathered(n: Node, m: Mode, out: seq<Literal>): seq<Literal> {
    if m.Skipped? then out else Walk(n, m.Structural?, out)
  }

  ghost predicate OrderedPrint(n: Node, m: Mode, sep: string, acc: seq<Tok>) {
    Live(Print(n, m, sep, acc)) == Gathered(n, m, Live(acc))
  }

  lemma {:induction false} ClauseOrder(keyword: string, n: Node, m: Mode, acc: seq<Tok>)
    requires Plain(n)
    requires m.Skipped? || WalksInOrder(n)
    ensures Live(Clause(keyword, n, m, acc)) == Gathered(n, m, Live(acc))
    decreases n, 3
  {
    hide Live, Subst, Emit;
    EmitLive();
    if !(n.Absent? || n.Nil?) { PrintOrder(n, m, ",", EmitWord(acc, keyword)); }
  }

  /** The literals of the printed text, left to right, are the literals of the walk. */
  lemma {:induction false} PrintOrder(n: Node, m: Mode, sep: string, acc: seq<Tok>)
    requires Plain(n)
    requires m.Skipped? || WalksInOrder(n)
    ensures OrderedPrint(n, m, sep, acc)
    decreases n, 2
  {
    hide Live, Emit, PrintCons, PrintOne, PrintTwo, PrintSubLink, PrintCase, PrintJoin, PrintSelect, PrintCore,
      PrintInsert, PrintUpdate, PrintDelete;
    EmitLive();
    if n.Cons? {
      ConsOrder(n, m, sep, acc);
    } else if n.One? {
      OneOrder(n, m, acc);
    } else if n.Two? {
      TwoOrder(n, m, acc);
    } else if n.SubLink? {
      SubLinkOrder(n, m, acc);
    } else if n.CaseExpr? {
      CaseOrder(n, m, acc);
    } else if n.JoinExpr? {
      JoinOrder(n, m, acc);
    } else if n.SelectStmt? {
      SelectOrder(n, m, acc);
    } else if n.SelectCore? {
      CoreOrder(n, m, acc);
    } else if n.InsertStmt? {
      InsertOrder(n, m, acc);
    } else if n.UpdateStmt? {
      UpdateOrder(n, m, acc);
    } else if n.DeleteStmt? {
      DeleteOrder(n, m, acc);
    } else if n.RangeFunction? {
      PrintOrder(n.func, Skipped, ",", acc);
    }
  }

  lemma {:induction false} ConsOrder(n: Node, m: Mode, sep: string, acc: seq<Tok>)
    requires Plain(n) && n.Cons?
    requires m.Skipped? || WalksInOrder(n)
    ensures Live(PrintCons(n, m, sep, acc)) == Gathered(n, m, Live(acc))
    decreases n, 1
  {
    hide Live, Emit, Print, Clause, Opening, Closing, Before, Between;
    EmitLive();
    var a := Print(n.head, m, ",", acc);
    PrintOrder(n.head, m, ",", acc);
    PrintOrder(n.tail, m, sep, if n.tail.Cons? then EmitWord(a, sep) else a);
  }

  lemma {:induction false} OneOrder(n: Node, m: Mode, acc: seq<Tok>)
    requires Plain(n) && n.One?
    requires m.Skipped? || WalksInOrder(n)
    ensures Live(PrintOne(n, m, acc)) == Gathered(n, m, Live(acc))
    decreases n, 1
  {
    hide Live, Emit, Print, Clause, Opening, Closing, Before, Between;
    EmitLive();
    var sep := if n.shape.BoolExpr? then n.shape.name else ",";
    PrintOrder(n.child, OneMode(n.shape, m), sep, EmitWord(acc, Opening(n.shape)));
  }

  lemma {:induction false} TwoOrder(n: Node, m: Mode, acc: seq<Tok>)
    requires Plain(n) && n.Two?
    requires m.Skipped? || WalksInOrder(n)
    ensures Live(PrintTwo(n, m, acc)) == Gathered(n, m, Live(acc))
    decreases n, 1
  {
    hide Live, Emit, Print, Clause, Opening, Closing, Before, Between;
    EmitLive();
    var i, a := TwoMode(n.pairing, m), EmitWord(acc, Before(n.pairing));
    PrintOrder(n.left, i, ",", a);
    PrintOrder(n.right, i, ",", EmitWord(Print(n.left, i, ",", a), Between(n.pairing)));
  }

  lemma {:induction false} SubLinkOrder(n: Node, m: Mode, acc: seq<Tok>)
    requires Plain(n) && n.SubLink?
    requires m.Skipped? || WalksInOrder(n)
    ensures Live(PrintSubLink(n, m, acc)) == Gathered(n, m, Live(acc))
    decreases n, 1
  {
    hide Live, Emit, Print, Clause, Opening, Closing, Before, Between;
    EmitLive();
    PrintOrder(n.test, Skipped, ",", acc);
    PrintOrder(n.subselect, m, ",", EmitWord(Print(n.test, Skipped, ",", acc), n.subOp + " ("));
  }

  lemma {:induction false} CaseOrder(n: Node, m: Mode, acc: seq<Tok>)
    requires Plain(n) && n.CaseExpr?
    requires m.Skipped? || WalksInOrder(n)
    ensures Live(PrintCase(n, m, acc)) == Gathered(n, m, Live(acc))
    decreases n, 1
  {
    hide Live, Emit, Print, Clause, Opening, Closing, Before, Between;
    EmitLive();
    var a := EmitWord(acc, "CASE");
    var b := Print(n.arg, m, ",", a);
    PrintOrder(n.arg, m, ",", a);
    PrintOrder(n.whens, m, "", b);
    ClauseOrder("ELSE", n.defresult, m, Print(n.whens, m, "", b));
  }

  lemma {:induction false} JoinOrder(n: Node, m: Mode, acc: seq<Tok>)
    requires Plain(n) && n.JoinExpr?
    requires m.Skipped? || WalksInOrder(n)
    ensures Live(PrintJoin(n, m, acc)) == Gathered(n, m, Live(acc))
    decreases n, 1
  {
    hide Live, Emit, Print, Clause, Opening, Closing, Before, Between;
    EmitLive();
    var a := EmitWord(Print(n.larg, m, ",", acc), n.kind);
    PrintOrder(n.larg, m, ",", acc);
    PrintOrder(n.rarg, m, ",", a);
    ClauseOrder("ON", n.quals, m, Print(n.rarg, m, ",", a));
  }

  /** A sub-select that the walk visits is in order exactly when its OFFSET and its LIMIT are. */
  lemma {:induction false} SelectOrder(n: Node, m: Mode, acc: seq<Tok>)
    requires Plain(n) && n.SelectStmt?
    requires m.Skipped? || (WalksInOrder(n.body) && WalksInOrder(n.limitCount) && WalksInOrder(n.limitOffset))
    ensures Live(PrintSelect(n, m, acc)) == Gathered(n, m, Live(acc))
       <==> m.Skipped? || SameOrder(n.limitCount, n.limitOffset)
    decreases n, 1
  {
    hide Live, Emit, Print, Clause, Opening, Closing, Before, Between;
    EmitLive();
    var a := Clause("WITH", n.withClause, Skipped, acc);
    var b := Print(n.body, Inner(m), ",", a);
    var c := Clause("ORDER BY", n.sortClause, Skipped, b);
    var d := Clause("LIMIT", n.limitCount, Limit(m), c);
    ClauseOrder("WITH", n.withClause, Skipped, acc);
    PrintOrder(n.body, Inner(m), ",", a);
    ClauseOrder("ORDER BY", n.sortClause, Skipped, b);
    ClauseOrder("LIMIT", n.limitCount, Limit(m), c);
    ClauseOrder("OFFSET", n.limitOffset, Limit(m), d);
    if !m.Skipped? { OrderOfLimits(n.limitCount, n.limitOffset, Live(b)); }
  }

  lemma OrderOfLimits(count: Node, offset: Node, out: seq<Literal>)
    ensures Walk(count, true, Walk(offset, true, out)) == Walk(offset, true, Walk(count, true, out))
       <==> SameOrder(count, offset)
  {
    hide Walk;
    assert out + [] == out;
    WalkAppends(offset, true, out, []);
    WalkAppends(count, true, out, []);
    WalkAppends(count, true, out, Walk(offset, true, []));
    WalkAppends(offset, true, out, Walk(count, true, []));
    var x, y := Walk(count, true, Walk(offset, true, [])), Walk(offset, true, Walk(count, true, []));
    assert (out + x)[|out|..] == x && (out + y)[|out|..] == y;
  }

  lemma {:induction false} CoreOrder(n: Node, m: Mode, acc: seq<Tok>)
    requires Plain(n) && n.SelectCore?
    requires m.Skipped? || WalksInOrder(n)
    ensures Live(PrintCore(n, m, acc)) == Gathered(n, m, Live(acc))
    decreases n, 1
  {
    hide Live, Emit, Print, Clause, Opening, Closing, Before, Between;
    EmitLive();
    var i := Inner(m);
    var a := EmitWord(acc, "SELECT");
    var b := Clause("DISTINCT ON", n.distinctClause, Skipped, a);
    var c := Print(n.targetList, i, ",", b);
    var d := Clause("FROM", n.fromClause, i, c);
    var e := Clause("WHERE", n.whereClause, i, d);
    ClauseOrder("DISTINCT ON", n.distinctClause, Skipped, a);
    PrintOrder(n.targetList, i, ",", b);
    ClauseOrder("FROM", n.fromClause, i, c);
    ClauseOrder("WHERE", n.whereClause, i, d);
    ClauseOrder("GROUP BY", n.groupClause, i, e);
    ClauseOrder("HAVING", n.havingClause, i, Clause("GROUP BY", n.groupClause, i, e));
  }

  lemma {:induction false} InsertOrder(n: Node, m: Mode, acc: seq<Tok>)
    requires Plain(n) && n.InsertStmt?
    requires m.Skipped? || WalksInOrder(n)
    ensures Live(PrintInsert(n, m, acc)) == Gathered(n, m, Live(acc))
    decreases n, 1
  {
    hide Live, Emit, Print, Clause, Opening, Closing, Before, Between;
    EmitLive();
    var a := Clause("WITH", n.withClause, Skipped, acc);
    var b := Clause("INSERT INTO", n.relation, Skipped, a);
    var c := EmitWord(Clause("(", n.cols, Skipped, b), ")");
    ClauseOrder("WITH", n.withClause, Skipped, acc);
    ClauseOrder("INSERT INTO", n.relation, Skipped, a);
    ClauseOrder("(", n.cols, Skipped, b);
    PrintOrder(n.source, Inner(m), ",", c);
    ClauseOrder("RETURNING", n.returning, Skipped, Print(n.source, Inner(m), ",", c));
  }

  lemma {:induction false} UpdateOrder(n: Node, m: Mode, acc: seq<Tok>)
    requires Plain(n) && n.UpdateStmt?
    requires m.Skipped? || WalksInOrder(n)
    ensures Live(PrintUpdate(n, m, acc)) == Gathered(n, m, Live(acc))
    decreases n, 1
  {
    hide Live, Emit, Print, Clause, Opening, Closing, Before, Between;
    EmitLive();
    var a := Clause("WITH", n.withClause, Skipped, acc);
    var b := Clause("UPDATE", n.relation, Skipped, a);
    var c := Clause("SET", n.targetList, Inner(m), b);
    var d := Clause("FROM", n.fromClause, Skipped, c);
    ClauseOrder("WITH", n.withClause, Skipped, acc);
    ClauseOrder("UPDATE", n.relation, Skipped, a);
    ClauseOrder("SET", n.targetList, Inner(m), b);
    ClauseOrder("FROM", n.fromClause, Skipped, c);
    ClauseOrder("WHERE", n.whereClause, Inner(m), d);
    ClauseOrder("RETURNING", n.returning, Skipped, Clause("WHERE", n.whereClause, Inner(m), d));
  }

  lemma {:induction false} DeleteOrder(n: Node, m: Mode, acc: seq<Tok>)
    requires Plain(n) && n.DeleteStmt?
    requires m.Skipped? || WalksInOrder(n)
    ensures Live(PrintDelete(n, m, acc)) == Gathered(n, m, Live(acc))
    decreases n, 1
  {
    hide Live, Emit, Print, Clause, Opening, Closing, Before, Between;
    EmitLive();
    var a := Clause("WITH", n.withClause, Skipped, acc);
    var b := Clause("DELETE FROM", n.relation, Skipped, a);
    var c := Clause("USING", n.usingClause, Skipped, b);
    ClauseOrder("WITH", n.withClause, Skipped, acc);
    ClauseOrder("DELETE FROM", n.relation, Skipped, a);
    ClauseOrder("USING", n.usingClause, Skipped, b);
    ClauseOrder("WHERE", n.whereClause, Inner(m), c);
    ClauseOrder("RETURNING", n.returning, Skipped, Clause("WHERE", n.whereClause, Inner(m), c));
  }

  // --- The numbered tree prints as the substituted tokens ---

  lemma {:induction false} SkippedKept(n: Node, k: nat)
    ensures Number(n, Skipped, k) == Numbered(n, k)
  {
    match n {
      case AConst(lit) =>
      case Cons(h, t) => SkippedKept(h, k); SkippedKept(t, k);
      case One(shape, c) => assert OneMode(shape, Skipped) == Skipped; SkippedKept(c, k);
      case Two(pairing, l, r) =>
        assert TwoMode(pairing, Skipped) == Skipped;
        SkippedKept(l, k);
        SkippedKept(r, k);
      case SubLink(_, _, sub) => SkippedKept(sub, k);
      case CaseExpr(arg, whens, defresult) =>
        SkippedKept(arg, k);
        SkippedKept(whens, k);
        SkippedKept(defresult, k);
      case JoinExpr(_, l, r, quals) =>
        SkippedKept(l, k);
        SkippedKept(r, k);
        SkippedKept(quals, k);
      case SelectStmt(_, body, _, count, offset) =>
        SkippedKept(body, k);
        SkippedKept(count, k);
        SkippedKept(offset, k);
      case SelectCore(_, targets, from, where, group, having) =>
        SkippedKept(targets, k);
        SkippedKept(from, k);
        SkippedKept(where, k);
        SkippedKept(group, k);
        SkippedKept(having, k);
      case InsertStmt(_, _, _, source, _) => SkippedKept(source, k);
      case UpdateStmt(_, _, targets, _, where, _) =>
        SkippedKept(targets, k);
        SkippedKept(where, k);
      case DeleteStmt(_, _, _, where, _) => SkippedKept(where, k);
      case _ =>
    }
  }

  lemma SkippedIsKept(n: Node)
    ensures forall k {:trigger Number(n, Skipped, k)} :: Number(n, Skipped, k) == Numbered(n, k)
  {
    hide Number;
    forall k: nat ensures Number(n, Skipped, k) == Numbered(n, k) { SkippedKept(n, k); }
  }

  lemma KeepsKind(n: Node)
    ensures forall m, k {:trigger Number(n, m, k)} ::
              var r := Number(n, m, k).node;
              (r.Cons? <==> n.Cons?) && (r.Absent? <==> n.Absent?) && (r.Nil? <==> n.Nil?)
  {
  }

  ghost predicate NumberedPrint(n: Node, m: Mode, sep: string, acc: seq<Tok>) {
    var r := Number(n, m, 1 + |Live(acc)|);
    && Subst(Print(n, m, sep, acc), 1) == Print(r.node, m, sep, Subst(acc, 1))
    && r.next == 1 + |Live(Print(n, m, sep, acc))|
  }

  lemma {:induction false} ClauseNumbers(keyword: string, n: Node, m: Mode, acc: seq<Tok>)
    requires Plain(n)
    ensures var r := Number(n, m, 1 + |Live(acc)|);
      && Subst(Clause(keyword, n, m, acc), 1) == Clause(keyword, r.node, m, Subst(acc, 1))
      && r.next == 1 + |Live(Clause(keyword, n, m, acc))|
    decreases n, 3
  {
    hide Live, Subst, Emit;
    EmitLive();
    EmitSubst();
    KeepsKind(n);
    if !(n.Absent? || n.Nil?) {
      hide Print, Number, Plain;
      PrintNumbers(n, m, ",", EmitWord(acc, keyword));
    }
  }

  lemma PrintUnfolds(n: Node, m: Mode, sep: string, acc: seq<Tok>)
    ensures n.Cons? ==> Print(n, m, sep, acc) == PrintCons(n, m, sep, acc)
    ensures n.One? ==> Print(n, m, sep, acc) == PrintOne(n, m, acc)
    ensures n.Two? ==> Print(n, m, sep, acc) == PrintTwo(n, m, acc)
    ensures n.SubLink? ==> Print(n, m, sep, acc) == PrintSubLink(n, m, acc)
    ensures n.CaseExpr? ==> Print(n, m, sep, acc) == PrintCase(n, m, acc)
    ensures n.JoinExpr? ==> Print(n, m, sep, acc) == PrintJoin(n, m, acc)
    ensures n.SelectStmt? ==> Print(n, m, sep, acc) == PrintSelect(n, m, acc)
    ensures n.SelectCore? ==> Print(n, m, sep, acc) == PrintCore(n, m, acc)
    ensures n.InsertStmt? ==> Print(n, m, sep, acc) == PrintInsert(n, m, acc)
    ensures n.UpdateStmt? ==> Print(n, m, sep, acc) == PrintUpdate(n, m, acc)
    ensures n.DeleteStmt? ==> Print(n, m, sep, acc) == PrintDelete(n, m, acc)
  {
    hide PrintCons, PrintOne, PrintTwo, PrintSubLink, PrintCase, PrintJoin, PrintSelect, PrintCore, PrintInsert,
      PrintUpdate, PrintDelete;
  }

  lemma NumberUnfolds(n: Node, m: Mode, k: nat)
    ensures n.Cons? ==> Number(n, m, k) == NumberCons(n, m, k)
    ensures n.One? ==> Number(n, m, k) == NumberOne(n, m, k)
    ensures n.Two? ==> Number(n, m, k) == NumberTwo(n, m, k)
    ensures n.SubLink? ==> Number(n, m, k) == NumberSubLink(n, m, k)
    ensures n.CaseExpr? ==> Number(n, m, k) == NumberCase(n, m, k)
    ensures n.JoinExpr? ==> Number(n, m, k) == NumberJoin(n, m, k)
    ensures n.SelectStmt? ==> Number(n, m, k) == NumberSelect(n, m, k)
    ensures n.SelectCore? ==> Number(n, m, k) == NumberCore(n, m, k)
    ensures n.InsertStmt? ==> Number(n, m, k) == NumberInsert(n, m, k)
    ensures n.UpdateStmt? ==> Number(n, m, k) == NumberUpdate(n, m, k)
    ensures n.DeleteStmt? ==> Number(n, m, k) == NumberDelete(n, m, k)
  {
    hide NumberCons, NumberOne, NumberTwo, NumberSubLink, NumberCase, NumberJoin, NumberSelect, NumberCore,
      NumberInsert, NumberUpdate, NumberDelete;
  }

  predicate IsLeaf(n: Node) { n.Absent? || n.Nil? || n.AConst? || n.Leaf? || n.ParamRef? }

  lemma LeafNumbers(n: Node, m: Mode, sep: string, acc: seq<Tok>)
    requires Plain(n) && IsLeaf(n)
    ensures NumberedPrint(n, m, sep, acc)
  {
    hide Live, Subst, Emit;
    EmitLive();
    EmitSubst();
  }

  lemma {:induction false} RangeNumbers(n: Node, m: Mode, sep: string, acc: seq<Tok>)
    requires Plain(n) && n.RangeFunction?
    ensures NumberedPrint(n, m, sep, acc)
    decreases n, 1
  {
    hide Live, Subst, Emit;
    SkippedIsKept(n.func);
    PrintNumbers(n.func, Skipped, ",", acc);
  }

  /** Replacing tokens in the printed text is printing the numbered tree. */
  lemma {:induction false} PrintNumbers(n: Node, m: Mode, sep: string, acc: seq<Tok>)
    requires Plain(n)
    ensures NumberedPrint(n, m, sep, acc)
    decreases n, 2
  {
    hide Live, Subst, Emit, Plain, Print, Number, PrintCons, PrintOne, PrintTwo, PrintSubLink, PrintCase, PrintJoin,
      PrintSelect, PrintCore, PrintInsert, PrintUpdate, PrintDelete, NumberCons, NumberOne, NumberTwo, NumberSubLink,
      NumberCase, NumberJoin, NumberSelect, NumberCore, NumberInsert, NumberUpdate, NumberDelete;
    var r := Number(n, m, 1 + |Live(acc)|);
    PrintUnfolds(n, m, sep, acc);
    PrintUnfolds(r.node, m, sep, Subst(acc, 1));
    NumberUnfolds(n, m, 1 + |Live(acc)|);
    if IsLeaf(n) {
      LeafNumbers(n, m, sep, acc);
    } else if n.Cons? {
      ConsNumbers(n, m, sep, acc);
    } else if n.One? {
      OneNumbers(n, m, acc);
    } else if n.Two? {
      TwoNumbers(n, m, acc);
    } else if n.SubLink? {
      SubLinkNumbers(n, m, acc);
    } else if n.CaseExpr? {
      CaseNumbers(n, m, acc);
    } else if n.JoinExpr? {
      JoinNumbers(n, m, acc);
    } else if n.SelectStmt? {
      SelectNumbers(n, m, acc);
    } else if n.SelectCore? {
      CoreNumbers(n, m, acc);
    } else if n.InsertStmt? {
      InsertNumbers(n, m, acc);
    } else if n.UpdateStmt? {
      UpdateNumbers(n, m, acc);
    } else if n.DeleteStmt? {
      DeleteNumbers(n, m, acc);
    } else {
      RangeNumbers(n, m, sep, acc);
    }
  }

  lemma {:induction false} ConsNumbers(n: Node, m: Mode, sep: string, acc: seq<Tok>)
    requires Plain(n) && n.Cons?
    ensures var r := NumberCons(n, m, 1 + |Live(acc)|);
      && r.node.Cons?
      && Subst(PrintCons(n, m, sep, acc), 1) == PrintCons(r.node, m, sep, Subst(acc, 1))
      && r.next == 1 + |Live(PrintCons(n, m, sep, acc))|
    decreases n, 1
  {
    hide Live, Subst, Emit, Print, Number, Clause, Opening, Closing, Before, Between;
    EmitLive();
    EmitSubst();
    KeepsKind(n.tail);
    var a := Print(n.head, m, ",", acc);
    PrintNumbers(n.head, m, ",", acc);
    PrintNumbers(n.tail, m, sep, if n.tail.Cons? then EmitWord(a, sep) else a);
  }

  lemma EmitWordKeeps(acc: seq<Tok>, w: string)
    ensures Live(EmitWord(acc, w)) == Live(acc)
    ensures Subst(EmitWord(acc, w), 1) == EmitWord(Subst(acc, 1), w)
  {
    hide Live, Subst, Emit;
    EmitLive();
    EmitSubst();
  }

  lemma {:induction false} OneNumbers(n: Node, m: Mode, acc: seq<Tok>)
    requires Plain(n) && n.One?
    ensures var r := NumberOne(n, m, 1 + |Live(acc)|);
      && r.node.One?
      && Subst(PrintOne(n, m, acc), 1) == PrintOne(r.node, m, Subst(acc, 1))
      && r.next == 1 + |Live(PrintOne(n, m, acc))|
    decreases n, 1
  {
    hide Live, Subst, Emit, EmitWord, Print, Number, Clause, Opening, Closing, OneMode;
    var sep := if n.shape.BoolExpr? then n.shape.name else ",";
    var a := EmitWord(acc, Opening(n.shape));
    EmitWordKeeps(acc, Opening(n.shape));
    PrintNumbers(n.child, OneMode(n.shape, m), sep, a);
    EmitWordKeeps(Print(n.child, OneMode(n.shape, m), sep, a), Closing(n.shape));
  }

  lemma {:induction false} TwoNumbers(n: Node, m: Mode, acc: seq<Tok>)
    requires Plain(n) && n.Two?
    ensures var r := NumberTwo(n, m, 1 + |Live(acc)|);
      && r.node.Two?
      && Subst(PrintTwo(n, m, acc), 1) == PrintTwo(r.node, m, Subst(acc, 1))
      && r.next == 1 + |Live(PrintTwo(n, m, acc))|
    decreases n, 1
  {
    hide Live, Subst, Emit, Print, Number, Clause, Opening, Closing, Before, Between;
    EmitLive();
    EmitSubst();
    var i, a := TwoMode(n.pairing, m), EmitWord(acc, Before(n.pairing));
    PrintNumbers(n.left, i, ",", a);
    PrintNumbers(n.right, i, ",", EmitWord(Print(n.left, i, ",", a), Between(n.pairing)));
  }

  lemma {:induction false} SubLinkNumbers(n: Node, m: Mode, acc: seq<Tok>)
    requires Plain(n) && n.SubLink?
    ensures var r := NumberSubLink(n, m, 1 + |Live(acc)|);
      && r.node.SubLink?
      && Subst(PrintSubLink(n, m, acc), 1) == PrintSubLink(r.node, m, Subst(acc, 1))
      && r.next == 1 + |Live(PrintSubLink(n, m, acc))|
    decreases n, 1
  {
    hide Live, Subst, Emit, Print, Number, Clause, Opening, Closing, Before, Between;
    EmitLive();
    EmitSubst();
    SkippedIsKept(n.test);
    PrintNumbers(n.test, Skipped, ",", acc);
    PrintNumbers(n.subselect, m, ",", EmitWord(Print(n.test, Skipped, ",", acc), n.subOp + " ("));
  }

  lemma {:induction false} CaseNumbers(n: Node, m: Mode, acc: seq<Tok>)
    requires Plain(n) && n.CaseExpr?
    ensures var r := NumberCase(n, m, 1 + |Live(acc)|);
      && r.node.CaseExpr?
      && Subst(PrintCase(n, m, acc), 1) == PrintCase(r.node, m, Subst(acc, 1))
      && r.next == 1 + |Live(PrintCase(n, m, acc))|
    decreases n, 1
  {
    hide Live, Subst, Emit, Print, Number, Clause, Opening, Closing, Before, Between;
    EmitLive();
    EmitSubst();
    var a := EmitWord(acc, "CASE");
    var b := Print(n.arg, m, ",", a);
    PrintNumbers(n.arg, m, ",", a);
    PrintNumbers(n.whens, m, "", b);
    ClauseNumbers("ELSE", n.defresult, m, Print(n.whens, m, "", b));
  }

  lemma {:induction false} JoinNumbers(n: Node, m: Mode, acc: seq<Tok>)
    requires Plain(n) && n.JoinExpr?
    ensures var r := NumberJoin(n, m, 1 + |Live(acc)|);
      && r.node.JoinExpr?
      && Subst(PrintJoin(n, m, acc), 1) == PrintJoin(r.node, m, Subst(acc, 1))
      && r.next == 1 + |Live(PrintJoin(n, m, acc))|
    decreases n, 1
  {
    hide Live, Subst, Emit, Print, Number, Clause, Opening, Closing, Before, Between;
    EmitLive();
    EmitSubst();
    var a := EmitWord(Print(n.larg, m, ",", acc), n.kind);
    PrintNumbers(n.larg, m, ",", acc);
    PrintNumbers(n.rarg, m, ",", a);
    ClauseNumbers("ON", n.quals, m, Print(n.rarg, m, ",", a));
  }

  lemma {:induction false} SelectNumbers(n: Node, m: Mode, acc: seq<Tok>)
    requires Plain(n) && n.SelectStmt?
    ensures var r := NumberSelect(n, m, 1 + |Live(acc)|);
      && r.node.SelectStmt?
      && Subst(PrintSelect(n, m, acc), 1) == PrintSelect(r.node, m, Subst(acc, 1))
      && r.next == 1 + |Live(PrintSelect(n, m, acc))|
    decreases n, 1
  {
    hide Live, Subst, Emit, Print, Number, Clause, Opening, Closing, Before, Between;
    EmitLive();
    EmitSubst();
    var a := Clause("WITH", n.withClause, Skipped, acc);
    var b := Print(n.body, Inner(m), ",", a);
    var c := Clause("ORDER BY", n.sortClause, Skipped, b);
    var d := Clause("LIMIT", n.limitCount, Limit(m), c);
    SkippedIsKept(n.withClause);
    ClauseNumbers("WITH", n.withClause, Skipped, acc);
    PrintNumbers(n.body, Inner(m), ",", a);
    SkippedIsKept(n.sortClause);
    ClauseNumbers("ORDER BY", n.sortClause, Skipped, b);
    ClauseNumbers("LIMIT", n.limitCount, Limit(m), c);
    ClauseNumbers("OFFSET", n.limitOffset, Limit(m), d);
  }

  lemma {:induction false} CoreNumbers(n: Node, m: Mode, acc: seq<Tok>)
    requires Plain(n) && n.SelectCore?
    ensures var r := NumberCore(n, m, 1 + |Live(acc)|);
      && r.node.SelectCore?
      && Subst(PrintCore(n, m, acc), 1) == PrintCore(r.node, m, Subst(acc, 1))
      && r.next == 1 + |Live(PrintCore(n, m, acc))|
    decreases n, 1
  {
    hide Live, Subst, Emit, Print, Number, Clause, Opening, Closing, Before, Between;
    EmitLive();
    EmitSubst();
    var i := Inner(m);
    var a := EmitWord(acc, "SELECT");
    var b := Clause("DISTINCT ON", n.distinctClause, Skipped, a);
    var c := Print(n.targetList, i, ",", b);
    var d := Clause("FROM", n.fromClause, i, c);
    var e := Clause("WHERE", n.whereClause, i, d);
    SkippedIsKept(n.distinctClause);
    ClauseNumbers("DISTINCT ON", n.distinctClause, Skipped, a);
    PrintNumbers(n.targetList, i, ",", b);
    ClauseNumbers("FROM", n.fromClause, i, c);
    ClauseNumbers("WHERE", n.whereClause, i, d);
    ClauseNumbers("GROUP BY", n.groupClause, i, e);
    ClauseNumbers("HAVING", n.havingClause, i, Clause("GROUP BY", n.groupClause, i, e));
  }

  lemma {:induction false} InsertNumbers(n: Node, m: Mode, acc: seq<Tok>)
    requires Plain(n) && n.InsertStmt?
    ensures var r := NumberInsert(n, m, 1 + |Live(acc)|);
      && r.node.InsertStmt?
      && Subst(PrintInsert(n, m, acc), 1) == PrintInsert(r.node, m, Subst(acc, 1))
      && r.next == 1 + |Live(PrintInsert(n, m, acc))|
    decreases n, 1
  {
    hide Live, Subst, Emit, Print, Number, Clause, Opening, Closing, Before, Between;
    EmitLive();
    EmitSubst();
    var a := Clause("WITH", n.withClause, Skipped, acc);
    var b := Clause("INSERT INTO", n.relation, Skipped, a);
    var c := EmitWord(Clause("(", n.cols, Skipped, b), ")");
    SkippedIsKept(n.withClause);
    ClauseNumbers("WITH", n.withClause, Skipped, acc);
    SkippedIsKept(n.relation);
    ClauseNumbers("INSERT INTO", n.relation, Skipped, a);
    SkippedIsKept(n.cols);
    ClauseNumbers("(", n.cols, Skipped, b);
    PrintNumbers(n.source, Inner(m), ",", c);
    SkippedIsKept(n.returning);
    ClauseNumbers("RETURNING", n.returning, Skipped, Print(n.source, Inner(m), ",", c));
  }

  lemma {:induction false} UpdateNumbers(n: Node, m: Mode, acc: seq<Tok>)
    requires Plain(n) && n.UpdateStmt?
    ensures var r := NumberUpdate(n, m, 1 + |Live(acc)|);
      && r.node.UpdateStmt?
      && Subst(PrintUpdate(n, m, acc), 1) == PrintUpdate(r.node, m, Subst(acc, 1))
      && r.next == 1 + |Live(PrintUpdate(n, m, acc))|
    decreases n, 1
  {
    hide Live, Subst, Emit, Print, Number, Clause, Opening, Closing, Before, Between;
    EmitLive();
    EmitSubst();
    var a := Clause("WITH", n.withClause, Skipped, acc);
    var b := Clause("UPDATE", n.relation, Skipped, a);
    var c := Clause("SET", n.targetList, Inner(m), b);
    var d := Clause("FROM", n.fromClause, Skipped, c);
    SkippedIsKept(n.withClause);
    ClauseNumbers("WITH", n.withClause, Skipped, acc);
    SkippedIsKept(n.relation);
    ClauseNumbers("UPDATE", n.relation, Skipped, a);
    ClauseNumbers("SET", n.targetList, Inner(m), b);
    SkippedIsKept(n.fromClause);
    ClauseNumbers("FROM", n.fromClause, Skipped, c);
    ClauseNumbers("WHERE", n.whereClause, Inner(m), d);
    SkippedIsKept(n.returning);
    ClauseNumbers("RETURNING", n.returning, Skipped, Clause("WHERE", n.whereClause, Inner(m), d));
  }

  lemma {:induction false} DeleteNumbers(n: Node, m: Mode, acc: seq<Tok>)
    requires Plain(n) && n.DeleteStmt?
    ensures var r := NumberDelete(n, m, 1 + |Live(acc)|);
      && r.node.DeleteStmt?
      && Subst(PrintDelete(n, m, acc), 1) == PrintDelete(r.node, m, Subst(acc, 1))
      && r.next == 1 + |Live(PrintDelete(n, m, acc))|
    decreases n, 1
  {
    hide Live, Subst, Emit, Print, Number, Clause, Opening, Closing, Before, Between;
    EmitLive();
    EmitSubst();
    var a := Clause("WITH", n.withClause, Skipped, acc);
    var b := Clause("DELETE FROM", n.relation, Skipped, a);
    var c := Clause("USING", n.usingClause, Skipped, b);
    SkippedIsKept(n.withClause);
    ClauseNumbers("WITH", n.withClause, Skipped, acc);
    SkippedIsKept(n.relation);
    ClauseNumbers("DELETE FROM", n.relation, Skipped, a);
    SkippedIsKept(n.usingClause);
    ClauseNumbers("USING", n.usingClause, Skipped, b);
    ClauseNumbers("WHERE", n.whereClause, Inner(m), c);
    SkippedIsKept(n.returning);
    ClauseNumbers("RETURNING", n.returning, Skipped, Clause("WHERE", n.whereClause, Inner(m), c));
  }

  // --- The text rewrite against the tree rewrite ---

  /** What the scanner makes of the printed statement, given the literals of the walk. */
  function Scanned(n: Node): Rewriting { Rewrite(Sql(n), 0, Walk(n, false, []), 1) }

  /** Scanning the printed text agrees with replacing the literals in the tree, exactly when no
      literal that the walk passes over equals the next one that it collects. */
  lemma TreeRewriteAgrees(n: Node)
    requires Plain(n) && WalksInOrder(n) && Good(TokensOf(n))
    ensures Scanned(n) == Rewritten(Sql(Number(n, Walked, 1).node), Values(Walk(n, false, [])))
        <==> NoShadow(TokensOf(n))
    ensures ReadsInOrder(TokensOf(n), TokensOf(Number(n, Walked, 1).node))
  {
    hide ReadsInOrder, Print, Number, Walk, TextOf, Subst, Rewrite;
    PrintOrder(n, Walked, ",", []);
    PrintNumbers(n, Walked, ",", []);
    assert Subst([], 1) == [];
    TextRewriteIffNoShadow(TokensOf(n));
  }

  /** Two token sequences that differ at most in the values of their live literals. */
  predicate SameTemplate(ts: seq<Tok>, us: seq<Tok>) {
    && |ts| == |us|
    && forall i :: 0 <= i < |ts| ==> IsLive(ts[i]) == IsLive(us[i]) && (!IsLive(ts[i]) ==> ts[i] == us[i])
  }

  lemma {:induction false} TemplateDecides(ts: seq<Tok>, us: seq<Tok>, k: nat)
    requires SameTemplate(ts, us)
    ensures Subst(ts, k) == Subst(us, k)
  {
    if ts != [] {
      assert SameTemplate(ts[1..], us[1..]) by {
        forall i | 0 <= i < |ts[1..]|
          ensures IsLive(ts[1..][i]) == IsLive(us[1..][i]) && (!IsLive(ts[1..][i]) ==> ts[1..][i] == us[1..][i])
        {
          assert ts[1..][i] == ts[i + 1] && us[1..][i] == us[i + 1];
        }
      }
      assert IsLive(ts[0]) == IsLive(us[0]);
      TemplateDecides(ts[1..], us[1..], if IsLive(ts[0]) then k + 1 else k);
    }
  }

  /** Content addressing ignores literal values: one template, one canonical text, each statement its own values. */
  lemma OneTemplateOneText(a: Node, b: Node)
    requires Plain(a) && WalksInOrder(a) && Good(TokensOf(a)) && NoShadow(TokensOf(a))
    requires Plain(b) && WalksInOrder(b) && Good(TokensOf(b)) && NoShadow(TokensOf(b))
    requires SameTemplate(TokensOf(a), TokensOf(b))
    ensures Scanned(a).Rewritten? && Scanned(b).Rewritten?
    ensures Scanned(a).sql == Scanned(b).sql
    ensures Scanned(a).values == Values(Walk(a, false, [])) && Scanned(b).values == Values(Walk(b, false, []))
  {
    hide Print, Walk, TextOf, Subst, Rewrite, SameTemplate;
    PrintOrder(a, Walked, ",", []);
    PrintOrder(b, Walked, ",", []);
    TextRewriteIffNoShadow(TokensOf(a));
    TextRewriteIffNoShadow(TokensOf(b));
    TemplateDecides(TokensOf(a), TokensOf(b), 1);
  }

  // --- Where walk order and text order part ---

  /** With quoted constants after LIMIT and OFFSET the walk collects the second one first. */
  lemma OffsetIsWalkedBeforeLimit(a: string, b: string)
    requires a != b
    ensures var n := SelectStmt(Absent, Absent, Absent, AConst(Literal(LitString, a)), AConst(Literal(LitString, b)));
      Walk(n, false, []) == [Literal(LitString, b), Literal(LitString, a)] != Live(TokensOf(n))
  {
    var x, y := Literal(LitString, a), Literal(LitString, b);
    var n := SelectStmt(Absent, Absent, Absent, AConst(x), AConst(y));
    assert Print(Absent, Walked, ",", []) == [];
    assert Clause("LIMIT", AConst(x), Structural, []) == [Word("LIMIT"), Lit(x, true)];
    var limited := [Word("LIMIT"), Lit(x, true)];
    assert Clause("WITH", Absent, Skipped, []) == [] && Clause("ORDER BY", Absent, Skipped, []) == [];
    assert Clause("OFFSET", AConst(y), Structural, limited) == limited + [Word("OFFSET"), Lit(y, true)];
    assert TokensOf(n) == PrintSelect(n, Walked, []);
    assert TokensOf(n) == [Word("LIMIT"), Lit(x, true), Word("OFFSET"), Lit(y, true)];
    assert Walk(n, false, []) == [y, x];
    assert Live(TokensOf(n)) == Live([Lit(x, true), Word("OFFSET"), Lit(y, true)]);
    assert Live(TokensOf(n))[0] == x;
  }

  /** The literals of a table function in FROM are printed and never collected. */
  lemma TableFunctionsAreNotCollected(func: Node, inLimit: bool, out: seq<Literal>, m: Mode, sep: string, acc: seq<Tok>)
    requires Plain(func)
    ensures Walk(RangeFunction(func), inLimit, out) == out
    ensures Live(Print(RangeFunction(func), m, sep, acc)) == Live(acc)
  {
    hide Live, Walk;
    PrintOrder(func, Skipped, ",", acc);
    WalkSkips(func, inLimit, out);
  }

  lemma WalkSkips(func: Node, inLimit: bool, out: seq<Literal>)
    ensures Walk(RangeFunction(func), inLimit, out) == out
  {
  }

  /** A count in a sub-select that equals the next collected constant is taken for it. */
  lemma LimitIsTakenForTheNextLiteral(ts: seq<Tok>, us: seq<Tok>, lit: Literal)
    requires Live(ts) == [] && Live(us) == []
    requires Good(ts + [Lit(lit, false)] + us + [Lit(lit, true)])
    ensures var all := ts + [Lit(lit, false)] + us + [Lit(lit, true)];
      Rewrite(TextOf(all), 0, Live(all), 1) != Rewritten(TextOf(Subst(all, 1)), Values(Live(all)))
  {
    var tail := [Lit(lit, false)] + us + [Lit(lit, true)];
    var all := ts + [Lit(lit, false)] + us + [Lit(lit, true)];
    assert all == ts + tail;
    assert tail[1..] == us + [Lit(lit, true)];
    LiveCat(us, [Lit(lit, true)]);
    assert [Lit(lit, true)][1..] == [];
    assert !NoShadow(tail);
    ShadowStays(ts, tail);
    TextRewriteIffNoShadow(all);
  }

  lemma {:induction false} ShadowStays(ts: seq<Tok>, us: seq<Tok>)
    requires !NoShadow(us)
    ensures !NoShadow(ts + us)
  {
    if ts == [] {
      assert ts + us == us;
    } else {
      assert (ts + us)[1..] == ts[1..] + us;
      ShadowStays(ts[1..], us);
    }
  }
}
