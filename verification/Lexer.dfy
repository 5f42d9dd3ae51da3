/**
 The lexical layer of the literal extractor: what one region of SQL text is, where it ends,
 and what a literal token decodes to. Text is a byte string, one char per byte.

 Every function here is a specification over the text that is still to be read; the loops that
 compute it are in module Scanner.
 */
module Lexer {
  datatype LitKind = LitString | LitInt | LitFloat | LitBits

  datatype Literal = Literal(kind: LitKind, value: string)

  predicate IsWs(c: char) { c == ' ' || c == '\t' || c == '\n' || c == '\r' }

  predicate IsDigit(c: char) { '0' <= c <= '9' }

  predicate IsAlpha(c: char) { 'a' <= c <= 'z' || 'A' <= c <= 'Z' || c == '_' }

  predicate IsBitPrefix(c: char) { c == 'B' || c == 'b' || c == 'X' || c == 'x' }

  predicate IsExponent(c: char) { c == 'e' || c == 'E' }

  // --- Token readers ---

  /** A decoded token body and how many bytes of the text it took. */
  datatype Reading = Reading(value: string, used: nat)

  /** The body of a single-quoted string, read from just after the opening quote. */
  function Quoted(s: string): (r: Reading)
    ensures r.used <= |s|
  {
    if s == [] then Reading("", 0)
    else if s[0] != '\'' then
      var r := Quoted(s[1..]);
      Reading([s[0]] + r.value, r.used + 1)
    else if |s| > 1 && s[1] == '\'' then
      var r := Quoted(s[2..]);
      Reading(['\''] + r.value, r.used + 2)
    else Reading("", 1)
  }

  function Unescaped(c: char): char {
    if c == 'n' then '\n' else if c == 't' then '\t' else if c == 'r' then '\r' else c
  }

  /** The body of an escape string, read from just after its opening quote. */
  function Escaped(s: string): (r: Reading)
    ensures r.used <= |s|
  {
    if s == [] then Reading("", 0)
    else if s[0] == '\\' && |s| > 1 then
      var r := Escaped(s[2..]);
      Reading([Unescaped(s[1])] + r.value, r.used + 2)
    else if s[0] != '\'' then
      var r := Escaped(s[1..]);
      Reading([s[0]] + r.value, r.used + 1)
    else if |s| > 1 && s[1] == '\'' then
      var r := Escaped(s[2..]);
      Reading(['\''] + r.value, r.used + 2)
    else Reading("", 1)
  }

  /** How many bytes satisfying the letter, digit or underscore test lead the text. */
  function TagLength(s: string): (n: nat)
    ensures n <= |s|
  {
    if s != [] && (IsAlpha(s[0]) || IsDigit(s[0])) then 1 + TagLength(s[1..]) else 0
  }

  /** The least offset at which t occurs in s, or |s| + 1 when it does not. */
  function IndexOf(s: string, t: string): (n: nat)
    ensures n <= |s| ==> n + |t| <= |s| && s[n..n + |t|] == t
    ensures n <= |s| + 1
  {
    if |t| > |s| then |s| + 1
    else if s[..|t|] == t then 0
    else
      var n := IndexOf(s[1..], t);
      assert n <= |s[1..]| ==> s[1..][n..n + |t|] == s[n + 1..n + 1 + |t|];
      n + 1
  }

  /** Length of the dollar-quoted string at the head of the text; 1 when there is none. */
  function DollarLength(s: string): (n: nat)
    requires s != [] && s[0] == '$'
    ensures 1 <= n <= |s|
  {
    var i := 1 + TagLength(s[1..]);
    if i == |s| || s[i] != '$' then 1
    else
      var body := s[i + 1..];
      var at := IndexOf(body, s[..i + 1]);
      if at > |body| then |s| else i + 1 + at + (i + 1)
  }

  /** Offset of the quote that closes a bit string, or |s|. */
  function QuoteOffset(s: string): (n: nat)
    ensures n <= |s|
  {
    if s == [] || s[0] == '\'' then 0 else 1 + QuoteOffset(s[1..])
  }

  function Digits(s: string): (n: nat)
    ensures n <= |s|
  {
    if s != [] && IsDigit(s[0]) then 1 + Digits(s[1..]) else 0
  }

  lemma {:induction false} DigitsRun(s: string)
    ensures forall k :: 0 <= k < Digits(s) ==> IsDigit(s[k])
    ensures Digits(s) < |s| ==> !IsDigit(s[Digits(s)])
  {
    if s != [] && IsDigit(s[0]) {
      DigitsRun(s[1..]);
      assert forall k :: 1 <= k < Digits(s) ==> s[k] == s[1..][k - 1];
    }
  }

  function FractionEnd(s: string): (n: nat)
    ensures n <= |s|
  {
    var a := Digits(s);
    if a < |s| && s[a] == '.' then a + 1 + Digits(s[a + 1..]) else a
  }

  function ExponentEnd(s: string, b: nat): (n: nat)
    requires b <= |s|
    ensures b <= n <= |s|
  {
    if b < |s| && IsExponent(s[b]) then
      var d := if b + 1 < |s| && (s[b + 1] == '+' || s[b + 1] == '-') then b + 2 else b + 1;
      d + Digits(s[d..])
    else b
  }

  /** Length of the number at the head of the text: digits, fraction and exponent, all optional. */
  function NumberLength(s: string): (n: nat)
    ensures n <= |s|
    ensures s != [] && IsDigit(s[0]) ==> n > 0
  {
    ExponentEnd(s, FractionEnd(s))
  }

  predicate IsPlainInteger(t: string) {
    forall k :: 0 <= k < |t| ==> t[k] != '.' && !IsExponent(t[k])
  }

  // --- Regions ---

  datatype Region =
    | Blank
    | LineComment
    | BlockComment
    | QuotedName
    | Text(value: string)    // '...' or E'...'
    | Dollar                 // $tag$...$tag$, or a lone dollar sign
    | Bits(value: string)    // B'...' or X'...', with its prefix
    | Number(text: string)
    | Plain
    | Fault                  // a bit string opened by the last two bytes: the reader's slice is out of range

  /** A region and its length; an unclosed block comment runs past the end of the text. */
  datatype Extent = Extent(region: Region, used: nat)

  function NewlineOffset(s: string): (n: nat)
    ensures n <= |s|
  {
    if s == [] || s[0] == '\n' then 0 else 1 + NewlineOffset(s[1..])
  }

  /** Length up to and including the closing marks of a block comment, from just after the opening ones. */
  function BlockLength(s: string): (n: nat)
    ensures n >= 2 && n <= |s| + 2
  {
    if |s| > 1 && !(s[0] == '*' && s[1] == '/') then 1 + BlockLength(s[1..]) else 2
  }

  function NameLength(s: string): (n: nat)
    ensures n <= |s|
  {
    if s == [] then 0 else if s[0] == '"' then 1 else 1 + NameLength(s[1..])
  }

  predicate StartsNumber(s: string, kind: LitKind)
    requires s != []
  {
    match kind
    case LitInt => IsDigit(s[0])
    case LitFloat => IsDigit(s[0]) || (s[0] == '.' && |s| > 1 && IsDigit(s[1]))
    case _ => false
  }

  /** The region at the head of the text, as seen while looking for a literal of the given kind. */
  function RegionOf(s: string, kind: LitKind): (x: Extent)
    requires s != []
    ensures x.used > 0
    ensures x.region.Text? || x.region.Bits? || x.region.Number? ==> x.used <= |s|
  {
    var c := s[0];
    if IsWs(c) then Extent(Blank, 1)
    else if c == '-' && |s| > 1 && s[1] == '-' then Extent(LineComment, NewlineOffset(s))
    else if c == '/' && |s| > 1 && s[1] == '*' then Extent(BlockComment, 2 + BlockLength(s[2..]))
    else if c == '"' then Extent(QuotedName, 1 + NameLength(s[1..]))
    else TokenOf(s, kind)
  }

  function TokenOf(s: string, kind: LitKind): (x: Extent)
    requires s != []
    ensures x.used > 0
    ensures x.region.Text? || x.region.Bits? || x.region.Number? ==> x.used <= |s|
  {
    var c := s[0];
    var quoteNext := |s| > 1 && s[1] == '\'';
    if StartsNumber(s, kind) then
      NumberAdvances(s, kind);
      Extent(Number(s[..NumberLength(s)]), NumberLength(s))
    else if c == '\'' then var r := Quoted(s[1..]); Extent(Text(r.value), 1 + r.used)
    else if IsExponent(c) && quoteNext then var r := Escaped(s[2..]); Extent(Text(r.value), 2 + r.used)
    else if c == '$' then Extent(Dollar, DollarLength(s))
    else if IsBitPrefix(c) && quoteNext then BitsOf(s)
    else Extent(Plain, 1)
  }

  function BitsOf(s: string): (x: Extent)
    requires |s| > 1
    ensures 0 < x.used <= |s|
  {
    var q := 2 + QuoteOffset(s[2..]);
    if q < |s| then Extent(Bits([s[0]] + s[2..q]), q + 1)
    else if q == 2 then Extent(Fault, 2)
    else Extent(Bits([s[0]] + s[2..q - 1]), q)  // unclosed: the reader drops the last byte
  }

  lemma NumberAdvances(s: string, kind: LitKind)
    requires s != [] && StartsNumber(s, kind)
    ensures NumberLength(s) > 0
  {
    if !IsDigit(s[0]) {
      assert Digits(s) == 0;
    }
  }

  /** Does the region hold the literal? An integer literal never matches a number with a point or exponent. */
  predicate Holds(region: Region, lit: Literal) {
    match lit.kind
    case LitString => region.Text? && region.value == lit.value
    case LitInt => region.Number? && IsPlainInteger(region.text) && region.text == lit.value
    case LitFloat => region.Number? && region.text == lit.value
    case LitBits => region.Bits? && region.value == lit.value
  }

  // --- The search for one literal ---

  datatype Outcome = Found(start: nat, end: nat) | Missing | Panic

  function Find(src: string, i: nat, lit: Literal): (o: Outcome)
    ensures o.Found? ==> i <= o.start < o.end <= |src|
    decreases if i < |src| then |src| - i else 0
  {
    if i >= |src| then Missing
    else
      var x := RegionOf(src[i..], lit.kind);
      if x.region.Fault? then Panic
      else if Holds(x.region, lit) then Found(i, i + x.used)
      else Find(src, i + x.used, lit)
  }

  // --- The rewrite of a whole statement ---

  function Decimal(n: nat): (s: string)
    ensures |s| > 0
    ensures forall k :: 0 <= k < |s| ==> IsDigit(s[k])
  {
    if n < 10 then [('0' as int + n) as char] else Decimal(n / 10) + Decimal(n % 10)
  }

  function Placeholder(k: nat): string { "$" + Decimal(k) }

  datatype Rewriting = Rewritten(sql: string, values: seq<string>) | NotLocated | Panicked

  function Prepend(text: string, values: seq<string>, r: Rewriting): Rewriting {
    match r
    case Rewritten(sql, vs) => Rewritten(text + sql, values + vs)
    case _ => r
  }

  /** Rewrite src from pos on: the literals, in order, become $k, $k+1, ... */
  function Rewrite(src: string, pos: nat, lits: seq<Literal>, k: nat): (r: Rewriting)
    requires pos <= |src|
    decreases |lits|
  {
    if lits == [] then Rewritten(src[pos..], [])
    else
      match Find(src, pos, lits[0])
      case Missing => NotLocated
      case Panic => Panicked
      case Found(s, e) =>
        Prepend(src[pos..s] + Placeholder(k), [lits[0].value], Rewrite(src, e, lits[1..], k + 1))
  }
}
