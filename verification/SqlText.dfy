/**
 Printed SQL as a sequence of tokens, and the theorem that rewriting the text agrees with
 replacing tokens: the scanner finds, in the printed text, exactly the collected literals.
 */
module SqlText {
  import opened Lexer
  import opened LexerLaws

  /** A printed token. A literal is live when the tree walk collects it. */
  datatype Tok =
    | Word(text: string)
    | Name(body: string)        // "name"
    | Comment(body: string)     // /* ... */
    | Note(body: string)        // -- ... to the end of the line
    | Lit(lit: Literal, live: bool)
    | Param(n: nat)

  function LitText(lit: Literal): string {
    match lit.kind
    case LitString => ['\''] + Doubled(lit.value) + ['\'']
    case LitBits => if lit.value == [] then [] else [lit.value[0], '\''] + lit.value[1..] + ['\'']
    case _ => lit.value
  }

  function TokText(t: Tok): string {
    match t
    case Word(text) => text
    case Name(body) => ['"'] + body + ['"']
    case Comment(body) => "/*" + body + "*/"
    case Note(body) => "--" + body + "\n"
    case Lit(lit, _) => LitText(lit)
    case Param(n) => Placeholder(n)
  }

  /** Tokens separated by one blank; sep stands before the first. */
  function Joined(ts: seq<Tok>, sep: string): string {
    if ts == [] then "" else sep + TokText(ts[0]) + Joined(ts[1..], " ")
  }

  function TextOf(ts: seq<Tok>): string { Joined(ts, "") }

  // --- Well-formed tokens ---

  /** Text with no mark that opens a region other than a number. */
  predicate Quiet(w: string) {
    && (forall k :: 0 <= k < |w| ==> w[k] != '\'' && w[k] != '"' && w[k] != '$')
    && (forall k :: 0 <= k < |w| - 1 ==> !(w[k] == '-' && w[k + 1] == '-') && !(w[k] == '/' && w[k + 1] == '*'))
  }

  predicate GoodLit(lit: Literal) {
    var v := lit.value;
    match lit.kind
    case LitString => true
    case LitInt => v != [] && Digits(v) == |v|
    case LitFloat => v != [] && StartsNumber(v, LitFloat) && NumberLength(v) == |v|
    case LitBits => v != [] && IsBitPrefix(v[0]) && '\'' !in v[1..]
  }

  predicate GoodTok(t: Tok) {
    match t
    case Word(text) => Quiet(text)
    case Name(body) => '"' !in body
    case Comment(body) => forall k :: 0 <= k < |body| ==> !ClosesAt(body, k)
    case Note(body) => '\n' !in body
    case Lit(lit, _) => GoodLit(lit)
    case Param(_) => false
  }

  predicate Good(ts: seq<Tok>) { forall t :: t in ts ==> GoodTok(t) }

  // --- Collected literals, substituted tokens ---

  predicate IsLive(t: Tok) { t.Lit? && t.live }

  function Live(ts: seq<Tok>): (lits: seq<Literal>) {
    if ts == [] then []
    else (if ts[0].Lit? && ts[0].live then [ts[0].lit] else []) + Live(ts[1..])
  }

  /** Every live literal becomes a parameter, numbered from k in text order. */
  function Subst(ts: seq<Tok>, k: nat): (r: seq<Tok>)
    ensures |r| == |ts|
  {
    if ts == [] then []
    else if ts[0].Lit? && ts[0].live then [Param(k)] + Subst(ts[1..], k + 1)
    else [ts[0]] + Subst(ts[1..], k)
  }

  /** The token is the literal, or holds it: a word with a number in it, a number of the same digits, a decimal without
      a digit before the point. An integer too large for the parser's integers is a LitFloat of digits only. */
  predicate Contains(t: Tok, lit: Literal) {
    match t
    case Word(text) => Find(text, 0, lit).Found?
    case Lit(u, _) =>
      || u == lit
      || (IsNumberKind(u.kind) && IsNumberKind(lit.kind) && u.value == lit.value)
      || (u.kind.LitFloat? && lit.kind.LitInt? && u.value == "." + lit.value)
    case _ => false
  }

  /** Nothing that the walk leaves alone contains the next literal it collects. */
  predicate NoShadow(ts: seq<Tok>) {
    ts != [] ==>
      && NoShadow(ts[1..])
      && (!IsLive(ts[0]) && Live(ts[1..]) != [] ==> !Contains(ts[0], Live(ts[1..])[0]))
  }

  // --- Scanning over one token ---

  ghost predicate Stops(rest: string) { rest == [] || rest[0] == ' ' }

  lemma Step(src: string, p: nat, s: string, lit: Literal)
    requires p < |src| && src[p..] == s
    ensures var x := RegionOf(s, lit.kind);
      && (!x.region.Fault? && !Holds(x.region, lit) ==> Find(src, p, lit) == Find(src, p + x.used, lit))
      && (!x.region.Fault? && Holds(x.region, lit) ==> Find(src, p, lit) == Found(p, p + x.used))
  {
  }

  predicate IsNumberKind(kind: LitKind) { kind.LitInt? || kind.LitFloat? }

  /** Inside a word nothing opens but a number. */
  lemma WordIsInert(w: string, rest: string, kind: LitKind)
    requires w != [] && Stops(rest) && Quiet(w) && !(IsNumberKind(kind) && StartsNumber(w, kind))
    ensures Inert(w + rest, kind)
  {
    var s := w + rest;
    assert s[0] == w[0];
    assert |s| > 1 ==> s[1] == if |w| > 1 then w[1] else ' ';
  }

  lemma QuietRun(src: string, p: nat, w: string, rest: string, lit: Literal)
    requires p <= |src| && src[p..] == w + rest && Stops(rest) && Quiet(w) && !IsNumberKind(lit.kind)
    ensures Find(src, p, lit) == Find(src, p + |w|, lit)
  {
    forall k | p <= k < p + |w| ensures Inert(src[k..], lit.kind) {
      var u := w[k - p..];
      assert src[k..] == u + rest;
      WordIsInert(u, rest, lit.kind);
    }
    hide Find, Inert, Quiet;
    InertRun(src, p, |w|, lit);
  }

  lemma {:induction false} DigitsStop(v: string, rest: string)
    requires Stops(rest)
    ensures Digits(v + rest) == Digits(v)
  {
    if v == [] {
      assert v + rest == rest;
    } else {
      assert (v + rest)[1..] == v[1..] + rest;
      DigitsStop(v[1..], rest);
    }
  }

  lemma FractionStops(v: string, rest: string)
    requires Stops(rest)
    ensures FractionEnd(v + rest) == FractionEnd(v)
  {
    var a := Digits(v);
    DigitsStop(v, rest);
    if a < |v| {
      assert (v + rest)[a + 1..] == v[a + 1..] + rest;
      DigitsStop(v[a + 1..], rest);
    }
  }

  lemma NumberStops(v: string, rest: string)
    requires Stops(rest)
    ensures NumberLength(v + rest) == NumberLength(v)
  {
    FractionStops(v, rest);
    var b := FractionEnd(v);
    ExponentStops(v, rest, b);
  }

  lemma ExponentStops(v: string, rest: string, b: nat)
    requires Stops(rest) && b <= |v|
    ensures ExponentEnd(v + rest, b) == ExponentEnd(v, b)
  {
    var s := v + rest;
    assert b < |v| ==> s[b] == v[b];
    if b < |v| && IsExponent(v[b]) {
      assert b + 1 < |s| ==> s[b + 1] == if b + 1 < |v| then v[b + 1] else ' ';
      var d := if b + 1 < |v| && (v[b + 1] == '+' || v[b + 1] == '-') then b + 2 else b + 1;
      assert s[d..] == v[d..] + rest;
      DigitsStop(v[d..], rest);
      hide Digits;
    }
  }

  lemma FractionChars(v: string)
    ensures forall k :: 0 <= k < FractionEnd(v) ==> IsDigit(v[k]) || v[k] == '.'
  {
    var a, b := Digits(v), FractionEnd(v);
    DigitsRun(v);
    if b > a {
      DigitsRun(v[a + 1..]);
      forall k | a < k < b ensures IsDigit(v[k]) {
        assert v[a + 1..][k - a - 1] == v[k];
      }
    }
  }

  lemma ExponentChars(v: string, b: nat)
    requires b <= |v|
    ensures forall k :: b <= k < ExponentEnd(v, b) ==> NumberChar(v[k])
    ensures forall k :: b <= k < ExponentEnd(v, b) && v[k] == '-' ==> k == b + 1
  {
    if b < |v| && IsExponent(v[b]) {
      var d := if b + 1 < |v| && (v[b + 1] == '+' || v[b + 1] == '-') then b + 2 else b + 1;
      DigitsRun(v[d..]);
      forall k | d <= k < ExponentEnd(v, b) ensures IsDigit(v[k]) {
        assert v[d..][k - d] == v[k];
      }
    }
  }

  predicate NumberChar(c: char) { IsDigit(c) || c == '.' || IsExponent(c) || c == '+' || c == '-' }

  /** The characters of a number are quiet for a scan that does not look for numbers. */
  lemma NumbersAreQuiet(v: string)
    requires NumberLength(v) == |v|
    ensures Quiet(v)
  {
    var b := FractionEnd(v);
    FractionChars(v);
    ExponentChars(v, b);
    assert forall k :: 0 <= k < |v| ==> NumberChar(v[k]);
    assert forall k :: 0 <= k < |v| && v[k] == '-' ==> k == b + 1;
  }

  lemma {:induction false} NameEnds(body: string, rest: string)
    requires '"' !in body
    ensures NameLength(body + ['"'] + rest) == |body| + 1
  {
    var s := body + ['"'] + rest;
    if body != [] {
      assert s[1..] == body[1..] + ['"'] + rest;
      NameEnds(body[1..], rest);
    }
  }

  lemma {:induction false} BlockEnds(body: string, rest: string)
    requires forall k :: 0 <= k < |body| ==> !ClosesAt(body, k)
    ensures BlockLength(body + "*/" + rest) == |body| + 2
  {
    var s := body + "*/" + rest;
    if body != [] {
      assert !ClosesAt(body, 0);
      assert s[1..] == body[1..] + "*/" + rest;
      forall k | 0 <= k < |body| - 1 ensures !ClosesAt(body[1..], k) {
        assert !ClosesAt(body, k + 1);
      }
      BlockEnds(body[1..], rest);
    }
  }

  lemma {:induction false} NoteEnds(body: string, rest: string)
    requires '\n' !in body
    ensures NewlineOffset(body + ['\n'] + rest) == |body|
  {
    var s := body + ['\n'] + rest;
    if body != [] {
      assert s[1..] == body[1..] + ['\n'] + rest;
      NoteEnds(body[1..], rest);
    }
  }

  lemma {:induction false} BitsEnd(body: string, rest: string)
    requires '\'' !in body
    ensures QuoteOffset(body + ['\''] + rest) == |body|
  {
    var s := body + ['\''] + rest;
    if body != [] {
      assert s[1..] == body[1..] + ['\''] + rest;
      BitsEnd(body[1..], rest);
    }
  }

  /** The region of a string literal is the whole token and decodes to its value. */
  lemma StringRegion(v: string, rest: string, kind: LitKind)
    requires Stops(rest)
    ensures var w := ['\''] + Doubled(v) + ['\''];
      RegionOf(w + rest, kind) == Extent(Text(v), |w|)
  {
    var s := ['\''] + Doubled(v) + ['\''] + rest;
    assert s[1..] == Doubled(v) + ['\''] + rest;
    QuotedRoundTrip(v, rest);
    hide Quoted, Escaped, NumberLength, DollarLength, BitsOf, BlockLength, NameLength, NewlineOffset, Doubled;
  }

  lemma BitsRegion(v: string, rest: string, kind: LitKind)
    requires GoodLit(Literal(LitBits, v))
    ensures var w := LitText(Literal(LitBits, v));
      RegionOf(w + rest, kind) == Extent(Bits(v), |w|)
  {
    var s := LitText(Literal(LitBits, v)) + rest;
    var body := v[1..];
    assert s[2..] == body + ['\''] + rest;
    BitsEnd(body, rest);
    assert s[2..2 + |body|] == s[2..][..|body|] == body;
    assert [v[0]] + v[1..] == v;
  }

  /** How a token is scanned: like its text alone, as far as the literal sought is concerned. */
  ghost predicate ScansLike(src: string, p: nat, w: string, lit: Literal)
  {
    var o := Find(w, 0, lit);
    && !o.Panic?
    && (o.Found? ==> o.end <= |w| && Find(src, p, lit) == Found(p + o.start, p + o.end))
    && (o.Missing? ==> Find(src, p, lit) == Find(src, p + |w|, lit))
  }

  lemma WordNumberRegion(w: string, rest: string, kind: LitKind)
    requires w != [] && Stops(rest) && Quiet(w) && IsNumberKind(kind) && StartsNumber(w, kind)
    ensures 0 < NumberLength(w) <= |w|
    ensures RegionOf(w + rest, kind) == Extent(Number(w[..NumberLength(w)]), NumberLength(w))
  {
    NumberStops(w, rest);
    NumberAdvances(w, kind);
    assert (w + rest)[0] == w[0] && (w + rest)[..NumberLength(w)] == w[..NumberLength(w)];
    assert |w + rest| > 1 && |w| == 1 ==> (w + rest)[1] == ' ';
    hide NumberLength;
  }

  /** How far one region reaches in a word. */
  function Stride(w: string, kind: LitKind): nat
    requires w != []
  {
    if IsNumberKind(kind) && StartsNumber(w, kind) then NumberLength(w) else 1
  }

  lemma WordStride(w: string, rest: string, kind: LitKind)
    requires w != [] && Stops(rest) && Quiet(w)
    ensures var n, x := Stride(w, kind), RegionOf(w, kind);
      && 0 < n <= |w| && Quiet(w[n..])
      && RegionOf(w + rest, kind) == x && x.used == n && !x.region.Fault?
  {
    assert w + [] == w;
    if IsNumberKind(kind) && StartsNumber(w, kind) {
      WordNumberRegion(w, rest, kind);
      WordNumberRegion(w, [], kind);
    } else {
      WordIsInert(w, rest, kind);
      WordIsInert(w, [], kind);
      InertRegion(w + rest, kind);
      InertRegion(w, kind);
    }
    hide RegionOf, NumberLength, StartsNumber;
  }

  /** A word followed by a blank or nothing scans like the word alone. */
  lemma {:induction false} WordRun(src: string, p: nat, w: string, whole: string, q: nat, rest: string, lit: Literal)
    requires p <= |src| && src[p..] == w + rest && Stops(rest) && q <= |whole| && whole[q..] == w && Quiet(w)
    ensures var o := Find(whole, q, lit);
      && !o.Panic?
      && (o.Found? ==> q <= o.start && o.end <= |whole| && Find(src, p, lit) == Found(p + o.start - q, p + o.end - q))
      && (o.Missing? ==> Find(src, p, lit) == Find(src, p + |w|, lit))
    decreases |w|
  {
    hide Find, RegionOf, NumberLength, Quiet, Stops, Holds, Stride;
    if w == [] {
      AtEnd(whole, q, lit);
    } else {
      var n := Stride(w, lit.kind);
      WordStride(w, rest, lit.kind);
      Step(src, p, w + rest, lit);
      Step(whole, q, w, lit);
      if !Holds(RegionOf(w, lit.kind).region, lit) {
        assert src[p + n..] == (w + rest)[n..] == w[n..] + rest;
        assert whole[q + n..] == w[n..];
        WordRun(src, p + n, w[n..], whole, q + n, rest, lit);
      }
    }
  }

  lemma AtEnd(src: string, q: nat, lit: Literal)
    requires q == |src|
    ensures Find(src, q, lit) == Missing
  {
  }

  lemma ScanWord(src: string, p: nat, w: string, rest: string, lit: Literal)
    requires p <= |src| && src[p..] == w + rest && Stops(rest) && Quiet(w)
    ensures ScansLike(src, p, w, lit)
  {
    assert w[0..] == w;
    WordRun(src, p, w, w, 0, rest, lit);
  }

  /** A word without digits contains nothing. */
  lemma DigitlessWord(w: string, lit: Literal)
    requires Quiet(w) && forall k :: 0 <= k < |w| ==> !IsDigit(w[k])
    ensures !Contains(Word(w), lit)
  {
    forall k | 0 <= k < |w| ensures Inert(w[k..], lit.kind) {
      var u := w[k..];
      assert u + [] == u;
      WordIsInert(u, [], lit.kind);
    }
    hide Find, Inert;
    InertRun(w, 0, |w|, lit);
    AtEnd(w, |w|, lit);
  }

  lemma ScanNumber(src: string, p: nat, u: Literal, rest: string, lit: Literal)
    requires p < |src| && src[p..] == u.value + rest && Stops(rest) && GoodLit(u) && GoodLit(lit)
    requires IsNumberKind(u.kind)
    ensures ScansLike(src, p, u.value, lit)
    ensures u == lit ==> Find(u.value, 0, lit) == Found(0, |u.value|)
    ensures Find(u.value, 0, lit).Found? <==> Contains(Lit(u, false), lit)
  {
    hide Find, RegionOf, TokenOf, Quoted, Escaped;
    var w := u.value;
    if u.kind.LitInt? { IntegersAreNumbers(w); }
    NumbersAreQuiet(w);
    ScanWord(src, p, w, rest, lit);
    hide ScansLike;
    NumberAlone(u, lit);
  }

  /** What a number holds, read by itself. */
  lemma NumberAlone(u: Literal, lit: Literal)
    requires GoodLit(u) && GoodLit(lit) && IsNumberKind(u.kind)
    ensures u == lit ==> Find(u.value, 0, lit) == Found(0, |u.value|)
    ensures Find(u.value, 0, lit).Found? <==> Contains(Lit(u, false), lit)
  {
    hide Find, RegionOf, TokenOf, Quoted, Escaped, Digits, NumberLength, IsPlainInteger;
    var w, n := u.value, |u.value|;
    assert w[0..] == w && w + [] == w && w[n..] == [] && w[..n] == w;
    if u.kind.LitInt? { IntegersAreNumbers(w); }
    if lit.kind.LitInt? { IntegersAreNumbers(lit.value); }
    NumbersAreQuiet(w);
    AtEnd(w, n, lit);
    if !IsNumberKind(lit.kind) {
      QuietRun(w, 0, w, [], lit);
    } else if StartsNumber(w, lit.kind) {
      WordNumberRegion(w, [], lit.kind);
      Step(w, 0, w, lit);
    } else {
      PointFirst(u, lit);
    }
  }

  /** A decimal that starts with its point, seen by a search for an integer. */
  lemma PointFirst(u: Literal, lit: Literal)
    requires GoodLit(u) && GoodLit(lit) && u.kind.LitFloat? && lit.kind.LitInt? && !IsDigit(u.value[0])
    ensures Find(u.value, 0, lit).Found? <==> u.value == "." + lit.value
  {
    hide Find, RegionOf, TokenOf, Quoted, Escaped, Inert, Quiet, Opens, Digits, NumberLength;
    var w, tail := u.value, u.value[1..];
    PointRegions(w);
    Step(w, 0, w, lit);
    Step(w, 1, tail, lit);
    AtEnd(w, |w|, lit);
    IntegersAreNumbers(lit.value);
    assert w == "." + tail && ("." + lit.value)[1..] == lit.value;
  }

  lemma PointRegions(w: string)
    requires |w| > 1 && w[0] == '.' && IsDigit(w[1]) && NumberLength(w) == |w|
    ensures w[0..] == w && RegionOf(w, LitInt) == Extent(Plain, 1)
    ensures RegionOf(w[1..], LitInt) == Extent(Number(w[1..]), |w| - 1)
  {
    hide RegionOf, TokenOf;
    var tail := w[1..];
    assert w + [] == w && tail + [] == tail && tail[..|tail|] == tail;
    TailIsNumber(w);
    NumbersAreQuiet(w);
    assert Quiet(tail);
    hide NumberLength;
    WordIsInert(w, [], LitInt);
    InertRegion(w, LitInt);
    WordNumberRegion(tail, [], LitInt);
  }

  lemma TailIsNumber(w: string)
    requires |w| > 1 && w[0] == '.' && IsDigit(w[1]) && NumberLength(w) == |w|
    ensures NumberLength(w[1..]) == |w| - 1
  {
    var b := FractionEnd(w);
    assert Digits(w) == 0 && b == 1 + Digits(w[1..]);
    DigitsRun(w[1..]);
    var t := w[1..];
    assert FractionEnd(t) == Digits(t);
    if b < |w| && IsExponent(w[b]) {
      var d := if b + 1 < |w| && (w[b + 1] == '+' || w[b + 1] == '-') then b + 2 else b + 1;
      assert w[d..] == t[d - 1..];
    }
  }

  /** A region that spans the whole token: found when it is the literal sought, and passed over otherwise. */
  lemma ScanWhole(src: string, p: nat, u: Literal, rest: string, lit: Literal)
    requires p < |src| && src[p..] == LitText(u) + rest && Stops(rest) && GoodLit(u) && GoodLit(lit)
    requires !IsNumberKind(u.kind)
    ensures u == lit ==> Find(src, p, lit) == Found(p, p + |LitText(u)|)
    ensures u != lit ==> Find(src, p, lit) == Find(src, p + |LitText(u)|, lit)
  {
    hide Find, RegionOf, Doubled, Stops;
    WholeRegion(u, rest, lit.kind);
    hide LitText, GoodLit;
    Step(src, p, LitText(u) + rest, lit);
  }

  lemma WholeRegion(u: Literal, rest: string, kind: LitKind)
    requires Stops(rest) && GoodLit(u) && !IsNumberKind(u.kind)
    ensures LitText(u) != []
    ensures RegionOf(LitText(u) + rest, kind)
         == Extent(if u.kind.LitString? then Text(u.value) else Bits(u.value), |LitText(u)|)
  {
    hide RegionOf, Doubled, Stops;
    if u.kind.LitString? {
      StringRegion(u.value, rest, kind);
    } else {
      BitsRegion(u.value, rest, kind);
    }
  }

  /** A string that touches the word before it is found at its own quotes if and only if the word does not end in a
      letter that opens an escape string or a bit string. */
  lemma TouchingStringIff(src: string, p: nat, w: string, v: string, rest: string)
    requires w != [] && Quiet(w) && Stops(rest)
    requires p <= |src| && src[p..] == w + (LitText(Literal(LitString, v)) + rest)
    ensures var last, at := w[|w| - 1], p + |w|;
      Find(src, p, Literal(LitString, v)) == Found(at, at + |LitText(Literal(LitString, v))|)
      <==> !IsExponent(last) && !IsBitPrefix(last)
  {
    hide Find, RegionOf, Doubled;
    var lit, n, text := Literal(LitString, v), |w| - 1, LitText(Literal(LitString, v)) + rest;
    forall k | p <= k < p + n ensures Inert(src[k..], LitString) {
      var u := src[p..][k - p..];
      assert src[k..] == u && u[0] == w[k - p] && u[1] == w[k - p + 1];
    }
    InertRun(src, p, n, lit);
    var s := src[p + n..];
    assert s == src[p..][n..] && s[0] == w[n] && s[1] == '\'' && s[1..] == text && src[p + n + 1..] == text;
    hide Quiet, Stops, LitText;
    if IsExponent(w[n]) || IsBitPrefix(w[n]) {
      hide Inert;
      FirstStopsEarly(src, p + n, lit);
    } else {
      assert Inert(s, LitString);
      hide Inert, Opens;
      InertStep(src, p + n, lit);
      WholeRegion(lit, rest, LitString);
      Step(src, p + n + 1, text, lit);
    }
  }

  lemma FirstStopsEarly(src: string, i: nat, lit: Literal)
    requires i + 1 < |src| && src[i + 1] == '\'' && (IsExponent(src[i]) || IsBitPrefix(src[i])) && lit.kind.LitString?
    ensures Find(src, i, lit).Found? ==> Find(src, i, lit).start != i + 1
  {
    hide Quoted, Escaped, NumberLength, DollarLength, BlockLength, NameLength, NewlineOffset, QuoteOffset;
    var s := src[i..];
    assert s[0] == src[i] && s[1] == src[i + 1];
    assert RegionOf(s, LitString).used >= 2;
  }

  lemma {:induction false} TagIsFirst(gap: string, tag: string, rest: string)
    requires tag != [] && tag[0] !in gap
    ensures IndexOf(gap + (tag + rest), tag) == |gap|
  {
    var s := gap + (tag + rest);
    if gap == [] {
      assert s[..|tag|] == tag;
    } else {
      assert s[..|tag|][0] == gap[0] != tag[0];
      assert s[1..] == gap[1..] + (tag + rest);
      forall c | c in gap[1..] ensures c in gap { }
      TagIsFirst(gap[1..], tag, rest);
    }
  }

  /** A statement that the parser accepts and the scan does not survive: a tag inside a name is taken for the opening of
      a dollar quote, which ends in a comment, and the comment goes on with an opened bit string. */
  lemma OpenBitStringPanics(w: string, gap: string, lit: Literal)
    requires (forall k :: 0 <= k < |w| ==> IsAlpha(w[k]) || w[k] == ' ') && '$' !in gap
    ensures Find(w + "$b$" + gap + "$b$ b'", 0, lit) == Panic
  {
    hide Find, IndexOf;
    var tail, n := "$b$" + gap + "$b$ b'", |w|;
    var src, m := w + "$b$" + gap + "$b$ b'", 6 + |gap|;
    assert src == w + tail && src[n..] == tail;
    forall k | 0 <= k < n ensures Inert(src[k..], lit.kind) {
      var v := src[k..];
      assert v[0] == w[k] && v[1] == if k + 1 < n then w[k + 1] else '$';
    }
    InertRun(src, 0, n, lit);
    DollarToTag(gap);
    hide Inert;
    Step(src, n, tail, lit);
    assert src[n + m..] == tail[m..] == " b'";
    Step(src, n + m, " b'", lit);
    assert src[n + m + 1..] == "b'";
    assert RegionOf("b'", lit.kind) == Extent(Fault, 2);
    PanicAt(src, n + m + 1, lit);
  }

  lemma PanicAt(src: string, i: nat, lit: Literal)
    requires i < |src| && RegionOf(src[i..], lit.kind).region.Fault?
    ensures Find(src, i, lit) == Panic
  {
  }

  lemma DollarToTag(gap: string)
    requires '$' !in gap
    ensures var s := "$b$" + gap + "$b$ b'"; DollarLength(s) == 6 + |gap|
  {
    var s := "$b$" + gap + "$b$ b'";
    assert s[1..][0] == 'b' && s[1..][1..][0] == '$';
    assert TagLength(s[1..][1..]) == 0 && TagLength(s[1..]) == 1;
    assert s[..3] == "$b$" && s[3..] == gap + ("$b$" + " b'");
    TagIsFirst(gap, "$b$", " b'");
  }

  /** For instance when the value of x is sought. */
  lemma StatementPanics()
    ensures var src := "select a" + "$b$" + " from t where x = 1 -- " + "$b$ b'";
      Find(src, 0, Literal(LitInt, "1")) == Panic
  {
    hide Find;
    var w, gap := "select a", " from t where x = 1 -- ";
    assert forall k :: 0 <= k < |gap| ==> gap[k] != '$';
    OpenBitStringPanics(w, gap, Literal(LitInt, "1"));
  }

  lemma IntegersAreNumbers(v: string)
    requires v != [] && Digits(v) == |v|
    ensures NumberLength(v) == |v| && IsPlainInteger(v) && IsDigit(v[0])
  {
    DigitsRun(v);
  }

  lemma NameRegion(body: string, rest: string, kind: LitKind)
    requires '"' !in body
    ensures RegionOf(['"'] + body + ['"'] + rest, kind) == Extent(QuotedName, |body| + 2)
  {
    var s := ['"'] + body + ['"'] + rest;
    assert s[1..] == body + ['"'] + rest;
    NameEnds(body, rest);
  }

  lemma CommentRegion(body: string, rest: string, kind: LitKind)
    requires forall k :: 0 <= k < |body| ==> !ClosesAt(body, k)
    ensures RegionOf("/*" + body + "*/" + rest, kind) == Extent(BlockComment, |body| + 4)
  {
    var s := "/*" + body + "*/" + rest;
    assert s[2..] == body + "*/" + rest;
    BlockEnds(body, rest);
  }

  lemma NoMatch(lit: Literal)
    ensures !Holds(LineComment, lit) && !Holds(Blank, lit)
  {
  }

  lemma ScanNote(src: string, p: nat, body: string, rest: string, lit: Literal)
    requires p <= |src| && src[p..] == "--" + body + "\n" + rest && '\n' !in body
    ensures Find(src, p, lit) == Find(src, p + |body| + 3, lit)
  {
    hide Find, TokenOf, Holds;
    var s, note := "--" + body + "\n" + rest, "--" + body;
    assert s == note + ['\n'] + rest;
    NoteEnds(note, rest);
    assert RegionOf(s, lit.kind) == Extent(LineComment, |note|);
    assert !Holds(LineComment, lit) && !Holds(Blank, lit) by { NoMatch(lit); }
    Step(src, p, s, lit);
    var q := p + |note|;
    assert src[q..] == s[|note|..] == ['\n'] + rest;
    Step(src, q, ['\n'] + rest, lit);
  }

  lemma LitTextIsNonempty(u: Literal)
    requires GoodLit(u)
    ensures LitText(u) != []
  {
  }

  /** Scanning over one token: it is found when it is the literal, the scan stops inside when it contains the literal,
      and passes over otherwise. */
  lemma ScanToken(src: string, p: nat, t: Tok, rest: string, lit: Literal)
    requires p <= |src| && src[p..] == TokText(t) + rest && Stops(rest) && GoodTok(t) && GoodLit(lit)
    ensures t.Lit? && t.lit == lit ==> Find(src, p, lit) == Found(p, p + |TokText(t)|)
    ensures Contains(t, lit) ==>
              && Find(src, p, lit).Found? && Find(src, p, lit).end <= p + |TokText(t)|
    ensures !Contains(t, lit) ==> Find(src, p, lit) == Find(src, p + |TokText(t)|, lit)
  {
    hide Find, RegionOf, TokenOf, GoodLit, Stops, LitText;
    match t {
      case Word(text) =>
        hide Quiet;
        ScanWord(src, p, text, rest, lit);
      case Name(body) =>
        NameRegion(body, rest, lit.kind);
        Step(src, p, TokText(t) + rest, lit);
      case Comment(body) =>
        CommentRegion(body, rest, lit.kind);
        Step(src, p, TokText(t) + rest, lit);
      case Note(body) => ScanNote(src, p, body, rest, lit);
      case Lit(u, _) =>
        LitTextIsNonempty(u);
        ScanLiteral(src, p, t, rest, lit);
    }
  }

  lemma ScanLiteral(src: string, p: nat, t: Tok, rest: string, lit: Literal)
    requires p < |src| && t.Lit? && src[p..] == LitText(t.lit) + rest && Stops(rest) && GoodLit(t.lit) && GoodLit(lit)
    ensures t.lit == lit ==> Find(src, p, lit) == Found(p, p + |LitText(t.lit)|)
    ensures Contains(t, lit) ==> Find(src, p, lit).Found? && Find(src, p, lit).end <= p + |LitText(t.lit)|
    ensures !Contains(t, lit) ==> Find(src, p, lit) == Find(src, p + |LitText(t.lit)|, lit)
  {
    hide Find, Stops, Doubled;
    if IsNumberKind(t.lit.kind) {
      ScanNumber(src, p, t.lit, rest, lit);
    } else {
      hide GoodLit;
      ScanWhole(src, p, t.lit, rest, lit);
    }
  }

  // --- Text rewrite and token substitution ---

  lemma GapGrows(gap: string, text: string, vs: seq<string>, r: Rewriting)
    ensures Prepend(gap + text, vs, r) == Prepend(gap, [], Prepend(text, vs, r))
  {
    if r.Rewritten? {
      assert gap + text + r.sql == gap + (text + r.sql);
      assert [] + (vs + r.values) == vs + r.values;
    }
  }

  lemma RewriteGap(src: string, pos: nat, p: nat, lits: seq<Literal>, k: nat)
    requires pos <= p <= |src|
    requires lits != [] ==> Find(src, pos, lits[0]) == Find(src, p, lits[0])
    ensures Rewrite(src, pos, lits, k) == Prepend(src[pos..p], [], Rewrite(src, p, lits, k))
  {
    hide Find, Decimal;
    if lits == [] {
      assert src[pos..] == src[pos..p] + src[p..];
    } else if Find(src, p, lits[0]).Found? {
      var o := Find(src, p, lits[0]);
      assert src[pos..o.start] + Placeholder(k) == src[pos..p] + (src[p..o.start] + Placeholder(k));
      GapGrows(src[pos..p], src[p..o.start] + Placeholder(k), [lits[0].value], Rewrite(src, o.end, lits[1..], k + 1));
    }
  }

  lemma SamePrefix(a: string, r: Rewriting, t: string, vs: seq<string>)
    ensures Prepend(a, [], r) == Rewritten(a + t, vs) <==> r == Rewritten(t, vs)
  {
    if r.Rewritten? {
      assert (a + r.sql)[|a|..] == r.sql && (a + t)[|a|..] == t;
      assert [] + r.values == r.values;
    }
  }

  lemma PrependOne(a: string, v: string, r: Rewriting, t: string, vs: seq<string>)
    ensures Prepend(a, [v], r) == Rewritten(a + t, [v] + vs) <==> r == Rewritten(t, vs)
  {
    if r.Rewritten? {
      assert (a + r.sql)[|a|..] == r.sql && (a + t)[|a|..] == t;
      assert ([v] + r.values)[1..] == r.values && ([v] + vs)[1..] == vs;
    }
  }

  lemma {:induction false} FirstLiveIsGood(ts: seq<Tok>)
    requires Good(ts) && Live(ts) != []
    ensures GoodLit(Live(ts)[0])
  {
    if ts[0].Lit? && ts[0].live {
      assert GoodTok(ts[0]);
    } else {
      FirstLiveIsGood(ts[1..]);
    }
  }

  ghost predicate Agrees(src: string, p: nat, ts: seq<Tok>, sep: string, k: nat)
    requires p <= |src|
  {
    Rewrite(src, p, Live(ts), k) == Rewritten(Joined(Subst(ts, k), sep), Values(Live(ts)))
  }

  lemma JoinedStep(t: Tok, ts: seq<Tok>, sep: string)
    ensures Joined([t] + ts, sep) == sep + TokText(t) + Joined(ts, " ")
  {
    assert ([t] + ts)[1..] == ts;
  }

  /** The scan passes over the first token: agreement is settled by the rest. */
  lemma PassToken(src: string, p: nat, ts: seq<Tok>, sep: string, k: nat, e: nat)
    requires ts != [] && p <= e <= |src| && src[p..e] == sep + TokText(ts[0])
    requires Live(ts) == Live(ts[1..])
    requires Live(ts) != [] ==> Find(src, p, Live(ts)[0]) == Find(src, e, Live(ts)[0])
    requires !(ts[0].Lit? && ts[0].live)
    ensures Agrees(src, p, ts, sep, k) <==> Agrees(src, e, ts[1..], " ", k)
  {
    hide Find, RegionOf, TokenOf;
    var tail := ts[1..];
    RewriteGap(src, p, e, Live(ts), k);
    SamePrefix(src[p..e], Rewrite(src, e, Live(tail), k), Joined(Subst(tail, k), " "), Values(Live(tail)));
    JoinedStep(ts[0], Subst(tail, k), sep);
  }

  /** The first token is collected and found. */
  lemma TakeToken(src: string, p: nat, ts: seq<Tok>, sep: string, k: nat, e: nat)
    requires ts != [] && ts[0].Lit? && ts[0].live
    requires p + |sep| <= e <= |src| && src[p..p + |sep|] == sep
    requires Find(src, p, ts[0].lit) == Found(p + |sep|, e)
    ensures Agrees(src, p, ts, sep, k) <==> Agrees(src, e, ts[1..], " ", k + 1)
  {
    hide Find, Decimal, LitText;
    var tail, c := ts[1..], ts[0].lit;
    var lits, text := Live(tail), Joined(Subst(tail, k + 1), " ");
    assert Live(ts) == [c] + lits && ([c] + lits)[1..] == lits;
    assert Values(Live(ts)) == [c.value] + Values(lits);
    var r := Rewrite(src, e, lits, k + 1);
    assert Rewrite(src, p, Live(ts), k) == Prepend(sep + Placeholder(k), [c.value], r);
    JoinedStep(Param(k), Subst(tail, k + 1), sep);
    assert Joined(Subst(ts, k), sep) == sep + Placeholder(k) + text;
    hide Rewrite, Joined, Prepend, Values, Live;
    PrependOne(sep + Placeholder(k), c.value, r, text, Values(lits));
  }

  lemma {:induction false} NotAtDollar(src: string, i: nat, lit: Literal)
    requires Find(src, i, lit).Found?
    ensures src[Find(src, i, lit).start] != '$'
  {
    FoundDecodes(src, i, lit);
    hide Find, Quoted, Escaped, NumberLength, DollarLength, BitsOf, BlockLength, NameLength, NewlineOffset;
  }

  /** The first token is left alone by the walk, yet the literal is found in it: the texts differ where it stands. */
  lemma ShadowToken(src: string, p: nat, ts: seq<Tok>, sep: string, k: nat, e: nat)
    requires ts != [] && !IsLive(ts[0]) && e == p + |sep| + |TokText(ts[0])| <= |src|
    requires src[p..e] == sep + TokText(ts[0])
    requires Live(ts) != [] && Find(src, p, Live(ts)[0]).Found? && Find(src, p, Live(ts)[0]).end <= e
    requires Find(src, p, Live(ts)[0]).start >= p + |sep|
    ensures !Agrees(src, p, ts, sep, k)
  {
    hide RegionOf, TokenOf;
    var t, o := ts[0], Find(src, p, Live(ts)[0]);
    NotAtDollar(src, p, Live(ts)[0]);
    hide Find, Quiet, LitText;
    var r := Rewrite(src, o.end, Live(ts)[1..], k + 1);
    assert Rewrite(src, p, Live(ts), k) == Prepend(src[p..o.start] + Placeholder(k), [Live(ts)[0].value], r);
    assert Placeholder(k)[0] == '$';
    hide Rewrite, Decimal, Placeholder, Contains;
    JoinedStep(t, Subst(ts[1..], k), sep);
    assert Subst(ts, k) == [t] + Subst(ts[1..], k);
    hide Joined, TokText, Subst, Live;
    var a := o.start - p;
    assert (sep + TokText(t))[a] == src[o.start];
    assert Joined(Subst(ts, k), sep)[a] == src[o.start];
    if r.Rewritten? {
      assert (src[p..o.start] + Placeholder(k) + r.sql)[a] == '$';
    }
  }

  lemma SplitText(src: string, p: nat, sep: string, tok: string, rest: string)
    requires p <= |src| && src[p..] == sep + tok + rest
    ensures var q := p + |sep|;
      var e := q + |tok|;
      && e <= |src|
      && src[p..q] == sep && src[p..e] == sep + tok
      && src[q..] == tok + rest && src[e..] == rest
  {
    var q := p + |sep|;
    var e := q + |tok|;
    assert src[q..] == src[p..][|sep|..];
    assert src[e..] == src[p..][|sep| + |tok|..];
    assert src[p..e] == src[p..][..|sep| + |tok|];
    assert src[p..q] == src[p..][..|sep|];
  }

  lemma RestStops(ts: seq<Tok>)
    ensures Stops(Joined(ts, " "))
  {
  }

  lemma LiveStep(ts: seq<Tok>)
    requires ts != []
    ensures Live(ts) == if IsLive(ts[0]) then [ts[0].lit] + Live(ts[1..]) else Live(ts[1..])
  {
  }

  lemma ScanJoined(src: string, p: nat, ts: seq<Tok>, sep: string, c: Literal)
    requires Good(ts) && ts != [] && GoodLit(c) && (sep == "" || sep == " ")
    requires p <= |src| && src[p..] == Joined(ts, sep)
    ensures var t := ts[0];
      var e := p + |sep| + |TokText(t)|;
      && e <= |src| && src[p..e] == sep + TokText(t) && src[p..p + |sep|] == sep && src[e..] == Joined(ts[1..], " ")
      && (t.Lit? && t.lit == c ==> Find(src, p, c) == Found(p + |sep|, e))
      && (Contains(t, c) ==> Find(src, p, c).Found? && Find(src, p, c).start >= p + |sep| && Find(src, p, c).end <= e)
      && (!Contains(t, c) ==> Find(src, p, c) == Find(src, e, c))
  {
    hide Find, TokenOf, Joined, TokText, GoodTok, Contains;
    var t, rest := ts[0], Joined(ts[1..], " ");
    assert Joined(ts, sep) == sep + TokText(t) + rest by { JoinedStep(t, ts[1..], sep); assert [t] + ts[1..] == ts; }
    SplitText(src, p, sep, TokText(t), rest);
    RestStops(ts[1..]);
    ScanToken(src, p + |sep|, t, rest, c);
    if sep != "" {
      assert src[p..][0] == src[p..p + 1][0] == ' ';
      Step(src, p, src[p..], c);
    }
  }

  /** The j-th collected literal has become the parameter that reads j, and the other tokens are as they were. */
  predicate ReadsInOrder(ts: seq<Tok>, us: seq<Tok>) {
    |us| == |ts|
    && forall i :: 0 <= i < |ts| ==>
         if IsLive(ts[i]) then ReadsAs(TokText(us[i]), 1 + |Live(ts[..i])|) else us[i] == ts[i]
  }

  lemma {:induction false} SubstAt(ts: seq<Tok>, k: nat, i: nat)
    requires i < |ts|
    ensures Subst(ts, k)[i] == if IsLive(ts[i]) then Param(k + |Live(ts[..i])|) else ts[i]
  {
    if i > 0 {
      assert ts[1..][..i - 1] == ts[..i][1..];
      SubstAt(ts[1..], if IsLive(ts[0]) then k + 1 else k, i - 1);
    }
  }

  lemma SubstIsNumbered(ts: seq<Tok>)
    ensures ReadsInOrder(ts, Subst(ts, 1))
  {
    hide Placeholder, Denotes;
    forall i | 0 <= i < |ts|
      ensures if IsLive(ts[i]) then ReadsAs(TokText(Subst(ts, 1)[i]), 1 + |Live(ts[..i])|) else Subst(ts, 1)[i] == ts[i]
    {
      SubstAt(ts, 1, i);
      PlaceholderReads(1 + |Live(ts[..i])|);
    }
  }

  lemma EmptyText(sep: string)
    ensures Joined([], sep) == ""
  {
  }

  lemma AgreesAtEnd(src: string, sep: string, k: nat)
    ensures Agrees(src, |src|, [], sep, k)
  {
  }

  /** From any token on, the text rewrite yields the substituted tokens iff no literal shadows a collected one. */
  lemma {:induction false} RewriteFrom(src: string, p: nat, ts: seq<Tok>, sep: string, k: nat)
    requires Good(ts) && (sep == "" || sep == " ")
    requires p <= |src| && src[p..] == Joined(ts, sep)
    ensures Agrees(src, p, ts, sep, k) <==> NoShadow(ts)
    decreases |ts|
  {
    hide Find, Rewrite, Joined, TokText, Agrees, Subst, Contains, GoodTok, Live;
    if ts == [] {
      assert Joined(ts, sep) == "" by { EmptyText(sep); }
      AgreesAtEnd(src, sep, k);
    } else {
      var t, tail := ts[0], ts[1..];
      LiveStep(ts);
      var c := if Live(ts) == [] then Literal(LitString, "") else Live(ts)[0];
      if Live(ts) != [] { FirstLiveIsGood(ts); }
      ScanJoined(src, p, ts, sep, c);
      var e := p + |sep| + |TokText(t)|;
      assert Good(tail) by { assert forall u :: u in tail ==> u in ts; }
      if t.Lit? && t.live {
        TakeToken(src, p, ts, sep, k, e);
        RewriteFrom(src, e, tail, " ", k + 1);
      } else if Live(ts) != [] && Contains(t, c) {
        ShadowToken(src, p, ts, sep, k, e);
      } else {
        assert Live(ts) == Live(tail);
        PassToken(src, p, ts, sep, k, e);
        RewriteFrom(src, e, tail, " ", k);
      }
    }
  }

  /**
   The rewrite of a printed text with its collected literals yields the printed form of the tokens
   with every collected literal replaced by its parameter, and the collected values, if and only if
   nothing that is not collected contains the next collected literal. The parameters read $1, $2 and so on.
   */
  lemma TextRewriteIffNoShadow(ts: seq<Tok>)
    requires Good(ts)
    ensures Rewrite(TextOf(ts), 0, Live(ts), 1) == Rewritten(TextOf(Subst(ts, 1)), Values(Live(ts))) <==> NoShadow(ts)
    ensures ReadsInOrder(ts, Subst(ts, 1))
  {
    SubstIsNumbered(ts);
    var src := TextOf(ts);
    assert src[0..] == src;
    RewriteFrom(src, 0, ts, "", 1);
  }
}
