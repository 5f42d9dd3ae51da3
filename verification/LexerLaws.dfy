/**
 What the scanner of pkg/pgfox/parser.go guarantees: where each lexical region ends, that the
 search returns the first match outside every region it must skip, and that the rewrite can be
 undone byte for byte.
 */
module LexerLaws {
  import opened Lexer

  // --- Regions, declaratively ---

  /** The quoting of a string body: every quote is doubled. */
  function Doubled(v: string): string {
    if v == [] then [] else (if v[0] == '\'' then ['\'', '\''] else [v[0]]) + Doubled(v[1..])
  }

  ghost predicate ClosedBody(s: string, r: Reading) {
    r.used <= |s| && s[..r.used] == Doubled(r.value) + ['\''] && (r.used < |s| ==> s[r.used] != '\'')
  }

  ghost predicate OpenBody(s: string, r: Reading) { r.used == |s| && s == Doubled(r.value) }

  /** The reader decodes exactly the doubled body of a maximal closed string, or all of an unclosed one. */
  lemma {:induction false} QuotedDecodes(s: string)
    ensures ClosedBody(s, Quoted(s)) || OpenBody(s, Quoted(s))
  {
    if s == [] {
    } else if s[0] != '\'' || (|s| > 1 && s[1] == '\'') {
      var mark := if s[0] != '\'' then [s[0]] else ['\'', '\''];
      var rest := s[|mark|..];
      assert s == mark + rest;
      assert Quoted(s) == Reading([s[0]] + Quoted(rest).value, Quoted(rest).used + |mark|);
      hide Quoted, ClosedBody, OpenBody;
      QuotedDecodes(rest);
      BodyGrows(mark, s[0], rest, Quoted(rest));
    } else {
      assert s[..1] == Doubled("") + ['\''];
    }
  }

  lemma BodyGrows(mark: string, c: char, s: string, r: Reading)
    requires mark == if c == '\'' then ['\'', '\''] else [c]
    requires ClosedBody(s, r) || OpenBody(s, r)
    ensures var r' := Reading([c] + r.value, r.used + |mark|);
      ClosedBody(mark + s, r') || OpenBody(mark + s, r')
  {
    assert ([c] + r.value)[1..] == r.value;
    assert Doubled([c] + r.value) == mark + Doubled(r.value);
    if ClosedBody(s, r) {
      assert (mark + s)[..r.used + |mark|] == mark + s[..r.used] == mark + Doubled(r.value) + ['\''];
    }
  }

  /** Reading a doubled body back, whatever follows the closing quote except another quote. */
  lemma {:induction false} QuotedRoundTrip(v: string, rest: string)
    requires rest != [] ==> rest[0] != '\''
    ensures Quoted(Doubled(v) + ['\''] + rest) == Reading(v, |Doubled(v)| + 1)
  {
    var s := Doubled(v) + ['\''] + rest;
    if v == [] {
      assert s[1..] == rest;
    } else {
      var n := if v[0] == '\'' then 2 else 1;
      assert Doubled(v)[n..] == Doubled(v[1..]);
      assert s[n..] == Doubled(v[1..]) + ['\''] + rest;
      QuotedRoundTrip(v[1..], rest);
      assert v == [v[0]] + v[1..];
    }
  }

  lemma {:induction false} NewlineIsFirst(s: string)
    ensures forall k :: 0 <= k < NewlineOffset(s) ==> s[k] != '\n'
    ensures NewlineOffset(s) < |s| ==> s[NewlineOffset(s)] == '\n'
  {
    if s != [] && s[0] != '\n' { NewlineIsFirst(s[1..]); }
  }

  lemma {:induction false} NameCloseIsFirst(s: string)
    ensures forall k :: 0 <= k < NameLength(s) - 1 ==> s[k] != '"'
    ensures (NameLength(s) > 0 && s[NameLength(s) - 1] == '"') || (NameLength(s) == |s| && '"' !in s)
  {
    if s != [] && s[0] != '"' { NameCloseIsFirst(s[1..]); }
  }

  predicate ClosesAt(s: string, k: int) { 0 <= k < |s| - 1 && s[k] == '*' && s[k + 1] == '/' }

  lemma {:induction false} BlockCloseIsFirst(s: string)
    ensures forall k :: 0 <= k < BlockLength(s) - 2 ==> !ClosesAt(s, k)
    ensures BlockLength(s) <= |s| ==> ClosesAt(s, BlockLength(s) - 2)
    ensures BlockLength(s) > |s| ==> BlockLength(s) == (if s == [] then 2 else |s| + 1) && forall k :: !ClosesAt(s, k)
  {
    if |s| > 1 && !(s[0] == '*' && s[1] == '/') {
      var t := s[1..];
      BlockCloseIsFirst(t);
      forall k | 1 <= k ensures ClosesAt(s, k) == ClosesAt(t, k - 1) {}
    }
  }

  lemma {:induction false} QuoteIsFirst(s: string)
    ensures forall k :: 0 <= k < QuoteOffset(s) ==> s[k] != '\''
    ensures QuoteOffset(s) < |s| ==> s[QuoteOffset(s)] == '\''
  {
    if s != [] && s[0] != '\'' { QuoteIsFirst(s[1..]); }
  }

  /** A closed dollar quote ends at the first repetition of its tag; without a tag the sign stands alone. */
  ghost predicate IsDollarQuote(s: string, used: nat)
    requires s != []
  {
    var m := 2 + TagLength(s[1..]);
    if m <= |s| && s[m - 1] == '$' then
      && m <= used <= |s|
      && (forall k :: m <= k < used - m ==> !OccursAt(s, s[..m], k))
      && ((2 * m <= used && OccursAt(s, s[..m], used - m)) || (used == |s|
          && forall k :: m <= k ==> !OccursAt(s, s[..m], k)))
    else used == 1
  }

  predicate OccursAt(s: string, t: string, k: int) { 0 <= k && k + |t| <= |s| && s[k..k + |t|] == t }

  lemma {:induction false} IndexIsFirst(s: string, t: string)
    ensures IndexOf(s, t) <= |s| ==> OccursAt(s, t, IndexOf(s, t))
    ensures forall k :: 0 <= k < IndexOf(s, t) ==> !OccursAt(s, t, k)
  {
    if |t| <= |s| && s[..|t|] != t {
      IndexIsFirst(s[1..], t);
      forall k | 1 <= k ensures OccursAt(s, t, k) == OccursAt(s[1..], t, k - 1) { OccursInTail(s, t, 1, k - 1); }
    }
  }

  lemma OccursInTail(s: string, t: string, m: nat, k: nat)
    requires m <= |s|
    ensures OccursAt(s[m..], t, k) == OccursAt(s, t, m + k)
  {
    if m + k + |t| <= |s| { assert s[m..][k..k + |t|] == s[m + k..m + k + |t|]; }
  }

  lemma DollarIsAsDeclared(s: string)
    requires s != [] && s[0] == '$'
    ensures IsDollarQuote(s, DollarLength(s))
  {
    hide IndexOf, TagLength;
    var m := 2 + TagLength(s[1..]);
    if m <= |s| && s[m - 1] == '$' {
      var tag, body := s[..m], s[m..];
      hide OccursAt;
      IndexIsFirst(body, tag);
      forall k | m <= k ensures OccursAt(s, tag, k) == OccursAt(body, tag, k - m) { OccursInTail(s, tag, m, k - m); }
    }
  }

  // --- Escape strings, declaratively ---

  /** What an escape-string body is written with: a plain character, a backslash pair or a doubled quote. */
  datatype Unit = Raw(c: char) | Slash(c: char) | Pair

  function UnitText(u: Unit): string {
    match u
    case Raw(c) => [c]
    case Slash(c) => ['\\', c]
    case Pair => ['\'', '\'']
  }

  /** The characters that have a letter of their own after a backslash. */
  const CONTROL := map['n' := '\n', 't' := '\t', 'r' := '\r']

  function UnitChar(u: Unit): char {
    match u
    case Raw(c) => c
    case Slash(c) => if c in CONTROL then CONTROL[c] else c
    case Pair => '\''
  }

  function Written(us: seq<Unit>): string { if us == [] then [] else UnitText(us[0]) + Written(us[1..]) }

  function Meant(us: seq<Unit>): string { if us == [] then [] else [UnitChar(us[0])] + Meant(us[1..]) }

  /** A plain unit is no quote, and a backslash only as the last byte of the text. */
  predicate PlainUnits(us: seq<Unit>, s: string) {
    forall i :: 0 <= i < |us| && us[i].Raw? ==>
      us[i].c != '\'' && (us[i].c == '\\' ==> i == |us| - 1 && s == Written(us))
  }

  /** An escape-string body at the head of s: units up to the first quote that is neither escaped nor doubled, or to the
      end. */
  ghost predicate EscapeBody(s: string, us: seq<Unit>, used: nat) {
    && PlainUnits(us, s)
    && ((used <= |s| && s[..used] == Written(us) + ['\''] && (used < |s| ==> s[used] != '\''))
        || (used == |s| && s == Written(us)))
  }

  lemma Slices(s: string, k: nat, a: nat, b: nat)
    requires a <= b <= k <= |s|
    ensures s[..k][a..b] == s[a..b] == s[a..][..b - a]
  {
  }

  lemma UnitIsRead(u: Unit, rest: string)
    requires u.Raw? ==> u.c != '\'' && (u.c == '\\' ==> rest == [])
    ensures var r := Escaped(rest);
      Escaped(UnitText(u) + rest) == Reading([UnitChar(u)] + r.value, |UnitText(u)| + r.used)
  {
    var s := UnitText(u) + rest;
    assert s[|UnitText(u)|..] == rest;
  }

  lemma {:induction false} EscapeBodyIsRead(s: string, us: seq<Unit>, used: nat)
    requires EscapeBody(s, us, used)
    ensures Escaped(s) == Reading(Meant(us), used)
    decreases |us|
  {
    if us != [] {
      var m := |UnitText(us[0])|;
      EscapeTail(s, us, used);
      hide EscapeBody, Escaped, UnitText;
      EscapeBodyIsRead(s[m..], us[1..], used - m);
      UnitIsRead(us[0], s[m..]);
    }
  }

  lemma EscapeTail(s: string, us: seq<Unit>, used: nat)
    requires EscapeBody(s, us, used) && us != []
    ensures var m := |UnitText(us[0])|;
      && m <= used && m <= |s| && EscapeBody(s[m..], us[1..], used - m)
      && s == UnitText(us[0]) + s[m..]
      && (us[0].Raw? ==> us[0].c != '\'' && (us[0].c == '\\' ==> s[m..] == []))
  {
    var mark, tail := UnitText(us[0]), us[1..];
    var m := |mark|;
    var rest := s[m..];
    hide UnitText;
    assert Written(us) == mark + Written(tail);
    if s == Written(us) {
      assert rest == Written(tail);
    } else {
      var body := Written(tail) + ['\''];
      assert s[..used] == mark + body;
      Slices(s, used, 0, m);
      Slices(s, used, m, used);
      assert rest[..used - m] == body;
      assert s == s[..m] + rest;
    }
    assert us[0].Raw? && us[0].c == '\\' ==> |us| == 1 && s == Written(us);
    forall i | 0 <= i < |tail| && tail[i].Raw?
      ensures tail[i].c != '\'' && (tail[i].c == '\\' ==> i == |tail| - 1 && rest == Written(tail))
    {
      assert tail[i] == us[i + 1];
    }
  }

  /** The units of the body that the reader takes. */
  function UnitsOf(s: string): seq<Unit> {
    if s == [] then []
    else if s[0] == '\\' && |s| > 1 then [Slash(s[1])] + UnitsOf(s[2..])
    else if s[0] != '\'' then [Raw(s[0])] + UnitsOf(s[1..])
    else if |s| > 1 && s[1] == '\'' then [Pair] + UnitsOf(s[2..])
    else []
  }

  lemma {:induction false} ReadIsEscapeBody(s: string)
    ensures EscapeBody(s, UnitsOf(s), Escaped(s).used) && Escaped(s).value == Meant(UnitsOf(s))
  {
    if UnitsOf(s) != [] {
      FirstUnit(s);
      hide Escaped, UnitsOf, EscapeBody, UnitText, Written;
      var u := UnitsOf(s)[0];
      var rest := s[|UnitText(u)|..];
      ReadIsEscapeBody(rest);
      EscapeGrows(u, rest, UnitsOf(rest), Escaped(rest).used);
    } else if s != [] {
      assert s[..1] == Written([]) + ['\''];
    }
  }

  /** The reader takes one unit, and then the rest. */
  lemma FirstUnit(s: string)
    requires UnitsOf(s) != []
    ensures var u := UnitsOf(s)[0];
      var m := |UnitText(u)|;
      && 0 < m <= |s| && s == UnitText(u) + s[m..]
      && UnitsOf(s) == [u] + UnitsOf(s[m..])
      && Escaped(s) == Reading([UnitChar(u)] + Escaped(s[m..]).value, m + Escaped(s[m..]).used)
      && (u.Raw? ==> u.c != '\'' && (u.c == '\\' ==> s[m..] == [] && UnitsOf(s[m..]) == []))
  {
  }

  lemma EscapeGrows(u: Unit, s: string, us: seq<Unit>, used: nat)
    requires EscapeBody(s, us, used)
    requires u.Raw? ==> u.c != '\'' && (u.c == '\\' ==> s == [] && us == [])
    ensures var mark := UnitText(u);
      EscapeBody(mark + s, [u] + us, |mark| + used)
    ensures Meant([u] + us) == [UnitChar(u)] + Meant(us)
  {
    var mark, vs := UnitText(u), [u] + us;
    var t := mark + s;
    assert vs[1..] == us;
    assert Written(vs) == mark + Written(us);
    if used <= |s| && s[..used] == Written(us) + ['\''] {
      assert t[..|mark| + used] == mark + s[..used] == Written(vs) + ['\''];
    }
    forall i | 0 <= i < |vs| && vs[i].Raw?
      ensures vs[i].c != '\'' && (vs[i].c == '\\' ==> i == |vs| - 1 && t == Written(vs))
    {
      if i > 0 { assert vs[i] == us[i - 1]; }
    }
  }

  /** The reader of escape strings takes exactly the declared body and returns what it means. */
  lemma EscapedDecodesIff(s: string, r: Reading)
    ensures Escaped(s) == r <==> exists us :: EscapeBody(s, us, r.used) && r.value == Meant(us)
  {
    ReadIsEscapeBody(s);
    if us :| EscapeBody(s, us, r.used) && r.value == Meant(us) { EscapeBodyIsRead(s, us, r.used); }
  }

  // --- Numbers, declaratively ---

  predicate AllDigits(t: string) { forall k :: 0 <= k < |t| ==> IsDigit(t[k]) }

  predicate IsExponentPart(e: string) {
    e == [] || (IsExponent(e[0]) && (AllDigits(e[1..]) || (|e| > 1 && (e[1] == '+' || e[1] == '-')
        && AllDigits(e[2..]))))
  }

  /** Digits up to a, a fraction up to b, an exponent to the end; each may be missing. */
  predicate NumeralAt(t: string, a: nat, b: nat) {
    && a <= b <= |t| && AllDigits(t[..a])
    && (b == a || (t[a] == '.' && AllDigits(t[a + 1..b])))
    && IsExponentPart(t[b..])
  }

  ghost predicate IsNumeral(t: string) { exists a: nat, b: nat :: NumeralAt(t, a, b) }

  lemma {:induction false} DigitsAtLeast(s: string, m: nat)
    requires m <= |s| && AllDigits(s[..m])
    ensures Digits(s) >= m
  {
    if m > 0 {
      assert s[0] == s[..m][0];
      assert s[1..][..m - 1] == s[..m][1..];
      DigitsAtLeast(s[1..], m - 1);
    }
  }

  lemma DigitsAreDigits(s: string)
    ensures AllDigits(s[..Digits(s)])
    ensures Digits(s) < |s| ==> !IsDigit(s[Digits(s)])
  {
    DigitsRun(s);
  }

  /** The number that the reader takes is a numeral. */
  lemma NumberIsNumeral(s: string)
    ensures IsNumeral(s[..NumberLength(s)])
  {
    hide Digits;
    var a, b, n := Digits(s), FractionEnd(s), NumberLength(s);
    var t := s[..n];
    DigitsAreDigits(s);
    assert t[..a] == s[..a];
    if b > a {
      DigitsAreDigits(s[a + 1..]);
      Slices(s, n, a + 1, b);
    }
    ExponentIsPart(s, b);
    assert t[b..] == s[b..n];
    assert NumeralAt(t, a, b);
  }

  lemma ExponentIsPart(s: string, b: nat)
    requires b <= |s|
    ensures IsExponentPart(s[b..ExponentEnd(s, b)])
  {
    hide Digits;
    var e := s[b..ExponentEnd(s, b)];
    if b < |s| && IsExponent(s[b]) {
      var d := if b + 1 < |s| && (s[b + 1] == '+' || s[b + 1] == '-') then b + 2 else b + 1;
      DigitsAreDigits(s[d..]);
      assert e[d - b..] == s[d..][..ExponentEnd(s, b) - d];
    }
  }

  lemma ExponentReaches(s: string, b: nat, k: nat)
    requires b < k <= |s| && IsExponentPart(s[b..k])
    ensures ExponentEnd(s, b) >= k
  {
    hide Digits;
    var e := s[b..k];
    if AllDigits(e[1..]) {
      if |e| > 1 {
        assert IsDigit(e[1..][0]) && s[b + 1] == e[1];
        assert s[b + 1..][..k - b - 1] == e[1..];
        DigitsAtLeast(s[b + 1..], k - b - 1);
      }
    } else {
      assert s[b + 1] == e[1];
      assert s[b + 2..][..k - b - 2] == e[2..];
      DigitsAtLeast(s[b + 2..], k - b - 2);
    }
  }

  /** No longer prefix of the text is a numeral. */
  lemma NumeralFits(s: string, k: nat, a: nat, b: nat)
    requires k <= |s| && NumeralAt(s[..k], a, b)
    ensures NumberLength(s) >= k
  {
    hide Digits;
    var t := s[..k];
    assert t[..a] == s[..a];
    DigitsAtLeast(s, a);
    DigitsAreDigits(s);
    if a < k && !IsDigit(t[a]) { assert s[a] == t[a]; assert Digits(s) == a by { DigitsEndAt(s, a); } }
    if b > a {
      assert !IsDigit('.');
      Slices(s, k, a + 1, b);
      DigitsAtLeast(s[a + 1..], b - a - 1);
    }
    if b < k {
      assert t[b..] == s[b..k] && IsExponent(s[b]);
      if b > a { DigitsEndAt(s[a + 1..], b - a - 1); } else { DigitsEndAt(s, a); }
      ExponentReaches(s, b, k);
    }
  }

  lemma DigitsEndAt(s: string, m: nat)
    requires m < |s| && AllDigits(s[..m]) && !IsDigit(s[m])
    ensures Digits(s) == m
  {
    DigitsAtLeast(s, m);
    DigitsRun(s);
  }

  /** The reader of numbers takes the longest prefix that is a numeral: no longer one is. */
  lemma NumberIsLongest(s: string)
    ensures IsNumeral(s[..NumberLength(s)])
    ensures forall k :: NumberLength(s) < k <= |s| ==> !IsNumeral(s[..k])
  {
    hide NumberLength;
    NumberIsNumeral(s);
    forall k | NumberLength(s) < k <= |s| ensures !IsNumeral(s[..k]) {
      if IsNumeral(s[..k]) {
        var a: nat, b: nat :| NumeralAt(s[..k], a, b);
        NumeralFits(s, k, a, b);
      }
    }
  }

  /** The classes of characters by their members; letters by their codes. */
  lemma CharacterClasses(c: char)
    ensures IsWs(c) <==> c in " \t\n\r"
    ensures IsDigit(c) <==> c in "0123456789"
    ensures IsBitPrefix(c) <==> c in "BbXx"
    ensures IsExponent(c) <==> c in "eE"
    ensures IsAlpha(c) <==> c == '_' || 65 <= c as int <= 90 || 97 <= c as int <= 122
  {
    if IsDigit(c) { assert "0123456789"[c as int - '0' as int] == c; }
  }

  /** Two characters that open a comment, an escape string or a bit string. */
  predicate Opens(s: string) {
    && |s| > 1
    && (|| (s[0] == '-' && s[1] == '-')
        || (s[0] == '/' && s[1] == '*')
        || ((IsExponent(s[0]) || IsBitPrefix(s[0])) && s[1] == '\''))
  }

  /** A declarative reading of one region: its opening marks, its first closing mark, and what it decodes to; numbers
      are looked for only by a search for a number. */
  ghost predicate IsRegion(s: string, kind: LitKind, x: Extent)
    requires s != []
  {
    match x.region
    case Blank => x.used == 1 && IsWs(s[0])
    case LineComment =>
      && |s| > 1 && s[0] == s[1] == '-' && x.used <= |s|
      && (forall k :: 0 <= k < x.used ==> s[k] != '\n')
      && (x.used < |s| ==> s[x.used] == '\n')
    case BlockComment =>
      && |s| > 1 && s[0] == '/' && s[1] == '*' && x.used >= 4
      && (forall k :: 2 <= k < x.used - 2 ==> !ClosesAt(s, k))
      && (if x.used <= |s| then ClosesAt(s, x.used - 2)
          else x.used == (if |s| > 2 then |s| + 1 else 4) && forall k :: 2 <= k ==> !ClosesAt(s, k))
    case QuotedName =>
      && s[0] == '"' && 1 <= x.used <= |s|
      && (forall k :: 1 <= k < x.used - 1 ==> s[k] != '"')
      && (x.used < |s| ==> x.used > 1 && s[x.used - 1] == '"')
    case Text(v) =>
      && 0 < x.used <= |s|
      && (s[0] == '\'' ==>
            || (s[..x.used] == ['\''] + Doubled(v) + ['\''] && (x.used < |s| ==> s[x.used] != '\''))
            || (x.used == |s| && s == ['\''] + Doubled(v)))
      && (s[0] != '\'' ==>
            && IsExponent(s[0]) && |s| > 1 && s[1] == '\'' && x.used >= 2
            && exists us :: EscapeBody(s[2..], us, x.used - 2) && v == Meant(us))
    case Dollar => s[0] == '$' && IsDollarQuote(s, x.used)
    case Bits(v) =>
      && 2 < x.used <= |s| && IsBitPrefix(s[0]) && s[1] == '\''
      && (forall k :: 2 <= k < x.used - 1 ==> s[k] != '\'')
      && (s[x.used - 1] == '\'' || x.used == |s|)
      && v == [s[0]] + s[2..x.used - 1]
    case Number(t) =>
      && 0 < x.used <= |s| && t == s[..x.used] && StartsNumber(s, kind) && IsNumeral(t)
      && forall k :: x.used < k <= |s| ==> !IsNumeral(s[..k])
    case Plain =>
      && x.used == 1 && !IsWs(s[0]) && s[0] != '"' && s[0] != '\'' && s[0] != '$'
      && !Opens(s) && !StartsNumber(s, kind)
    case Fault => x.used == |s| == 2 && IsBitPrefix(s[0]) && s[1] == '\''
  }

  lemma BlockIsAsDeclared(s: string, kind: LitKind)
    requires |s| > 1 && s[0] == '/' && s[1] == '*'
    ensures IsRegion(s, kind, Extent(BlockComment, 2 + BlockLength(s[2..])))
  {
    BlockCloseIsFirst(s[2..]);
    forall k | 2 <= k ensures ClosesAt(s, k) == ClosesAt(s[2..], k - 2) {}
  }

  lemma StringIsAsDeclared(s: string, kind: LitKind)
    requires s != [] && s[0] == '\''
    ensures var r := Quoted(s[1..]); IsRegion(s, kind, Extent(Text(r.value), 1 + r.used))
  {
    var t, r := s[1..], Quoted(s[1..]);
    QuotedDecodes(t);
    assert s == ['\''] + t && s[..1 + r.used] == ['\''] + t[..r.used];
    assert ['\''] + (Doubled(r.value) + ['\'']) == ['\''] + Doubled(r.value) + ['\''];
  }

  lemma BitsAreAsDeclared(s: string, kind: LitKind)
    requires |s| > 1 && IsBitPrefix(s[0]) && s[1] == '\''
    ensures IsRegion(s, kind, BitsOf(s))
  {
    QuoteIsFirst(s[2..]);
    assert forall k :: 2 <= k < |s| ==> s[k] == s[2..][k - 2];
  }

  lemma NumberIsAsDeclared(s: string, kind: LitKind)
    requires s != [] && StartsNumber(s, kind)
    ensures IsRegion(s, kind, Extent(Number(s[..NumberLength(s)]), NumberLength(s)))
  {
    NumberAdvances(s, kind);
    hide NumberLength, IsNumeral;
    NumberIsLongest(s);
  }

  lemma TokensAreAsDeclared(s: string, kind: LitKind)
    requires s != [] && !IsWs(s[0]) && s[0] != '"'
    requires |s| > 1 ==> !(s[0] == '-' && s[1] == '-') && !(s[0] == '/' && s[1] == '*')
    ensures IsRegion(s, kind, TokenOf(s, kind))
  {
    var quoteNext := |s| > 1 && s[1] == '\'';
    if StartsNumber(s, kind) {
      NumberIsAsDeclared(s, kind);
    } else if s[0] == '\'' {
      StringIsAsDeclared(s, kind);
    } else if IsExponent(s[0]) && quoteNext {
      ReadIsEscapeBody(s[2..]);
    } else if s[0] == '$' {
      DollarIsAsDeclared(s);
    } else if IsBitPrefix(s[0]) && quoteNext {
      BitsAreAsDeclared(s, kind);
    }
  }

  /** Each region the scanner recognises is one of the declared shapes, at its declared length. */
  lemma RegionsAreAsDeclared(s: string, kind: LitKind)
    requires s != []
    ensures IsRegion(s, kind, RegionOf(s, kind))
  {
    if IsWs(s[0]) {
    } else if s[0] == '-' && |s| > 1 && s[1] == '-' {
      NewlineIsFirst(s);
    } else if s[0] == '/' && |s| > 1 && s[1] == '*' {
      BlockIsAsDeclared(s, kind);
    } else if s[0] == '"' {
      NameCloseIsFirst(s[1..]);
    } else {
      TokensAreAsDeclared(s, kind);
    }
  }

  /** Which of the shapes a region has. */
  function Shape(r: Region): nat {
    match r
    case Blank => 0
    case LineComment => 1
    case BlockComment => 2
    case QuotedName => 3
    case Text(_) => 4
    case Dollar => 5
    case Bits(_) => 6
    case Number(_) => 7
    case Plain => 8
    case Fault => 9
  }

  /** The first two characters, with the literal sought, decide the shape; of bit strings also the length. */
  function Opening(s: string, kind: LitKind): nat
    requires s != []
  {
    if IsWs(s[0]) then 0
    else if s[0] == '"' then 3
    else if StartsNumber(s, kind) then 7
    else if s[0] == '$' then 5
    else if s[0] == '\'' then 4
    else if !Opens(s) then 8
    else if s[0] == '-' then 1
    else if s[0] == '/' then 2
    else if IsExponent(s[0]) then 4
    else if |s| == 2 then 9
    else 6
  }

  lemma ShapeIsDecided(s: string, kind: LitKind, x: Extent)
    requires s != [] && IsRegion(s, kind, x)
    ensures Shape(x.region) == Opening(s, kind)
  {
    hide IsNumeral, EscapeBody, Doubled, IsDollarQuote, ClosesAt, Meant;
  }

  lemma EscapesAreUnique(s: string, v: string, w: string, m: nat, n: nat)
    requires exists us :: EscapeBody(s, us, m) && v == Meant(us)
    requires exists us :: EscapeBody(s, us, n) && w == Meant(us)
    ensures v == w && m == n
  {
    EscapedDecodesIff(s, Reading(v, m));
    EscapedDecodesIff(s, Reading(w, n));
  }

  /** The reader of quoted strings takes exactly the declared body: doubled, maximal, or unclosed to the end. */
  lemma {:induction false} BodyIsRead(s: string, v: string, m: nat)
    requires ClosedBody(s, Reading(v, m)) || OpenBody(s, Reading(v, m))
    ensures Quoted(s) == Reading(v, m)
    decreases |v|
  {
    if v != [] {
      var j := if v[0] == '\'' then 2 else 1;
      BodyShrinks(s, v, m);
      hide ClosedBody, OpenBody;
      BodyIsRead(s[j..], v[1..], m - j);
      assert v == [v[0]] + v[1..];
    }
  }

  lemma BodyShrinks(s: string, v: string, m: nat)
    requires v != [] && (ClosedBody(s, Reading(v, m)) || OpenBody(s, Reading(v, m)))
    ensures var j := if v[0] == '\'' then 2 else 1;
      && j <= m && j <= |s| && s[0] == v[0] && (j == 2 ==> s[1] == '\'')
      && (ClosedBody(s[j..], Reading(v[1..], m - j)) || OpenBody(s[j..], Reading(v[1..], m - j)))
  {
    var j := if v[0] == '\'' then 2 else 1;
    var mark := if v[0] == '\'' then ['\'', '\''] else [v[0]];
    assert Doubled(v) == mark + Doubled(v[1..]);
    assert s[..m][..j] == mark && s[..m][j..] == s[j..][..m - j];
  }

  lemma StringBody(s: string, kind: LitKind, x: Extent)
    requires s != [] && s[0] == '\'' && x.region.Text? && IsRegion(s, kind, x)
    ensures var r := Reading(x.region.value, x.used - 1); ClosedBody(s[1..], r) || OpenBody(s[1..], r)
  {
    var t := s[1..];
    assert s == ['\''] + t;
    if s[..x.used] == ['\''] + Doubled(x.region.value) + ['\''] {
      assert t[..x.used - 1] == s[..x.used][1..];
    } else {
      assert t == s[1..];
    }
  }

  lemma OneOfAShape(s: string, kind: LitKind, x: Extent, y: Extent)
    requires s != [] && IsRegion(s, kind, x) && IsRegion(s, kind, y) && Shape(x.region) == Shape(y.region)
    ensures x == y
  {
    hide IsNumeral, EscapeBody, Doubled, IsDollarQuote, StartsNumber, Opens;
    if x.region.Text? {
      TextsAreUnique(s, kind, x, y);
    } else if x.region.Dollar? {
      DollarsAreUnique(s, x.used, y.used);
    } else if x.region.BlockComment? {
      if x.used <= |s| { assert ClosesAt(s, x.used - 2); }
      if y.used <= |s| { assert ClosesAt(s, y.used - 2); }
    }
  }

  lemma TextsAreUnique(s: string, kind: LitKind, x: Extent, y: Extent)
    requires s != [] && IsRegion(s, kind, x) && IsRegion(s, kind, y) && x.region.Text? && y.region.Text?
    ensures x == y
  {
    hide IsNumeral, EscapeBody, Doubled;
    if s[0] == '\'' {
      StringBody(s, kind, x);
      StringBody(s, kind, y);
      BodyIsRead(s[1..], x.region.value, x.used - 1);
      BodyIsRead(s[1..], y.region.value, y.used - 1);
    } else {
      EscapesAreUnique(s[2..], x.region.value, y.region.value, x.used - 2, y.used - 2);
    }
  }

  /** The declaration leaves no choice: two regions at the head of a text are the same, in kind, length and value. */
  lemma RegionsAreUnique(s: string, kind: LitKind, x: Extent, y: Extent)
    requires s != [] && IsRegion(s, kind, x) && IsRegion(s, kind, y)
    ensures x == y
  {
    ShapeIsDecided(s, kind, x);
    ShapeIsDecided(s, kind, y);
    OneOfAShape(s, kind, x, y);
  }

  /** The scanner recognises a region if and only if it is declared. */
  lemma RegionIsDeclaredIff(s: string, kind: LitKind, x: Extent)
    requires s != []
    ensures RegionOf(s, kind) == x <==> IsRegion(s, kind, x)
  {
    hide RegionOf, IsRegion;
    RegionsAreAsDeclared(s, kind);
    if IsRegion(s, kind, x) { RegionsAreUnique(s, kind, x, RegionOf(s, kind)); }
  }

  lemma DollarsAreUnique(s: string, m: nat, n: nat)
    requires s != [] && IsDollarQuote(s, m) && IsDollarQuote(s, n)
    ensures m == n
  {
    hide OccursAt;
    hide TagLength;
  }

  // --- The search returns the first match ---

  /** The region at a neither holds the literal nor stops the scan, and ends at b. */
  ghost predicate Skips(src: string, lit: Literal, a: nat, b: nat) {
    a < |src| &&
    var x := RegionOf(src[a..], lit.kind);
    !x.region.Fault? && !Holds(x.region, lit) && b == a + x.used
  }

  /** cuts tiles the text with skipped regions. */
  ghost predicate Passes(src: string, lit: Literal, cuts: seq<nat>) {
    cuts != [] && forall k :: 0 <= k < |cuts| - 1 ==> Skips(src, lit, cuts[k], cuts[k + 1])
  }

  /** How a scan that stands at `at` after passing everything before must end. */
  ghost predicate EndsWith(src: string, lit: Literal, at: nat, o: Outcome) {
    if at >= |src| then o == Missing
    else
      var x := RegionOf(src[at..], lit.kind);
      if x.region.Fault? then o == Panic
      else Holds(x.region, lit) && o == Found(at, at + x.used)
  }

  ghost predicate Explains(src: string, lit: Literal, from: nat, cuts: seq<nat>, o: Outcome) {
    Passes(src, lit, cuts) && cuts[0] == from && EndsWith(src, lit, cuts[|cuts| - 1], o)
  }

  lemma {:induction false} FindHasExplanation(src: string, i: nat, lit: Literal) returns (cuts: seq<nat>)
    ensures Explains(src, lit, i, cuts, Find(src, i, lit))
    decreases if i < |src| then |src| - i else 0
  {
    hide RegionOf, Holds;
    cuts := [i];
    if i < |src| {
      var x := RegionOf(src[i..], lit.kind);
      if !x.region.Fault? && !Holds(x.region, lit) {
        var rest := FindHasExplanation(src, i + x.used, lit);
        cuts := [i] + rest;
        assert Skips(src, lit, i, rest[0]);
        forall k | 0 <= k < |cuts| - 1 ensures Skips(src, lit, cuts[k], cuts[k + 1]) {
          if k > 0 { assert Skips(src, lit, rest[k - 1], rest[k]); }
        }
      }
    }
  }

  lemma {:induction false} ExplanationIsFind(src: string, i: nat, lit: Literal, cuts: seq<nat>, o: Outcome)
    requires Explains(src, lit, i, cuts, o)
    ensures o == Find(src, i, lit)
    decreases |cuts|
  {
    if |cuts| > 1 {
      assert Skips(src, lit, cuts[0], cuts[1]);
      var rest := cuts[1..];
      forall k | 0 <= k < |rest| - 1 ensures Skips(src, lit, rest[k], rest[k + 1]) {
        assert Skips(src, lit, cuts[k + 1], cuts[k + 2]);
      }
      ExplanationIsFind(src, cuts[1], lit, rest, o);
    }
  }

  /**
   The search result is exactly the one a tiling of the text into regions explains: everything
   before the match is skipped region by region, the scan misses only at the end of the text, and
   it panics exactly when it reaches a bit string opened by the last two bytes.
   */
  lemma FindIsFirstMatch(src: string, i: nat, lit: Literal, o: Outcome)
    ensures Find(src, i, lit) == o <==> exists cuts :: Explains(src, lit, i, cuts, o)
  {
    var cuts := FindHasExplanation(src, i, lit);
    if Find(src, i, lit) == o { assert Explains(src, lit, i, cuts, o); }
    if other :| Explains(src, lit, i, other, o) { ExplanationIsFind(src, i, lit, other, o); }
  }

  // --- The rewrite can be undone ---

  datatype Cut = Cut(start: nat, end: nat)

  /** Where the rewrite found its literals. */
  function Cuts(src: string, pos: nat, lits: seq<Literal>): (cuts: seq<Cut>)
    decreases |lits|
  {
    if lits == [] then []
    else
      match Find(src, pos, lits[0])
      case Found(s, e) => [Cut(s, e)] + Cuts(src, e, lits[1..])
      case _ => []
  }

  /** Cuts stand left to right from pos on, without overlap and within the text. */
  ghost predicate InOrder(src: string, pos: nat, cuts: seq<Cut>)
    decreases |cuts|
  {
    cuts == [] ||
    (pos <= cuts[0].start < cuts[0].end <= |src| && InOrder(src, cuts[0].end, cuts[1..]))
  }

  /** The text from pos on, with the k-th cut replaced by the k-th replacement. */
  ghost function Splice(src: string, pos: nat, cuts: seq<Cut>, tokens: seq<string>): string
    requires |cuts| == |tokens| && pos <= |src| && InOrder(src, pos, cuts)
    decreases |cuts|
  {
    if cuts == [] then src[pos..]
    else src[pos..cuts[0].start] + tokens[0] + Splice(src, cuts[0].end, cuts[1..], tokens[1..])
  }

  ghost function Tokens(src: string, pos: nat, cuts: seq<Cut>): (ts: seq<string>)
    requires InOrder(src, pos, cuts)
    ensures |ts| == |cuts|
    decreases |cuts|
  {
    if cuts == [] then [] else [src[cuts[0].start..cuts[0].end]] + Tokens(src, cuts[0].end, cuts[1..])
  }

  function Placeholders(first: nat, n: nat): (ts: seq<string>)
    ensures |ts| == n
    decreases n
  {
    if n == 0 then [] else [Placeholder(first)] + Placeholders(first + 1, n - 1)
  }

  function Values(lits: seq<Literal>): (vs: seq<string>)
    ensures |vs| == |lits|
  {
    if lits == [] then [] else [lits[0].value] + Values(lits[1..])
  }

  /** The token at each cut is one region of the text, and it decodes to its literal. */
  ghost predicate Decode(src: string, cuts: seq<Cut>, lits: seq<Literal>) {
    |cuts| == |lits| && forall j :: 0 <= j < |cuts| ==> DecodesTo(src, cuts[j], lits[j])
  }

  ghost predicate DecodesTo(src: string, cut: Cut, lit: Literal) {
    cut.start < |src| &&
    var x := RegionOf(src[cut.start..], lit.kind);
    Holds(x.region, lit) && cut.end == cut.start + x.used
  }

  lemma {:induction false} RewriteCuts(src: string, pos: nat, lits: seq<Literal>, k: nat)
    requires pos <= |src| && Rewrite(src, pos, lits, k).Rewritten?
    ensures var cuts := Cuts(src, pos, lits);
      && |cuts| == |lits| && InOrder(src, pos, cuts) && Decode(src, cuts, lits)
      && Rewrite(src, pos, lits, k) == Rewritten(Splice(src, pos, cuts, Placeholders(k, |lits|)), Values(lits))
    decreases |lits|
  {
    if lits != [] {
      var o := Find(src, pos, lits[0]);
      FoundDecodes(src, pos, lits[0]);
      RewriteCuts(src, o.end, lits[1..], k + 1);
      var cuts, rest := Cuts(src, pos, lits), Cuts(src, o.end, lits[1..]);
      assert cuts[1..] == rest;
      assert forall j :: 1 <= j < |cuts| ==> cuts[j] == rest[j - 1] && lits[j] == lits[1..][j - 1];
      assert Placeholders(k, |lits|)[1..] == Placeholders(k + 1, |lits| - 1);
    }
  }

  lemma {:induction false} FoundDecodes(src: string, i: nat, lit: Literal)
    requires Find(src, i, lit).Found?
    ensures var o := Find(src, i, lit); DecodesTo(src, Cut(o.start, o.end), lit)
    decreases |src| - i
  {
    hide RegionOf, Holds;
    var x := RegionOf(src[i..], lit.kind);
    if !Holds(x.region, lit) { FoundDecodes(src, i + x.used, lit); }
  }

  lemma {:induction false} SpliceRestores(src: string, pos: nat, cuts: seq<Cut>)
    requires pos <= |src| && InOrder(src, pos, cuts)
    ensures Splice(src, pos, cuts, Tokens(src, pos, cuts)) == src[pos..]
    decreases |cuts|
  {
    if cuts != [] {
      var c := cuts[0];
      SpliceRestores(src, c.end, cuts[1..]);
      var rest := Tokens(src, c.end, cuts[1..]);
      assert Tokens(src, pos, cuts) == [src[c.start..c.end]] + rest;
      assert Tokens(src, pos, cuts)[1..] == rest;
      hide Tokens;
      assert src[pos..] == src[pos..c.start] + src[c.start..c.end] + src[c.end..];
    }
  }

  // --- Numerals ---

  /** Place value, the last digit being the units. */
  function ValueOf(s: string): int {
    if s == [] then 0 else 10 * ValueOf(s[..|s| - 1]) + (s[|s| - 1] as int - '0' as int)
  }

  /** The numeral of a number: digits, no leading zero but in 0 itself, and the right value. */
  predicate Denotes(s: string, n: nat) { s != [] && AllDigits(s) && (|s| > 1 ==> s[0] != '0') && ValueOf(s) == n }

  lemma {:induction false} DecimalDenotes(n: nat)
    ensures Denotes(Decimal(n), n)
  {
    var s := Decimal(n);
    if n < 10 {
      assert s[..0] == [];
    } else {
      DecimalDenotes(n / 10);
      DecimalDenotes(n % 10);
      var a := Decimal(n / 10);
      assert s == a + Decimal(n % 10) && |Decimal(n % 10)| == 1;
      assert s[..|s| - 1] == a;
      assert a != "0" by { assert a == "0" ==> ValueOf(a) == 0 by { assert "0"[..0] == []; } }
    }
  }

  lemma {:induction false} NumeralIsPositive(s: string)
    requires s != [] && AllDigits(s) && s[0] != '0'
    ensures ValueOf(s) > 0
  {
    if |s| > 1 {
      NumeralIsPositive(s[..|s| - 1]);
    } else {
      assert s[..0] == [];
    }
  }

  /** Decimal writes the numeral, and there is only one. */
  lemma {:induction false} DecimalIff(s: string, n: nat)
    ensures s == Decimal(n) <==> Denotes(s, n)
    decreases |s|
  {
    DecimalDenotes(n);
    if Denotes(s, n) {
      var k := |s| - 1;
      if k == 0 {
        assert s[..0] == [] && ValueOf(s[..0]) == 0;
        assert n == s[0] as int - '0' as int && n < 10;
        assert s == [('0' as int + n) as char];
      } else {
        NumeralIsPositive(s[..k]);
        assert ValueOf(s[..k]) == n / 10;
        DecimalIff(s[..k], n / 10);
        assert s == s[..k] + [('0' as int + n % 10) as char];
      }
    }
  }

  /** A placeholder for the parameter with that number. */
  predicate ReadsAs(s: string, k: nat) { s != [] && s[0] == '$' && Denotes(s[1..], k) }

  lemma PlaceholderReads(k: nat)
    ensures ReadsAs(Placeholder(k), k)
  {
    DecimalDenotes(k);
    assert Placeholder(k)[1..] == Decimal(k);
  }

  lemma {:induction false} PlaceholdersRead(first: nat, n: nat)
    ensures forall j :: 0 <= j < n ==> ReadsAs(Placeholders(first, n)[j], first + j)
    decreases n
  {
    hide ReadsAs, Placeholder;
    if n > 0 {
      PlaceholderReads(first);
      PlaceholdersRead(first + 1, n - 1);
    }
  }

  /**
   Whenever the rewrite succeeds, on any text and any literal list, there is one token span per
   literal, disjoint and left to right; each decodes to the value returned at its index; the
   canonical text is the source with the spans replaced by placeholders that read $1, $2 and so on; and
   putting the source tokens back restores the source byte for byte.
   */
  lemma SpliceRoundTrip(src: string, lits: seq<Literal>)
    requires Rewrite(src, 0, lits, 1).Rewritten?
    ensures var r, cuts := Rewrite(src, 0, lits, 1), Cuts(src, 0, lits);
      && InOrder(src, 0, cuts) && Decode(src, cuts, lits)
      && r.values == Values(lits)
      && r.sql == Splice(src, 0, cuts, Placeholders(1, |lits|))
      && (forall j :: 0 <= j < |lits| ==> ReadsAs(Placeholders(1, |lits|)[j], j + 1))
      && src == Splice(src, 0, cuts, Tokens(src, 0, cuts))
  {
    RewriteCuts(src, 0, lits, 1);
    SpliceRestores(src, 0, Cuts(src, 0, lits));
    PlaceholdersRead(1, |lits|);
    assert src[0..] == src;
  }

  // --- Where nothing opens ---

  /** No region but a single character starts here. */
  predicate Inert(s: string, kind: LitKind) {
    s != [] && s[0] != '\'' && s[0] != '"' && s[0] != '$' && !Opens(s) && !StartsNumber(s, kind)
  }

  lemma InertRegion(s: string, kind: LitKind)
    requires Inert(s, kind)
    ensures RegionOf(s, kind) == Extent(if IsWs(s[0]) then Blank else Plain, 1)
  {
    hide Quoted, Escaped, NumberLength, DollarLength, BitsOf, BlockLength, NameLength, NewlineOffset;
  }

  /** The scan passes over text in which nothing opens. */
  lemma {:induction false} InertRun(src: string, p: nat, n: nat, lit: Literal)
    requires p + n <= |src| && forall k :: p <= k < p + n ==> Inert(src[k..], lit.kind)
    ensures Find(src, p, lit) == Find(src, p + n, lit)
    decreases n
  {
    hide Find, Inert;
    if n > 0 {
      InertStep(src, p, lit);
      InertRun(src, p + 1, n - 1, lit);
    }
  }

  lemma InertStep(src: string, p: nat, lit: Literal)
    requires p < |src| && Inert(src[p..], lit.kind)
    ensures Find(src, p, lit) == Find(src, p + 1, lit)
  {
    InertRegion(src[p..], lit.kind);
    hide RegionOf, Inert;
    AtOffset(src, p, src[p..], lit);
  }

  lemma AtOffset(src: string, i: nat, tail: string, lit: Literal)
    requires i < |src| && src[i..] == tail
    ensures var x := RegionOf(tail, lit.kind);
      Find(src, i, lit) ==
        if x.region.Fault? then Panic
        else if Holds(x.region, lit) then Found(i, i + x.used)
        else Find(src, i + x.used, lit)
  {
  }

  // --- What the scanner gets wrong ---

  /** The scanner does not know words: the digit in t1 is taken for the integer that stands after it. */
  lemma DigitInsideWord()
    ensures Find("t1=1", 0, Literal(LitInt, "1")) == Found(1, 2)
  {
    hide Find;
    AtOffset("t1=1", 0, "t1=1", Literal(LitInt, "1"));
    AtOffset("t1=1", 1, "1=1", Literal(LitInt, "1"));
    OneDigit("=1");
    assert "1=1" == ['1'] + "=1";
    assert RegionOf("1=1", LitInt) == Extent(Number("1"), 1);
  }

  lemma OneDigit(rest: string)
    requires rest != [] ==> !IsDigit(rest[0]) && rest[0] != '.' && !IsExponent(rest[0])
    ensures NumberLength(['1'] + rest) == 1 && (['1'] + rest)[..1] == "1"
  {
    assert (['1'] + rest)[1..] == rest;
    assert Digits(['1'] + rest) == 1 + Digits(rest) == 1;
  }

  /** A type name that ends in E and touches its string is cut in two: the span starts at the E. */
  lemma TypedStringCutsItsTypeName()
    ensures Find("DATE'x'", 0, Literal(LitString, "x")) == Found(3, 7)
  {
    var s, lit := "DATE'x'", Literal(LitString, "x");
    hide Find;
    AtOffset(s, 0, "DATE'x'", lit);
    AtOffset(s, 1, "ATE'x'", lit);
    AtOffset(s, 2, "TE'x'", lit);
    AtOffset(s, 3, "E'x'", lit);
    assert "E'x'"[2..] == "x'" && "x'"[1..] == "'";
    assert Escaped("'") == Reading("", 1);
    assert Escaped("x'") == Reading("x", 2);
    assert RegionOf("E'x'", LitString) == Extent(Text("x"), 4);
  }

  /** The fraction of a number written without a leading digit is taken for an integer. */
  lemma FractionTakenForInteger()
    ensures Find(".5", 0, Literal(LitInt, "5")) == Found(1, 2)
  {
    AtOffset(".5", 0, ".5", Literal(LitInt, "5"));
    AtOffset(".5", 1, "5", Literal(LitInt, "5"));
    assert Digits("5") == 1 + Digits("") by { assert "5"[1..] == ""; }
  }

  lemma NumbersAreUnsigned(s: string, kind: LitKind)
    requires s != []
    ensures var r := RegionOf(s, kind).region; r.Number? ==> r.text != [] && r.text[0] != '-'
  {
    hide NumberLength, Quoted, Escaped, DollarLength, BlockLength, NewlineOffset, NameLength, QuoteOffset;
    if StartsNumber(s, kind) { NumberAdvances(s, kind); }
  }

  /** A negative constant is never located: the number reader does not take the sign. */
  lemma {:induction false} NegativeIsNotLocated(src: string, i: nat, lit: Literal)
    requires lit.kind.LitInt? || lit.kind.LitFloat?
    requires lit.value != [] && lit.value[0] == '-'
    ensures !Find(src, i, lit).Found?
    decreases if i < |src| then |src| - i else 0
  {
    if i < |src| {
      var x := RegionOf(src[i..], lit.kind);
      NumbersAreUnsigned(src[i..], lit.kind);
      hide RegionOf;
      if !x.region.Fault? { NegativeIsNotLocated(src, i + x.used, lit); }
    }
  }
}
