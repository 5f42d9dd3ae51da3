/**
 The byte scanner of pkg/pgfox/parser.go: the token readers, the search for the next literal and
 the rewrite loop, each proved to compute its specification in module Lexer.
 */
module Scanner {
  import opened Lexer

  method ReadSingleQuotedString(src: string, pos: nat) returns (value: string, end: nat)
    requires pos < |src|
    ensures pos < end <= |src|
    ensures Reading(value, end - pos - 1) == Quoted(src[pos + 1..])
  {
    hide Quoted;
    var i := pos + 1;
    value := "";
    ghost var all := Quoted(src[pos + 1..]);
    while i < |src|
      invariant pos + 1 <= i <= |src|
      invariant all.value == value + Quoted(src[i..]).value
      invariant all.used == i - pos - 1 + Quoted(src[i..]).used
    {
      QuotedStep(src, i);
      var c, step := src[i], 1;
      if src[i] == '\'' {
        if !(i + 1 < |src| && src[i + 1] == '\'') {
          return value, i + 1;
        }
        step := 2;
      }
      assert value + ([c] + Quoted(src[i + step..]).value) == value + [c] + Quoted(src[i + step..]).value;
      value := value + [c];
      i := i + step;
    }
    QuotedStep(src, i);
    end := i;
  }

  lemma QuotedStep(src: string, i: nat)
    requires i <= |src|
    ensures Quoted(src[i..]) ==
            if i == |src| then Reading("", 0)
            else if src[i] != '\'' then
              Reading([src[i]] + Quoted(src[i + 1..]).value, Quoted(src[i + 1..]).used + 1)
            else if i + 1 < |src| && src[i + 1] == '\'' then
              Reading(['\''] + Quoted(src[i + 2..]).value, Quoted(src[i + 2..]).used + 2)
            else Reading("", 1)
  {
    assert i + 1 < |src| ==> src[i..][2..] == src[i + 2..];
    assert i < |src| ==> src[i..][1..] == src[i + 1..];
  }

  method ReadEString(src: string, pos: nat) returns (value: string, end: nat)
    requires pos + 1 < |src|
    ensures pos + 1 < end <= |src|
    ensures Reading(value, end - pos - 2) == Escaped(src[pos + 2..])
  {
    hide Escaped;
    var i := pos + 2;
    value := "";
    ghost var all := Escaped(src[pos + 2..]);
    while i < |src|
      invariant pos + 2 <= i <= |src|
      invariant all.value == value + Escaped(src[i..]).value
      invariant all.used == i - pos - 2 + Escaped(src[i..]).used
    {
      EscapedStep(src, i);
      var c, step := src[i], 1;
      if src[i] == '\\' && i + 1 < |src| {
        c, step := Unescaped(src[i + 1]), 2;
      } else if src[i] == '\'' {
        if !(i + 1 < |src| && src[i + 1] == '\'') {
          return value, i + 1;
        }
        step := 2;
      }
      assert value + ([c] + Escaped(src[i + step..]).value) == value + [c] + Escaped(src[i + step..]).value;
      value := value + [c];
      i := i + step;
    }
    EscapedStep(src, i);
    end := i;
  }

  lemma EscapedStep(src: string, i: nat)
    requires i <= |src|
    ensures Escaped(src[i..]) ==
            if i == |src| then Reading("", 0)
            else if src[i] == '\\' && i + 1 < |src| then
              Reading([Unescaped(src[i + 1])] + Escaped(src[i + 2..]).value, Escaped(src[i + 2..]).used + 2)
            else if src[i] != '\'' then
              Reading([src[i]] + Escaped(src[i + 1..]).value, Escaped(src[i + 1..]).used + 1)
            else if i + 1 < |src| && src[i + 1] == '\'' then
              Reading(['\''] + Escaped(src[i + 2..]).value, Escaped(src[i + 2..]).used + 2)
            else Reading("", 1)
  {
    assert i + 1 < |src| ==> src[i..][2..] == src[i + 2..];
    assert i < |src| ==> src[i..][1..] == src[i + 1..];
  }

  method SkipTag(src: string, pos: nat) returns (i: nat)
    requires pos <= |src|
    ensures i == pos + TagLength(src[pos..])
  {
    i := pos;
    while i < |src| && (IsAlpha(src[i]) || IsDigit(src[i]))
      invariant pos <= i <= |src|
      invariant TagLength(src[pos..]) == i - pos + TagLength(src[i..])
    {
      assert src[i..][1..] == src[i + 1..];
      i := i + 1;
    }
  }

  method ReadDollarQuoted(src: string, pos: nat) returns (end: nat)
    requires pos < |src| && src[pos] == '$'
    ensures end == pos + DollarLength(src[pos..])
  {
    hide TagLength, IndexOf;
    var i := SkipTag(src, pos + 1);
    assert src[pos..][1..] == src[pos + 1..];
    if i >= |src| || src[i] != '$' {
      return pos + 1;
    }
    var tag := src[pos..i + 1];
    var body := i + 1;
    assert src[pos..][..i - pos + 1] == tag && src[pos..][i - pos + 1..] == src[body..];
    var at := IndexOf(src[body..], tag);
    if at > |src[body..]| {
      return |src|;
    }
    return body + at + |tag|;
  }

  /** The reader of bit strings; the caller keeps away from the one input on which it panics. */
  method ReadBitString(src: string, pos: nat) returns (value: string, end: nat)
    requires pos + 2 < |src|
    ensures var q := pos + 2 + QuoteOffset(src[pos + 2..]);
      && value == [src[pos]] + src[pos + 2..if q < |src| then q else |src| - 1]
      && end == if q < |src| then q + 1 else |src|
  {
    var i := pos + 2;
    while i < |src| && src[i] != '\''
      invariant pos + 2 <= i <= |src|
      invariant QuoteOffset(src[pos + 2..]) == i - pos - 2 + QuoteOffset(src[i..])
    {
      assert src[i..][1..] == src[i + 1..];
      i := i + 1;
    }
    if i < |src| {
      i := i + 1;
    }
    return [src[pos]] + src[pos + 2..i - 1], i;
  }

  method SkipDigits(src: string, pos: nat) returns (i: nat)
    requires pos <= |src|
    ensures i == pos + Digits(src[pos..])
  {
    i := pos;
    while i < |src| && IsDigit(src[i])
      invariant pos <= i <= |src|
      invariant Digits(src[pos..]) == i - pos + Digits(src[i..])
    {
      assert src[i..][1..] == src[i + 1..];
      i := i + 1;
    }
  }

  method ReadFraction(src: string, pos: nat) returns (i: nat)
    requires pos < |src|
    ensures i == pos + FractionEnd(src[pos..])
  {
    hide Digits;
    i := SkipDigits(src, pos);
    if i < |src| && src[i] == '.' {
      assert src[pos..][i - pos + 1..] == src[i + 1..];
      i := SkipDigits(src, i + 1);
    }
  }

  method ReadExponent(src: string, pos: nat, b: nat) returns (i: nat)
    requires pos <= b <= |src|
    ensures i == pos + ExponentEnd(src[pos..], b - pos)
  {
    hide Digits;
    i := b;
    if i < |src| && IsExponent(src[i]) {
      i := i + 1;
      if i < |src| && (src[i] == '+' || src[i] == '-') {
        i := i + 1;
      }
      assert src[pos..][i - pos..] == src[i..];
      i := SkipDigits(src, i);
    }
  }

  method ReadNumber(src: string, pos: nat) returns (value: string, end: nat)
    requires pos < |src|
    ensures end == pos + NumberLength(src[pos..]) && value == src[pos..end]
  {
    hide FractionEnd, ExponentEnd;
    var i := ReadFraction(src, pos);
    i := ReadExponent(src, pos, i);
    return src[pos..i], i;
  }

  method SkipLineComment(src: string, pos: nat) returns (i: nat)
    requires pos <= |src|
    ensures i == pos + NewlineOffset(src[pos..])
  {
    i := pos;
    while i < |src| && src[i] != '\n'
      invariant pos <= i <= |src|
      invariant NewlineOffset(src[pos..]) == i - pos + NewlineOffset(src[i..])
    {
      assert src[i..][1..] == src[i + 1..];
      i := i + 1;
    }
  }

  method SkipBlockComment(src: string, pos: nat) returns (i: nat)
    requires pos + 2 <= |src|
    ensures i == pos + 2 + BlockLength(src[pos + 2..])
  {
    i := pos + 2;
    while i + 1 < |src| && !(src[i] == '*' && src[i + 1] == '/')
      invariant pos + 2 <= i <= |src|
      invariant BlockLength(src[pos + 2..]) == i - pos - 2 + BlockLength(src[i..])
    {
      assert src[i..][1..] == src[i + 1..];
      i := i + 1;
    }
    i := i + 2;
  }

  method SkipQuotedName(src: string, pos: nat) returns (i: nat)
    requires pos < |src|
    ensures i == pos + 1 + NameLength(src[pos + 1..])
  {
    i := pos + 1;
    while i < |src| && src[i] != '"'
      invariant pos + 1 <= i <= |src|
      invariant NameLength(src[pos + 1..]) == i - pos - 1 + NameLength(src[i..])
    {
      assert src[i..][1..] == src[i + 1..];
      i := i + 1;
    }
    if i < |src| {
      i := i + 1;
    }
  }

  method ReadBitRegion(src: string, i: nat) returns (region: Region, end: nat)
    requires i + 1 < |src|
    ensures end > i && Extent(region, end - i) == BitsOf(src[i..])
  {
    assert src[i..][2..] == src[i + 2..];
    if i + 2 == |src| {
      return Fault, |src|;
    }
    ghost var q := QuoteOffset(src[i + 2..]);
    var value;
    value, end := ReadBitString(src, i);
    assert src[i..][2..2 + q] == src[i + 2..i + 2 + q] && src[i..][2..|src| - i - 1] == src[i + 2..|src| - 1];
    return Bits(value), end;
  }

  method NextToken(src: string, i: nat, kind: LitKind) returns (region: Region, end: nat)
    requires i < |src|
    ensures end > i && Extent(region, end - i) == TokenOf(src[i..], kind)
  {
    hide Quoted, Escaped, NumberLength, DollarLength, BitsOf, Digits;
    ghost var s := src[i..];
    var n, c := |src|, src[i];
    var quoteNext := i + 1 < n && src[i + 1] == '\'';
    if ((kind.LitInt? || kind.LitFloat?) && IsDigit(c)) || (kind.LitFloat? && c == '.' && i + 1 < n
        && IsDigit(src[i + 1])) {
      var text;
      NumberAdvances(s, kind);
      text, end := ReadNumber(src, i);
      assert text == s[..NumberLength(s)];
      return Number(text), end;
    }
    var value;
    if c == '\'' {
      assert s[1..] == src[i + 1..];
      value, end := ReadSingleQuotedString(src, i);
      return Text(value), end;
    }
    if IsExponent(c) && quoteNext {
      assert s[2..] == src[i + 2..];
      value, end := ReadEString(src, i);
      return Text(value), end;
    }
    if c == '$' {
      end := ReadDollarQuoted(src, i);
      return Dollar, end;
    }
    if IsBitPrefix(c) && quoteNext {
      region, end := ReadBitRegion(src, i);
      return;
    }
    return Plain, i + 1;
  }

  /** One turn of the scanning loop: the region at position i and where the scan goes on. */
  method NextRegion(src: string, i: nat, kind: LitKind) returns (region: Region, end: nat)
    requires i < |src|
    ensures end > i && Extent(region, end - i) == RegionOf(src[i..], kind)
  {
    hide TokenOf, BlockLength, NameLength;
    ghost var s := src[i..];
    var n, c := |src|, src[i];
    if IsWs(c) {
      return Blank, i + 1;
    }
    if c == '-' && i + 1 < n && src[i + 1] == '-' {
      end := SkipLineComment(src, i);
      return LineComment, end;
    }
    if c == '/' && i + 1 < n && src[i + 1] == '*' {
      assert s[2..] == src[i + 2..];
      end := SkipBlockComment(src, i);
      return BlockComment, end;
    }
    if c == '"' {
      assert s[1..] == src[i + 1..];
      end := SkipQuotedName(src, i);
      return QuotedName, end;
    }
    region, end := NextToken(src, i, kind);
  }

  /** findNextLiteral: terminates on every text, and computes Lexer.Find. */
  method FindNextLiteral(src: string, startPos: nat, lit: Literal) returns (o: Outcome)
    requires startPos <= |src|
    ensures o == Find(src, startPos, lit)
  {
    hide RegionOf;
    var i := startPos;
    while i < |src|
      invariant Find(src, startPos, lit) == Find(src, i, lit)
    {
      var region, end := NextRegion(src, i, lit.kind);
      if region.Fault? {
        return Panic;
      }
      if Holds(region, lit) {
        return Found(i, end);
      }
      i := end;
    }
    return Missing;
  }

  /** rewriteLiteralsWS: the literals, in walk order, become $1, $2, ... */
  method RewriteLiterals(sql: string, litValues: seq<Literal>) returns (r: Rewriting)
    ensures r == Rewrite(sql, 0, litValues, 1)
  {
    hide Find;
    if |litValues| == 0 {
      return Rewritten(sql, []);
    }
    var sb, values, pos, paramIdx := "", [], 0, 0;
    for j := 0 to |litValues|
      invariant pos <= |sql| && paramIdx == j
      invariant Rewrite(sql, 0, litValues, 1) == Prepend(sb, values, Rewrite(sql, pos, litValues[j..], j + 1))
    {
      assert litValues[j..][1..] == litValues[j + 1..];
      var o := FindNextLiteral(sql, pos, litValues[j]);
      match o {
        case Missing => return NotLocated;
        case Panic => return Panicked;
        case Found(start, end) =>
          ghost var rest := Rewrite(sql, end, litValues[j + 1..], j + 2);
          PrependTwice(sb, values, sql[pos..start] + Placeholder(j + 1), [litValues[j].value], rest);
          paramIdx := paramIdx + 1;
          sb := sb + (sql[pos..start] + Placeholder(paramIdx));
          values := values + [litValues[j].value];
          pos := end;
      }
    }
    sb := sb + sql[pos..];
    return Rewritten(sb, values);
  }

  lemma PrependTwice(a: string, vs: seq<string>, b: string, ws: seq<string>, r: Rewriting)
    ensures Prepend(a, vs, Prepend(b, ws, r)) == Prepend(a + b, vs + ws, r)
  {
    if r.Rewritten? {
      assert a + (b + r.sql) == a + b + r.sql;
      assert vs + (ws + r.values) == vs + ws + r.values;
    }
  }
}
